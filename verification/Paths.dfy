/** Identifiers, and the object-file paths built from them. */
module Paths {
  import opened Json

  predicate IsIdChar(c: char) {
    'a' <= c <= 'z' || 'A' <= c <= 'Z' || '0' <= c <= '9' || c in {'.', '_', ':', '-'}
  }

  /** `model.ValidateID`. */
  predicate IsValidId(id: string) {
    && 0 < |id| <= 50
    && (forall i :: 0 <= i < |id| ==> IsIdChar(id[i]))
    && (exists i :: 0 <= i < |id| && id[i] != '.')
  }

  // ---------------------------------------------------------------- filepath.Clean and Join

  function Split(s: string): (segments: seq<string>)
    ensures |segments| >= 1
  {
    if s == "" then [""]
    else
      var rest := Split(s[1..]);
      if s[0] == '/' then [""] + rest else [[s[0]] + rest[0]] + rest[1..]
  }

  function Join(segments: seq<string>): string {
    if segments == [] then ""
    else if |segments| == 1 then segments[0]
    else segments[0] + "/" + Join(segments[1..])
  }

  /** Drops empty and "." segments and lets ".." undo the segment before it. */
  function Resolve(rooted: bool, segments: seq<string>, done: seq<string>): seq<string>
    decreases |segments|
  {
    if segments == [] then done
    else
      var s, rest := segments[0], segments[1..];
      if s == "" || s == "." then Resolve(rooted, rest, done)
      else if s != ".." then Resolve(rooted, rest, done + [s])
      else if done != [] && done[|done| - 1] != ".." then Resolve(rooted, rest, done[..|done| - 1])
      else if rooted then Resolve(rooted, rest, done)
      else Resolve(rooted, rest, done + [s])
  }

  /** `filepath.Clean`. */
  function Clean(path: string): string {
    if path == "" then "."
    else
      var rooted := path[0] == '/';
      var body := Join(Resolve(rooted, Split(path), []));
      if rooted then "/" + body else if body == "" then "." else body
  }

  predicate HasPrefix(s: string, prefix: string) {
    prefix <= s
  }

  predicate OccursAt(s: string, part: string, i: nat) {
    i + |part| <= |s| && s[i..i + |part|] == part
  }

  predicate Contains(s: string, part: string) {
    exists i | 0 <= i <= |s| :: OccursAt(s, part, i)
  }

  // ---------------------------------------------------------------- the object store's paths

  /** `LogicalPath`. The source joins and cleans the three segments; `JoinedPathIsLiteral` shows that
      cleaning changes nothing on valid IDs. */
  function LogicalPath(objectId: string, fileId: string): Option<string> {
    if IsValidId(objectId) && IsValidId(fileId) then Some(ObjectPath(objectId, fileId)) else None
  }

  function ObjectPath(objectId: string, fileId: string): string {
    "objects/" + objectId + "/" + fileId
  }

  /** `AbsolutePath`, below a root that is itself an absolute, clean path. */
  function AbsolutePath(root: string, logical: string): Option<string> {
    if logical == "" then None
    else
      var clean := Clean(logical);
      if HasPrefix(clean, "../") || clean == ".." || Contains(clean, "../") then None
      else
        var absolute := Clean(root + "/" + clean);
        if !HasPrefix(absolute, root + "/") then (if absolute == root then Some(absolute) else None)
        else if HasPrefix(absolute[|root| + 1..], "..") then None
        else Some(absolute)
  }

  /** An absolute path that `Clean` leaves alone, other than "/". */
  predicate IsCleanRoot(root: string) {
    |root| > 1 && root[0] == '/' && forall i :: 1 <= i < |Split(root)| ==> IsPlain(Split(root)[i])
  }

  predicate IsPlain(segment: string) {
    segment != "" && segment != "." && segment != ".." && '/' !in segment
  }

  predicate EndsWithDots(id: string) {
    |id| >= 2 && id[|id| - 2] == '.' && id[|id| - 1] == '.'
  }

  lemma {:induction false} SplitPlain(s: string)
    requires '/' !in s
    ensures Split(s) == [s]
  {
    if s != "" {
      SplitPlain(s[1..]);
      assert s == [s[0]] + s[1..];
    }
  }

  lemma {:induction false} SplitConcat(a: string, b: string)
    ensures Split(a + "/" + b) == Split(a) + Split(b)
  {
    if a == "" {
      assert (a + "/" + b)[1..] == b;
    } else {
      assert (a + "/" + b)[1..] == a[1..] + "/" + b;
      SplitConcat(a[1..], b);
    }
  }

  lemma {:induction false} JoinSplit(s: string)
    ensures Join(Split(s)) == s
  {
    if s != "" {
      JoinSplit(s[1..]);
      var rest := Split(s[1..]);
      if s[0] == '/' {
        assert ([""] + rest)[1..] == rest;
      } else {
        assert ([[s[0]] + rest[0]] + rest[1..])[1..] == rest[1..];
        assert Join(Split(s)) == [s[0]] + Join(rest);
      }
    }
  }

  /** Plain segments come through `Clean` unchanged. */
  lemma {:induction false} ResolvePlain(rooted: bool, segments: seq<string>, done: seq<string>)
    requires forall i :: 0 <= i < |segments| ==> IsPlain(segments[i])
    ensures Resolve(rooted, segments, done) == done + segments
  {
    if segments != [] {
      ResolvePlain(rooted, segments[1..], done + [segments[0]]);
      assert done + [segments[0]] + segments[1..] == done + segments;
    }
  }

  lemma IdIsPlain(id: string)
    requires IsValidId(id)
    ensures IsPlain(id)
  {
  }

  lemma SplitPath(objectId: string, fileId: string)
    requires IsValidId(objectId) && IsValidId(fileId)
    ensures Split("objects/" + objectId + "/" + fileId) == ["objects", objectId, fileId]
  {
    SplitPlain("objects");
    SplitPlain(objectId);
    SplitPlain(fileId);
    SplitConcat("objects", objectId + "/" + fileId);
    SplitConcat(objectId, fileId);
    assert "objects/" + objectId + "/" + fileId == "objects" + "/" + (objectId + "/" + fileId);
  }

  /** filepath.Join("objects", object, file) is the three segments with nothing cleaned away. */
  lemma JoinedPathIsLiteral(objectId: string, fileId: string)
    requires IsValidId(objectId) && IsValidId(fileId)
    ensures Clean(ObjectPath(objectId, fileId)) == ObjectPath(objectId, fileId)
  {
    var path := ObjectPath(objectId, fileId);
    SplitPath(objectId, fileId);
    IdIsPlain(objectId);
    IdIsPlain(fileId);
    ResolvePlain(false, Split(path), []);
    assert [] + Split(path) == Split(path);
    JoinSplit(path);
    assert path[0] == 'o';
  }

  /** Distinct pairs of valid IDs never share a path. */
  lemma LogicalPathInjective(o1: string, f1: string, o2: string, f2: string)
    requires LogicalPath(o1, f1).Some? && LogicalPath(o1, f1) == LogicalPath(o2, f2)
    ensures o1 == o2 && f1 == f2
  {
    SplitPath(o1, f1);
    SplitPath(o2, f2);
  }

  lemma OccurrenceOfDots(s: string, i: nat)
    requires OccursAt(s, "../", i)
    ensures s[i] == '.' && s[i + 1] == '.' && s[i + 2] == '/'
  {
    var found := s[i..i + 3];
    assert found[0] == '.' && found[1] == '.' && found[2] == '/';
  }

  /** The slashes of a path are the two separators; what precedes the second one is the object ID. */
  lemma PathCharacters(objectId: string, fileId: string, path: string)
    requires IsValidId(objectId) && IsValidId(fileId) && path == "objects/" + objectId + "/" + fileId
    ensures path[5] == 't' && path[6] == 's' && path[7] == '/' && path[8 + |objectId|] == '/'
    ensures forall i | 8 <= i < 8 + |objectId| :: path[i] == objectId[i - 8] && path[i] != '/'
    ensures forall i | 0 <= i < |path| :: path[i] == '/' ==> i == 7 || i == 8 + |objectId|
  {
    var tail := objectId + "/" + fileId;
    assert path == "objects/" + tail;
    assert forall i | 8 <= i < |path| :: path[i] == tail[i - 8];
    assert forall i | 0 <= i < |objectId| :: tail[i] == objectId[i];
    assert forall i | |objectId| < i < |tail| :: tail[i] == fileId[i - |objectId| - 1];
    assert forall i | 0 <= i < 8 :: path[i] == "objects/"[i];
  }

  lemma DotsBeforeSlash(objectId: string, fileId: string, path: string)
    requires IsValidId(objectId) && IsValidId(fileId) && path == "objects/" + objectId + "/" + fileId
    ensures Contains(path, "../") <==> EndsWithDots(objectId)
  {
    var slash := 8 + |objectId|;
    PathCharacters(objectId, fileId, path);
    if EndsWithDots(objectId) {
      assert path[slash - 2] == '.' && path[slash - 1] == '.';
      assert OccursAt(path, "../", slash - 2);
    }
    if Contains(path, "../") {
      var i: nat :| i <= |path| && OccursAt(path, "../", i);
      OccurrenceOfDots(path, i);
    }
  }

  lemma AbsoluteIsLiteral(root: string, objectId: string, fileId: string)
    requires IsCleanRoot(root) && IsValidId(objectId) && IsValidId(fileId)
    ensures var path := root + "/" + ObjectPath(objectId, fileId); Clean(path) == path
  {
    var tail := ObjectPath(objectId, fileId);
    var path := root + "/" + tail;
    SplitPath(objectId, fileId);
    SplitConcat(root, tail);
    IdIsPlain(objectId);
    IdIsPlain(fileId);
    var segments := Split(path);
    assert segments[0] == "" by {
      assert Split(root) == [""] + Split(root[1..]);
    }
    assert forall i :: 1 <= i < |segments| ==> IsPlain(segments[i]);
    ResolvePlain(true, segments[1..], []);
    assert [] + segments[1..] == segments[1..];
    JoinSplit(path);
    assert Join(segments) == "" + "/" + Join(segments[1..]);
    assert Resolve(true, segments, []) == segments[1..];
  }

  lemma NotAPrefix(s: string, prefix: string)
    requires s != "" && prefix != "" && s[0] != prefix[0]
    ensures !HasPrefix(s, prefix)
  {
  }

  lemma ResolvesBelowRoot(root: string, path: string)
    requires |path| >= 2 && path[0] != '.' && Clean(path) == path
    requires Clean(root + "/" + path) == root + "/" + path
    ensures AbsolutePath(root, path) == if Contains(path, "../") then None else Some(root + "/" + path)
  {
    var absolute := root + "/" + path;
    assert absolute[..|root| + 1] == root + "/";
    assert absolute[|root| + 1..] == path;
    NotAPrefix(path, "..");
    NotAPrefix(path, "../");
  }

  /** A stored path resolves to `root/objects/<object>/<file>`, except that an object ID ending
      in ".." passes `ValidateID` and is refused here. */
  lemma AbsolutePathIff(root: string, objectId: string, fileId: string)
    requires IsCleanRoot(root) && IsValidId(objectId) && IsValidId(fileId)
    ensures var path := ObjectPath(objectId, fileId);
            AbsolutePath(root, path) == if EndsWithDots(objectId) then None else Some(root + "/" + path)
  {
    var path := ObjectPath(objectId, fileId);
    JoinedPathIsLiteral(objectId, fileId);
    PathCharacters(objectId, fileId, path);
    DotsBeforeSlash(objectId, fileId, path);
    AbsoluteIsLiteral(root, objectId, fileId);
    assert path[0] == "objects/"[0];
    ResolvesBelowRoot(root, path);
  }

  lemma DottedIdsExist()
    ensures exists id :: IsValidId(id) && EndsWithDots(id)
  {
    var id := "a..";
    assert id[0] != '.';
    assert IsValidId(id) && EndsWithDots(id);
  }

  /** So there are stored paths that never resolve, whatever the root. */
  lemma DottedIdIsRefused(root: string)
    requires IsCleanRoot(root)
    ensures exists o, f :: LogicalPath(o, f).Some? && AbsolutePath(root, ObjectPath(o, f)) == None
  {
    DottedIdsExist();
    var id :| IsValidId(id) && EndsWithDots(id);
    AbsolutePathIff(root, id, id);
    assert LogicalPath(id, id).Some?;
  }
}
