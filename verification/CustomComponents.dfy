/** The limits on custom components, stated on the paths of a JSON tree: where its nodes are and
    where its object members are, whatever order the maps are walked in. */
module CustomComponents {
  import opened Json
  import opened Schema

  const MAX_BYTES: nat := 16 * 1024
  const MAX_DEPTH: nat := 8
  const MAX_FIELDS: nat := 100
  const MAX_KEY: nat := 100

  type Path = seq<Step>

  ghost function Below(s: Step, paths: set<Path>): (r: set<Path>)
    ensures forall p :: p in r <==> p != [] && p[0] == s && p[1..] in paths
  {
    var r := set p | p in paths :: [s] + p;
    assert forall p | p != [] && p[0] == s && p[1..] in paths :: p == [s] + p[1..];
    r
  }

  lemma BelowIsAsMany(s: Step, paths: set<Path>)
    ensures |Below(s, paths)| == |paths|
  {
    if p :| p in paths {
      BelowIsAsMany(s, paths - {p});
      assert Below(s, paths) == Below(s, paths - {p}) + {[s] + p};
      assert [s] + p !in Below(s, paths - {p});
    } else {
      assert Below(s, paths) == {};
    }
  }

  ghost function KeyPaths(keys: set<string>): (r: set<Path>)
    ensures forall p: Path :: p in r <==> |p| == 1 && p[0].Property? && p[0].name in keys
  {
    var r: set<Path> := set k | k in keys :: [Property(k)];
    assert forall p: Path | |p| == 1 && p[0].Property? && p[0].name in keys :: p == [Property(p[0].name)];
    r
  }

  lemma AsManyKeyPaths(keys: set<string>)
    ensures |KeyPaths(keys)| == |keys|
  {
    if k :| k in keys {
      AsManyKeyPaths(keys - {k});
      assert KeyPaths(keys) == KeyPaths(keys - {k}) + {[Property(k)]};
    } else {
      assert KeyPaths(keys) == {};
    }
  }

  /** Where the nodes of a tree are. */
  ghost predicate IsNode(v: Value, path: Path)
    decreases v
  {
    path == [] ||
    match v
    case Obj(fields) => path[0].Property? && path[0].name in fields && IsNode(fields[path[0].name], path[1..])
    case Arr(items) => path[0].Index? && path[0].i < |items| && IsNode(items[path[0].i], path[1..])
    case _ => false
  }

  /** Where the object members are. */
  ghost predicate IsField(v: Value, path: Path)
    decreases v
  {
    path != [] &&
    match v
    case Obj(fields) =>
      path[0].Property? && path[0].name in fields && (|path| == 1 || IsField(fields[path[0].name], path[1..]))
    case Arr(items) => path[0].Index? && path[0].i < |items| && IsField(items[path[0].i], path[1..])
    case _ => false
  }

  /** They are the nodes reached by a key. */
  lemma {:induction false} FieldsAreKeyedNodes(v: Value, path: Path)
    ensures IsField(v, path) <==> path != [] && IsNode(v, path) && path[|path| - 1].Property?
    decreases v
  {
    if path != [] {
      match v
      case Obj(fields) =>
        if path[0].Property? && path[0].name in fields {
          FieldsAreKeyedNodes(fields[path[0].name], path[1..]);
        }
      case Arr(items) =>
        if path[0].Index? && path[0].i < |items| {
          FieldsAreKeyedNodes(items[path[0].i], path[1..]);
        }
      case _ =>
    }
  }

  ghost predicate AreFields(paths: set<Path>, v: Value) {
    forall p: Path :: p in paths <==> IsField(v, p)
  }

  // ---------------------------------------------------------------- JSONDepth

  ghost predicate IsWithin(v: Value, depth: int) {
    forall p | IsNode(v, p) :: |p| < depth
  }

  ghost predicate Reaches(v: Value, depth: int) {
    exists p :: IsNode(v, p) && |p| == depth - 1
  }

  function Child(v: Value, s: Step): Option<Value> {
    match (v, s)
    case (Obj(fields), Property(name)) => if name in fields then Some(fields[name]) else None
    case (Arr(items), Index(i)) => if i < |items| then Some(items[i]) else None
    case _ => None
  }

  lemma ReachesThroughChild(v: Value, s: Step, depth: int)
    requires Child(v, s).Some? && Reaches(Child(v, s).value, depth)
    ensures Reaches(v, depth + 1)
  {
    var p :| IsNode(Child(v, s).value, p) && |p| == depth - 1;
    var q := [s] + p;
    assert q[1..] == p && IsNode(v, q);
  }

  lemma WithinByChildren(v: Value, depth: int)
    requires depth >= 1 && forall s | Child(v, s).Some? :: IsWithin(Child(v, s).value, depth - 1)
    ensures IsWithin(v, depth)
  {
    forall p: Path | IsNode(v, p) && p != [] ensures |p| < depth {
      assert Child(v, p[0]).Some? && IsNode(Child(v, p[0]).value, p[1..]);
    }
  }

  lemma WithinMore(v: Value, depth: int, more: int)
    requires IsWithin(v, depth) && depth <= more
    ensures IsWithin(v, more)
  {
  }

  /** `JSONDepth`: one more than the length of a longest path. */
  method JsonDepth(v: Value) returns (depth: nat)
    ensures IsWithin(v, depth) && Reaches(v, depth)
    decreases v, 1
  {
    match v {
      case Obj(_) => depth := DepthOfObject(v);
      case Arr(_) => depth := DepthOfArray(v);
      case _ =>
        depth := 1;
        assert IsNode(v, []);
    }
  }

  method DepthOfObject(v: Value) returns (depth: nat)
    requires v.Obj?
    ensures IsWithin(v, depth) && Reaches(v, depth)
    decreases v, 0
  {
    depth := 1;
    assert IsNode(v, []);
    var todo := v.fields.Keys;
    while todo != {}
      invariant todo <= v.fields.Keys && depth >= 1 && Reaches(v, depth)
      invariant forall k | k in v.fields.Keys - todo :: IsWithin(v.fields[k], depth - 1)
    {
      var k :| k in todo;
      todo := todo - {k};
      var child := JsonDepth(v.fields[k]);
      if 1 + child > depth {
        ReachesThroughChild(v, Property(k), child);
        forall j | j in v.fields.Keys - todo && j != k ensures IsWithin(v.fields[j], child) {
          WithinMore(v.fields[j], depth - 1, child);
        }
        depth := 1 + child;
      } else {
        WithinMore(v.fields[k], child, depth - 1);
      }
    }
    WithinByChildren(v, depth);
  }

  method DepthOfArray(v: Value) returns (depth: nat)
    requires v.Arr?
    ensures IsWithin(v, depth) && Reaches(v, depth)
    decreases v, 0
  {
    depth := 1;
    assert IsNode(v, []);
    for i := 0 to |v.items|
      invariant depth >= 1 && Reaches(v, depth)
      invariant forall j | 0 <= j < i :: IsWithin(v.items[j], depth - 1)
    {
      var child := JsonDepth(v.items[i]);
      if 1 + child > depth {
        ReachesThroughChild(v, Index(i), child);
        forall j | 0 <= j < i ensures IsWithin(v.items[j], child) {
          WithinMore(v.items[j], depth - 1, child);
        }
        depth := 1 + child;
      } else {
        WithinMore(v.items[i], child, depth - 1);
      }
    }
    WithinByChildren(v, depth);
  }

  // ---------------------------------------------------------------- CountJSONFields

  /** The members of an object, and those below the keys that are done. */
  ghost predicate FoundSoFar(paths: set<Path>, fields: JsonMap, todo: set<string>) {
    forall p: Path :: p in paths <==>
      p != [] && p[0].Property? && p[0].name in fields &&
      (|p| == 1 || (p[0].name !in todo && IsField(fields[p[0].name], p[1..])))
  }

  lemma OneMoreKey(paths: set<Path>, fields: JsonMap, todo: set<string>, k: string, inner: set<Path>)
    requires FoundSoFar(paths, fields, todo) && k in todo && k in fields && AreFields(inner, fields[k])
    ensures FoundSoFar(paths + Below(Property(k), inner), fields, todo - {k})
    ensures |paths + Below(Property(k), inner)| == |paths| + |inner|
  {
    BelowIsAsMany(Property(k), inner);
    assert paths !! Below(Property(k), inner);
  }

  /** How many members there are, counted on any set that lists them all. */
  ghost predicate IsFieldCount(count: int, v: Value) {
    exists paths :: AreFields(paths, v) && |paths| == count
  }

  method CountMembers(v: Value) returns (count: nat)
    requires v.Obj?
    ensures IsFieldCount(count, v)
    decreases v, 0
  {
    var fields := v.fields;
    count := |fields|;
    ghost var paths := KeyPaths(fields.Keys);
    AsManyKeyPaths(fields.Keys);
    var todo := fields.Keys;
    while todo != {}
      invariant todo <= fields.Keys && count == |paths| && FoundSoFar(paths, fields, todo)
    {
      var k :| k in todo;
      var more := CountJsonFields(fields[k]);
      ghost var inner :| AreFields(inner, fields[k]) && |inner| == more;
      OneMoreKey(paths, fields, todo, k, inner);
      todo := todo - {k};
      count, paths := count + more, paths + Below(Property(k), inner);
    }
    assert AreFields(paths, v);
  }

  /** The members found in the first n items. */
  ghost predicate FoundInItems(paths: set<Path>, items: seq<Value>, n: int)
    requires n <= |items|
  {
    forall p: Path :: p in paths <==> p != [] && p[0].Index? && p[0].i < n && IsField(items[p[0].i], p[1..])
  }

  lemma OneMoreItem(paths: set<Path>, items: seq<Value>, n: nat, inner: set<Path>)
    requires n < |items| && FoundInItems(paths, items, n) && AreFields(inner, items[n])
    ensures FoundInItems(paths + Below(Index(n), inner), items, n + 1)
    ensures |paths + Below(Index(n), inner)| == |paths| + |inner|
  {
    BelowIsAsMany(Index(n), inner);
    assert paths !! Below(Index(n), inner);
  }

  method CountInItems(v: Value) returns (count: nat)
    requires v.Arr?
    ensures IsFieldCount(count, v)
    decreases v, 0
  {
    count := 0;
    ghost var paths: set<Path> := {};
    for i := 0 to |v.items|
      invariant count == |paths| && FoundInItems(paths, v.items, i)
    {
      var more := CountJsonFields(v.items[i]);
      ghost var inner :| AreFields(inner, v.items[i]) && |inner| == more;
      OneMoreItem(paths, v.items, i, inner);
      count, paths := count + more, paths + Below(Index(i), inner);
    }
    assert AreFields(paths, v);
  }

  /** `CountJSONFields`. */
  method CountJsonFields(v: Value) returns (count: nat)
    ensures IsFieldCount(count, v)
    decreases v, 1
  {
    match v {
      case Obj(_) => count := CountMembers(v);
      case Arr(_) => count := CountInItems(v);
      case _ =>
        count := 0;
        assert AreFields({}, v);
    }
  }

  /** There is only one such number. */
  lemma FieldCountIsUnique(v: Value, m: int, n: int)
    requires IsFieldCount(m, v) && IsFieldCount(n, v)
    ensures m == n
  {
    var p :| AreFields(p, v) && |p| == m;
    var q :| AreFields(q, v) && |q| == n;
    assert p == q;
  }

  // ---------------------------------------------------------------- the walk over the keys

  /** The bytes of a character in UTF-8. */
  function ByteWidth(c: char): nat {
    if c < '\U{80}' then 1 else if c < '\U{800}' then 2 else if c < '\U{10000}' then 3 else 4
  }

  /** Go's `len` of a string. */
  function ByteLength(s: string): (n: nat)
    ensures |s| <= n <= 4 * |s|
  {
    if s == "" then 0 else ByteWidth(s[0]) + ByteLength(s[1..])
  }

  predicate EndsInShortKey(p: Path) {
    p != [] && p[|p| - 1].Property? ==> ByteLength(p[|p| - 1].name) <= MAX_KEY
  }

  ghost predicate KeysAreShort(v: Value) {
    forall p | IsField(v, p) :: EndsInShortKey(p)
  }

  lemma ShortKeysOfObject(v: Value)
    requires v.Obj?
    ensures KeysAreShort(v) <==> forall k | k in v.fields :: ByteLength(k) <= MAX_KEY && KeysAreShort(v.fields[k])
  {
    if KeysAreShort(v) {
      forall k | k in v.fields ensures ByteLength(k) <= MAX_KEY && KeysAreShort(v.fields[k]) {
        assert IsField(v, [Property(k)]) && EndsInShortKey([Property(k)]);
        forall p | IsField(v.fields[k], p) ensures EndsInShortKey(p) {
          var q := [Property(k)] + p;
          assert q[1..] == p && IsField(v, q) && EndsInShortKey(q);
        }
      }
    } else {
      var p: Path :| IsField(v, p) && !EndsInShortKey(p);
      assert |p| > 1 ==> IsField(v.fields[p[0].name], p[1..]) && !EndsInShortKey(p[1..]);
    }
  }

  lemma ShortKeysOfArray(v: Value)
    requires v.Arr?
    ensures KeysAreShort(v) <==> forall i | 0 <= i < |v.items| :: KeysAreShort(v.items[i])
  {
    if KeysAreShort(v) {
      forall i | 0 <= i < |v.items| ensures KeysAreShort(v.items[i]) {
        forall p | IsField(v.items[i], p) ensures EndsInShortKey(p) {
          var q := [Index(i)] + p;
          assert q[1..] == p && IsField(v, q) && EndsInShortKey(q);
        }
      }
    } else {
      var p: Path :| IsField(v, p) && !EndsInShortKey(p);
      assert IsField(v.items[p[0].i], p[1..]) && !EndsInShortKey(p[1..]);
    }
  }

  method WalkKeys(v: Value) returns (ok: bool)
    ensures ok <==> KeysAreShort(v)
    decreases v
  {
    match v {
      case Obj(fields) =>
        ShortKeysOfObject(v);
        var todo := fields.Keys;
        while todo != {}
          invariant todo <= fields.Keys
          invariant forall k | k in fields.Keys - todo :: ByteLength(k) <= MAX_KEY && KeysAreShort(fields[k])
        {
          var k :| k in todo;
          todo := todo - {k};
          if ByteLength(k) > MAX_KEY {
            return false;
          }
          ok := WalkKeys(fields[k]);
          if !ok {
            return;
          }
        }
        return true;
      case Arr(items) =>
        ShortKeysOfArray(v);
        for i := 0 to |items|
          invariant forall j | 0 <= j < i :: KeysAreShort(items[j])
        {
          ok := WalkKeys(items[i]);
          if !ok {
            return;
          }
        }
        return true;
      case _ => return true;
    }
  }

  // ---------------------------------------------------------------- ValidateCustomComponent

  /** What a custom component may be; `size` is the length of its encoding. */
  ghost predicate CustomComponentOk(size: nat, v: Value) {
    && v.Obj? && size <= MAX_BYTES
    && IsWithin(v, MAX_DEPTH)
    && (exists n :: IsFieldCount(n, v) && n <= MAX_FIELDS)
    && KeysAreShort(v)
  }

  method ValidateCustomComponent(size: nat, v: Value) returns (ok: bool)
    ensures ok <==> CustomComponentOk(size, v)
  {
    if !v.Obj? || size > MAX_BYTES {
      return false;
    }
    var depth := JsonDepth(v);
    if depth > MAX_DEPTH {
      return false;
    }
    var count := CountJsonFields(v);
    if count > MAX_FIELDS {
      forall n | IsFieldCount(n, v) ensures n == count {
        FieldCountIsUnique(v, n, count);
      }
      return false;
    }
    ok := WalkKeys(v);
  }
}
