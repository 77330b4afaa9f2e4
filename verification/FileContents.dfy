/** What every file holds after any run of outcomes, on disk and as committed: the bytes a caller was told are
    there, and those it was told are not. */
module FileContents {
  import opened FileProtocol
  import opened ObjectFiles

  /** Of each promoted file, its bytes on disk and its content at its last commit. */
  datatype Contents = Contents(disk: map<Key, Bytes>, committed: map<Key, Bytes>)

  /** What one outcome does to them. An append commits all that is in the file by then. */
  function Told(c: Contents, o: Outcome): Contents {
    match o
    case Uploaded(k, bytes) => Contents(c.disk[k := bytes], c.committed[k := bytes])
    case Appended(k, chunk) =>
      if k in c.disk then Contents(c.disk[k := c.disk[k] + chunk], c.committed[k := c.disk[k] + chunk]) else c
    case Stranded(k, junk, _) => if k in c.disk then c.(disk := c.disk[k := c.disk[k] + junk]) else c
    case Removed(keys, _) => Contents(c.disk - keys, c.committed - keys)
    case _ => c
  }

  function ToldBy(c: Contents, outcomes: seq<Outcome>): Contents {
    if outcomes == [] then c else Told(ToldBy(c, outcomes[..|outcomes| - 1]), outcomes[|outcomes| - 1])
  }

  ghost function ContentsOf(w: World): (c: Contents)
    requires PrefixHeld(w)
  {
    Contents(map k | k in w.committed :: w.disk[w.db.files[k].path], w.committed)
  }

  lemma CommittedIsTold(o: Outcome, w: World, w': World)
    requires PrefixHeld(w) && Moves(o, w, w')
    ensures w'.committed == Told(ContentsOf(w), o).committed
  {
  }

  lemma SameFiles(c: Contents, o: Outcome)
    requires c.disk.Keys == c.committed.Keys
    ensures Told(c, o).disk.Keys == Told(c, o).committed.Keys
  {
  }

  lemma DiskIsTold(o: Outcome, w: World, w': World, k: Key)
    requires Consistent(w.db) && PrefixHeld(w) && Moves(o, w, w') && PrefixHeld(w')
    requires k in Told(ContentsOf(w), o).disk && k in w'.committed
    ensures w'.disk[w'.db.files[k].path] == Told(ContentsOf(w), o).disk[k]
  {
    match o
    case Uploaded(key, _) =>
      if k != key {
        NewPathIsDistinct(w.db, key);
      }
    case Appended(key, _) =>
      if k != key && w.db.files[k].path == w.db.files[key].path {
        PathsAreDistinct(w.db, k, key);
      }
    case Stranded(key, _, _) =>
      if k != key && w.db.files[k].path == w.db.files[key].path {
        PathsAreDistinct(w.db, k, key);
      }
    case Removed(keys, _) =>
      if k2 :| k2 in keys && w.db.files[k2].path == w.db.files[k].path {
        PathsAreDistinct(w.db, k, k2);
      }
    case _ =>
  }

  ghost predicate DiskIs(w: World, disk: map<Key, Bytes>)
    requires PrefixHeld(w)
  {
    disk.Keys == w.committed.Keys && forall k | k in disk :: w.disk[w.db.files[k].path] == disk[k]
  }

  lemma SameContents(w: World, c: Contents)
    requires PrefixHeld(w) && c.committed == w.committed && DiskIs(w, c.disk)
    ensures ContentsOf(w) == c
  {
    assert ContentsOf(w).disk == c.disk;
  }

  lemma WholeDiskIsTold(o: Outcome, w: World, w': World)
    requires Consistent(w.db) && PrefixHeld(w) && Moves(o, w, w') && PrefixHeld(w')
    requires Told(ContentsOf(w), o).disk.Keys == w'.committed.Keys
    ensures DiskIs(w', Told(ContentsOf(w), o).disk)
  {
    var disk := Told(ContentsOf(w), o).disk;
    forall k | k in disk ensures w'.disk[w'.db.files[k].path] == disk[k] {
      DiskIsTold(o, w, w', k);
    }
  }

  lemma OutcomeTells(o: Outcome, w: World, w': World)
    requires Consistent(w.db) && PrefixHeld(w) && Moves(o, w, w') && PrefixHeld(w')
    ensures ContentsOf(w') == Told(ContentsOf(w), o)
  {
    CommittedIsTold(o, w, w');
    SameFiles(ContentsOf(w), o);
    WholeDiskIsTold(o, w, w');
    SameContents(w', Told(ContentsOf(w), o));
  }

  lemma ToldMore(c: Contents, outcomes: seq<Outcome>, n: nat)
    requires n < |outcomes|
    ensures ToldBy(c, outcomes[..n + 1]) == Told(ToldBy(c, outcomes[..n]), outcomes[n])
  {
    assert outcomes[..n + 1][..n] == outcomes[..n];
  }

  lemma StepTells(o: Outcome, w: World, w': World)
    requires Consistent(w.db) && PrefixHeld(w) && Moves(o, w, w')
    ensures Consistent(w'.db) && PrefixHeld(w') && ContentsOf(w') == Told(ContentsOf(w), o)
  {
    CallKeeps(o, w, w');
    OutcomeTells(o, w, w');
  }

  /** Over any run, of a ready store or not, disk and committed content of every promoted file are what the
      outcomes tell. */
  lemma {:induction false} RunTells(worlds: seq<World>, outcomes: seq<Outcome>, n: nat)
    requires IsRun(worlds, outcomes) && n <= |outcomes|
    requires Consistent(worlds[0].db) && PrefixHeld(worlds[0])
    ensures Consistent(worlds[n].db) && PrefixHeld(worlds[n])
    ensures ContentsOf(worlds[n]) == ToldBy(ContentsOf(worlds[0]), outcomes[..n])
  {
    if n > 0 {
      RunTells(worlds, outcomes, n - 1);
      assert StepAt(worlds, outcomes, n - 1);
      StepTells(outcomes[n - 1], worlds[n - 1], worlds[n]);
      ToldMore(ContentsOf(worlds[0]), outcomes, n - 1);
    }
  }

  // ---------------------------------------------------------------- without stranded bytes

  /** What the successful calls alone would make of a file: its upload, then its chunks. */
  function Accepted(committed: map<Key, Bytes>, o: Outcome): map<Key, Bytes> {
    match o
    case Uploaded(k, bytes) => committed[k := bytes]
    case Appended(k, chunk) => if k in committed then committed[k := committed[k] + chunk] else committed
    case Removed(keys, _) => committed - keys
    case _ => committed
  }

  function AcceptedBy(committed: map<Key, Bytes>, outcomes: seq<Outcome>): map<Key, Bytes> {
    if outcomes == [] then committed
    else Accepted(AcceptedBy(committed, outcomes[..|outcomes| - 1]), outcomes[|outcomes| - 1])
  }

  predicate StrandsBytes(o: Outcome) {
    o.Stranded? && o.junk != []
  }

  lemma {:induction false} NothingStranded(c: Contents, outcomes: seq<Outcome>)
    requires c.disk == c.committed && forall i | 0 <= i < |outcomes| :: !StrandsBytes(outcomes[i])
    ensures var accepted := AcceptedBy(c.committed, outcomes); ToldBy(c, outcomes) == Contents(accepted, accepted)
  {
    if outcomes != [] {
      NothingStranded(c, outcomes[..|outcomes| - 1]);
      var o, before := outcomes[|outcomes| - 1], AcceptedBy(c.committed, outcomes[..|outcomes| - 1]);
      if o.Stranded? && o.key in before {
        assert before[o.key] + o.junk == before[o.key];
      }
    }
  }

  lemma SettledContents(w: World)
    requires PrefixHeld(w) && Settled(w) && w.healthy
    ensures ContentsOf(w).disk == w.committed
  {
    forall k | k in w.committed ensures w.disk[w.db.files[k].path] == w.committed[k] {
      var bytes := w.disk[w.db.files[k].path];
      assert |bytes| == |w.committed[k]| && bytes[..|bytes|] == bytes;
    }
  }

  /** A store that is ready at the end of a run has stranded bytes only without a word. */
  lemma {:induction false} ReadyMeansSilent(worlds: seq<World>, outcomes: seq<Outcome>, n: nat, i: nat)
    requires IsRun(worlds, outcomes) && i < n <= |outcomes| && worlds[n].healthy
    ensures StrandsBytes(outcomes[i]) <==> IsSilent(outcomes[i])
  {
    assert StepAt(worlds, outcomes, n - 1);
    if i < n - 1 {
      ReadyMeansSilent(worlds, outcomes, n - 1, i);
    }
  }

  /** Over any run at whose end the store is ready: unless some call ended silently, every file's committed
      content is its upload followed by the chunks of its committed appends, and its bytes on disk are too. */
  lemma RunAccepts(worlds: seq<World>, outcomes: seq<Outcome>, n: nat)
    requires IsRun(worlds, outcomes) && n <= |outcomes| && worlds[n].healthy
    requires Consistent(worlds[0].db) && PrefixHeld(worlds[0]) && Settled(worlds[0])
    requires forall i | 0 <= i < n :: !IsSilent(outcomes[i])
    ensures Consistent(worlds[n].db) && PrefixHeld(worlds[n])
    ensures var accepted := AcceptedBy(worlds[0].committed, outcomes[..n]);
            ContentsOf(worlds[n]) == Contents(accepted, accepted)
  {
    EveryRun(worlds, outcomes, n);
    RunTells(worlds, outcomes, n);
    SettledContents(worlds[0]);
    forall i | 0 <= i < n ensures !StrandsBytes(outcomes[..n][i]) {
      ReadyMeansSilent(worlds, outcomes, n, i);
    }
    NothingStranded(ContentsOf(worlds[0]), outcomes[..n]);
  }

  // ---------------------------------------------------------------- with stranded bytes

  lemma OneAfterTheOther(a: Bytes, b: Bytes, c: Bytes)
    ensures a + b + c == a + (b + c)
  {
  }

  /** A stranding and the next append to the file look like one append of both. */
  lemma StrandThenAppend(w: World, w1: World, w2: World, k: Key, junk: Bytes, chunk: Bytes)
    requires Moves(Stranded(k, junk, false), w, w1) && Moves(Appended(k, chunk), w1, w2)
    ensures Moves(Appended(k, junk + chunk), w, w2)
  {
    OneAfterTheOther(w.disk[w.db.files[k].path], junk, chunk);
  }

  lemma AppendToSettled(w: World, w': World, k: Key, chunk: Bytes)
    requires Consistent(w.db) && PrefixHeld(w) && w.healthy && Settled(w) && k in w.committed
    requires Moves(Appended(k, chunk), w, w')
    ensures w'.healthy && Agrees(w') && k in w'.committed && w'.committed[k] == w.committed[k] + chunk
  {
    AgreementAfterAppend(w, w', k, chunk);
    SettledContents(w);
    assert ContentsOf(w).disk[k] == w.committed[k];
  }

  /** Bytes stranded without a word are committed by the next append to the file, which was never told of
      them: the store is then ready and its media agree. */
  lemma RefusedBytesAreAdopted(w: World, w1: World, w2: World, k: Key, junk: Bytes, chunk: Bytes)
    requires Consistent(w.db) && PrefixHeld(w) && w.healthy && Settled(w) && k in w.committed
    requires Moves(Stranded(k, junk, false), w, w1) && Moves(Appended(k, chunk), w1, w2)
    ensures w2.healthy && Agrees(w2) && k in w2.committed && w2.committed[k] == w.committed[k] + junk + chunk
  {
    StrandThenAppend(w, w1, w2, k, junk, chunk);
    AppendToSettled(w, w2, k, junk + chunk);
    OneAfterTheOther(w.committed[k], junk, chunk);
  }
}
