/** The steps of an append against the outcomes of the call: a caller that is not interrupted ends the way
    `FileProtocol` lets an append end. */
module AppendRefinement {
  import opened FileProtocol
  import opened ObjectFiles
  import A = ConcurrentAppends

  /** The steps start from the file, row and flag of this world. */
  ghost predicate Depicts(w: World, k: Key, s: A.State) {
    && k in w.db.files && w.db.files[k].path in w.disk
    && w.disk[w.db.files[k].path] == s.disk && w.db.files[k].size == s.size && w.healthy == s.healthy
  }

  /** The world with the file, row and flag the steps lead to. */
  ghost function WorldAfter(w: World, k: Key, s: A.State, commits: bool): World
    requires k in w.db.files
  {
    var path := w.db.files[k].path;
    World(w.db.(files := w.db.files[k := FileRow(path, s.size)]), w.disk[path := s.disk], s.healthy,
          if commits && k in w.committed then w.committed[k := s.disk] else w.committed)
  }

  predicate IsUnrecorded(s0: A.State, s: A.State) {
    s.size == s0.size && s.log == s0.log
  }

  /** A call that has given up: what it left is stranded, or the flag is down. */
  predicate HasGivenUp(s0: A.State, s: A.State, stranded: bool) {
    && IsUnrecorded(s0, s) && s0.disk <= s.disk
    && if stranded then s.disk != s0.disk && s.healthy == s0.healthy
       else (s.healthy ==> s0.healthy) && (s.disk == s0.disk || !s.healthy)
  }

  predicate HasCommitted(r: A.Requests, s0: A.State, s: A.State, c: A.Caller, stranded: bool)
    requires c in r
  {
    && s.disk == s0.disk + Content(r[c].source) && s.size == |s.disk| && s.healthy == s0.healthy
    && s.log == s0.log + [c] && !stranded
  }

  /** Where caller c, the only one to move since s0, stands. */
  ghost predicate Alone(r: A.Requests, s0: A.State, s: A.State, c: A.Caller, stranded: bool) {
    && A.IsKnown(r, s, c)
    && match s.phases[c]
       case Waiting => IsUnrecorded(s0, s) && s.disk == s0.disk && s.healthy == s0.healthy && !stranded
       case RollingBack => HasGivenUp(s0, s, stranded)
       case Committed => HasCommitted(r, s0, s, c, stranded)
       case Returned(ok) => HasCommitted(r, s0, s, c, stranded) || (!ok && HasGivenUp(s0, s, stranded))
       case _ => IsUnrecorded(s0, s) && A.Progress(r, s, s0.disk, c) && s.healthy == s0.healthy && !stranded
  }

  lemma WriteAlone(r: A.Requests, s0: A.State, s: A.State, c: A.Caller, a: A.Action, s': A.State)
    requires Alone(r, s0, s, c, false) && A.Next(r, s, c, a, s') && A.IsWrite(a)
    ensures Alone(r, s0, s', c, false)
  {
    match a
    case OpenFile => assert s.disk + Flatten(r[c].source.chunks) == s0.disk + Content(r[c].source);
    case WriteChunk => A.WriteKeepsProgress(s.disk, s.phases[c].rest, s0.disk, Content(r[c].source));
    case FinishAppend => assert s.disk + [] == s.disk;
    case _ =>
  }

  lemma StepAlone(r: A.Requests, s0: A.State, s: A.State, c: A.Caller, a: A.Action, s': A.State, stranded: bool)
    requires Alone(r, s0, s, c, stranded) && A.Next(r, s, c, a, s')
    ensures Alone(r, s0, s', c, stranded || A.Strands(s, c, a))
  {
    if A.IsWrite(a) {
      WriteAlone(r, s0, s, c, a, s');
    }
  }

  lemma {:induction false} RunAlone(r: A.Requests, states: seq<A.State>, steps: seq<(A.Caller, A.Action)>, c: A.Caller, n: nat)
    requires A.IsRun(r, states, steps) && n <= |steps| && forall i | 0 <= i < |steps| :: steps[i].0 == c
    requires A.IsKnown(r, states[0], c) && states[0].phases[c].Waiting?
    ensures Alone(r, states[0], states[n], c, A.HasStranded(states, steps, n))
  {
    if n > 0 {
      RunAlone(r, states, steps, c, n - 1);
      assert A.StepAt(r, states, steps, n - 1);
      StepAlone(r, states[0], states[n - 1], c, steps[n - 1].1, states[n], A.HasStranded(states, steps, n - 1));
      A.StrandsMore(states, steps, n - 1);
    }
  }

  /** The outcome that file, row and flag tell of. */
  ghost function OutcomeOf(k: Key, s0: A.State, s: A.State): Outcome
    requires s0.disk <= s.disk
  {
    var more := s.disk[|s0.disk|..];
    if s.log != s0.log then Appended(k, more)
    else if more != [] then Stranded(k, more, !s.healthy)
    else if s.healthy == s0.healthy then Nothing else Latched
  }

  /** From any state in which the caller is still to begin, its steps up to its return, with nobody else's in
      between, are one call: it ends in an outcome of the protocol, appending exactly its whole body or
      nothing that is committed, and silently exactly when a step stranded bytes. */
  lemma UninterruptedIsACall(r: A.Requests, states: seq<A.State>, steps: seq<(A.Caller, A.Action)>, c: A.Caller,
                             w: World, k: Key)
    returns (o: Outcome)
    requires A.IsRun(r, states, steps) && forall i | 0 <= i < |steps| :: steps[i].0 == c
    requires A.IsKnown(r, states[0], c) && states[0].phases[c].Waiting? && Depicts(w, k, states[0])
    requires var s := states[|steps|]; c in s.phases && s.phases[c].Returned?
    ensures var s0, s := states[0], states[|steps|];
            && Moves(o, w, WorldAfter(w, k, s, s.log != s0.log))
            && (o.Nothing? || o.Latched? || o.Stranded? || o == Appended(k, Content(r[c].source)))
            && (s.phases[c].ok ==> o.Appended?)
            && (w.healthy ==> (IsSilent(o) <==> A.HasStranded(states, steps, |steps|)))
  {
    var s0, s := states[0], states[|steps|];
    RunAlone(r, states, steps, c, |steps|);
    o := OutcomeOf(k, s0, s);
    assert s.disk == s0.disk + s.disk[|s0.disk|..];
    var disk := w.disk[w.db.files[k].path := s.disk];
    assert s.log == s0.log ==> WorldAfter(w, k, s, false) == w.(disk := disk, healthy := s.healthy);
    assert s.disk == s0.disk ==> disk == w.disk;
  }
}
