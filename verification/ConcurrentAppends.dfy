/** Concurrent appends to one file, interleaved step by step. The row lock taken by the SELECT ...
    FOR UPDATE is held until the transaction commits or rolls back; the roll-back runs after the
    method's own compensation. */
module ConcurrentAppends {
  import opened Json
  import opened ObjectFiles

  type Caller = nat

  /** Where one AppendObjectFile call stands. `pre` is the size found after opening the file, `written`
      the count the copy reports. `Committed` is after the commit, before the row is read again. */
  datatype Phase =
    | Waiting
    | HoldsRow
    | Copying(pre: nat, written: nat, rest: seq<Bytes>)
    | MustUndo(pre: nat)
    | Appended(pre: nat, written: nat)
    | Updated(pre: nat, written: nat)
    | MustTruncate(pre: nat, committing: bool)
    | RollingBack
    | Committed
    | Returned(ok: bool)

  /** `log` lists the committed calls in commit order. */
  datatype State = State(disk: Bytes, size: nat, lock: Option<Caller>, healthy: bool,
                         phases: map<Caller, Phase>, log: seq<Caller>)

  /** What a caller sends, and the limit on it. */
  datatype Request = Request(source: Source, limit: nat)

  type Requests = map<Caller, Request>

  datatype Action =
    | FailBeforeLock
    | LockRow
    | FailToOpen
    | OpenFile
    | WriteChunk
    | WritePastLimit
    | WriteFails(landed: nat)
    | ReadFails
    | EmptyBody
    | SyncFails
    | FinishAppend
    | Undo
    | UndoFails
    | CloseFails
    | UpdateRows
    | UpdateFails
    | Commit
    | CommitFails
    | TruncateBack
    | TruncateFails
    | RollBack
    | Reread
    | RereadFails

  predicate IsKnown(r: Requests, s: State, c: Caller) {
    c in s.phases && c in r
  }

  function Goes(s: State, c: Caller, p: Phase): State {
    s.(phases := s.phases[c := p])
  }

  /** os.Truncate, which also pads a shorter file. */
  function Truncated(disk: Bytes, size: nat): Bytes {
    if size <= |disk| then disk[..size] else disk + seq(size - |disk|, _ => 0 as Byte)
  }

  /** One step of caller c. */
  predicate Next(r: Requests, s: State, c: Caller, a: Action, s': State) {
    && IsKnown(r, s, c)
    && var phase := s.phases[c]; var limit := r[c].limit;
    match a
    case FailBeforeLock => phase.Waiting? && s' == Goes(s, c, Returned(false))
    case LockRow => phase.Waiting? && s.lock.None? && s' == Goes(s, c, HoldsRow).(lock := Some(c))
    case FailToOpen => phase.HoldsRow? && s' == Goes(s, c, RollingBack)
    case OpenFile => phase.HoldsRow? && s' == Goes(s, c, Copying(|s.disk|, 0, r[c].source.chunks))
    case WriteChunk =>
      && phase.Copying? && phase.rest != [] && phase.written + |phase.rest[0]| <= limit
      && s' == Goes(s, c, Copying(phase.pre, phase.written + |phase.rest[0]|, phase.rest[1..]))
               .(disk := s.disk + phase.rest[0])
    case WritePastLimit =>
      && phase.Copying? && phase.rest != [] && phase.written <= limit < phase.written + |phase.rest[0]|
      && s' == Goes(s, c, MustUndo(phase.pre)).(disk := s.disk + phase.rest[0][..limit + 1 - phase.written])
    case WriteFails(landed) =>
      && phase.Copying? && phase.rest != [] && landed <= |phase.rest[0]| && phase.written + landed <= limit + 1
      && s' == Goes(s, c, MustUndo(phase.pre)).(disk := s.disk + phase.rest[0][..landed])
    case ReadFails => phase.Copying? && r[c].source.fails && s' == Goes(s, c, MustUndo(phase.pre))
    case EmptyBody =>
      phase.Copying? && phase.rest == [] && phase.written == 0 && !r[c].source.fails && s' == Goes(s, c, RollingBack)
    case SyncFails =>
      && phase.Copying? && phase.rest == [] && phase.written > 0 && !r[c].source.fails
      && s' == Goes(s, c, MustUndo(phase.pre))
    case FinishAppend =>
      && phase.Copying? && phase.rest == [] && phase.written > 0 && !r[c].source.fails
      && s' == Goes(s, c, Appended(phase.pre, phase.written))
    case Undo => phase.MustUndo? && s' == Goes(s, c, RollingBack).(disk := Truncated(s.disk, phase.pre))
    case UndoFails => phase.MustUndo? && s' == Goes(s, c, RollingBack)
    case CloseFails => phase.Appended? && s' == Goes(s, c, RollingBack)
    case UpdateRows => phase.Appended? && s' == Goes(s, c, Updated(phase.pre, phase.written))
    case UpdateFails => phase.Appended? && s' == Goes(s, c, MustTruncate(phase.pre, false))
    case Commit =>
      && phase.Updated?
      && s' == Goes(s, c, Committed).(size := phase.pre + phase.written, lock := None, log := s.log + [c])
    case CommitFails => phase.Updated? && s' == Goes(s, c, MustTruncate(phase.pre, true))
    case TruncateBack =>
      && phase.MustTruncate?
      && s' == Goes(s, c, RollingBack).(disk := Truncated(s.disk, phase.pre), healthy := s.healthy && !phase.committing)
    case TruncateFails => phase.MustTruncate? && s' == Goes(s, c, RollingBack).(healthy := false)
    case RollBack => phase.RollingBack? && s' == Goes(s, c, Returned(false)).(lock := None)
    case Reread => phase.Committed? && s' == Goes(s, c, Returned(true))
    case RereadFails => phase.Committed? && s' == Goes(s, c, Returned(false))
  }

  /** The steps that leave bytes behind without dropping the flag: the undoing truncate fails and there is
      something to cut, or the file fails to close after a whole append. */
  predicate Strands(s: State, c: Caller, a: Action) {
    && c in s.phases
    && ((a.UndoFails? && s.phases[c].MustUndo? && |s.disk| > s.phases[c].pre) || (a.CloseFails? && s.phases[c].Appended?))
  }

  /** The content sequential appends would leave, one whole body after the other. */
  function AppendedInOrder(r: Requests, start: Bytes, log: seq<Caller>): Bytes {
    if log == [] then start
    else
      var last := log[|log| - 1];
      AppendedInOrder(r, start, log[..|log| - 1]) + (if last in r then Content(r[last].source) else [])
  }

  predicate IsOutside(p: Phase) {
    p.Waiting? || p.Committed? || p.Returned?
  }

  /** Only the lock's holder is past the row lock and not yet through its transaction. */
  ghost predicate Exclusive(s: State) {
    && (forall c | c in s.phases :: IsOutside(s.phases[c]) <==> s.lock != Some(c))
    && (s.lock.Some? ==> s.lock.value in s.phases)
  }

  /** A call that is committed or successful is in the log, one still under way is not, and none twice. */
  ghost predicate Logged(s: State) {
    && (forall c | c in s.phases :: s.phases[c].Committed? || s.phases[c] == Returned(true) ==> c in s.log)
    && (forall c | c in s.log :: c in s.phases && (s.phases[c].Committed? || s.phases[c].Returned?))
    && (forall i, j | 0 <= i < j < |s.log| :: s.log[i] != s.log[j])
  }

  /** `base` is what the file held when the row was last free, `lost` how many of its bytes no caller was
      told are there, `adopted` how many of those the row counts. */
  datatype Account = Account(base: Bytes, lost: int, adopted: int)

  /** The next account: a commit makes the row count all that is there. */
  function Booked(acc: Account, s: State, c: Caller, a: Action): Account {
    if Strands(s, c, a) then Account(s.disk, acc.lost + |s.disk| - |acc.base|, acc.adopted)
    else if a.Commit? then Account(s.disk, acc.lost, acc.lost)
    else acc
  }

  /** What the bytes beyond the base are, at each stage of the holder's call. */
  ghost predicate Progress(r: Requests, s: State, base: Bytes, c: Caller)
    requires IsKnown(r, s, c)
  {
    var src := r[c].source;
    match s.phases[c]
    case HoldsRow => s.disk == base
    case RollingBack => s.disk == base
    case Copying(pre, written, rest) =>
      && pre == |base| && base <= s.disk && |s.disk| == pre + written && written <= r[c].limit
      && s.disk + Flatten(rest) == base + Content(src)
    case MustUndo(pre) => pre == |base| && base <= s.disk
    case MustTruncate(pre, _) => pre == |base| && base <= s.disk
    case Appended(pre, written) => IsWhole(s, base, r[c], pre, written)
    case Updated(pre, written) => IsWhole(s, base, r[c], pre, written)
    case _ => true
  }

  ghost predicate IsWhole(s: State, base: Bytes, q: Request, pre: nat, written: nat) {
    && pre == |base| && s.disk == base + Content(q.source)
    && 0 < written == |Content(q.source)| <= q.limit && !q.source.fails
  }

  /** The base is the committed bodies in order and the lost bytes among them; the row counts the committed
      bodies and what it has adopted. */
  ghost predicate Balances(r: Requests, start: State, s: State, acc: Account) {
    var bodies := AppendedInOrder(r, start.disk, s.log);
    && 0 <= acc.adopted <= acc.lost && |acc.base| == |bodies| + acc.lost
    && (acc.lost == 0 ==> acc.base == bodies)
    && (start.size == |start.disk| || s.log != [] ==> s.size == |bodies| + acc.adopted)
    && forall c | c in s.log :: c in r && 0 < |Content(r[c].source)| <= r[c].limit
  }

  ghost predicate BytesOk(r: Requests, start: State, s: State, acc: Account) {
    && Balances(r, start, s, acc)
    && (s.lock.None? ==> s.disk == acc.base)
    && (s.lock.Some? ==> IsKnown(r, s, s.lock.value) && Progress(r, s, acc.base, s.lock.value))
  }

  ghost predicate Initial(r: Requests, s: State) {
    && s.lock.None? && s.log == [] && s.phases.Keys == r.Keys
    && forall c | c in s.phases :: s.phases[c] == Waiting
  }

  lemma StepKeepsExclusive(r: Requests, s: State, c: Caller, a: Action, s': State)
    requires Exclusive(s) && Next(r, s, c, a, s')
    ensures Exclusive(s')
  {
  }

  /** Moving one call on keeps the log truthful if it does not commit or undo a commit. */
  lemma MoveKeepsLogged(s: State, c: Caller, p: Phase, s': State)
    requires Logged(s) && c in s.phases && s'.log == s.log && s'.phases == s.phases[c := p]
    requires p.Committed? || p == Returned(true) ==> s.phases[c].Committed?
    requires s.phases[c].Committed? || s.phases[c].Returned? ==> p.Returned?
    ensures Logged(s')
  {
  }

  lemma StepKeepsLogged(r: Requests, s: State, c: Caller, a: Action, s': State)
    requires Logged(s) && Next(r, s, c, a, s')
    ensures Logged(s')
  {
    if a.Commit? {
      assert s'.log == s.log + [c] && c !in s.log;
    } else {
      MoveKeepsLogged(s, c, s'.phases[c], s');
    }
  }

  lemma CommitExtendsLog(r: Requests, start: Bytes, log: seq<Caller>, c: Caller)
    requires c in r
    ensures AppendedInOrder(r, start, log + [c]) == AppendedInOrder(r, start, log) + Content(r[c].source)
  {
    assert (log + [c])[..|log|] == log;
  }

  lemma WriteKeepsProgress(disk: Bytes, rest: seq<Bytes>, base: Bytes, content: Bytes)
    requires rest != [] && base <= disk && disk + Flatten(rest) == base + content
    ensures base <= disk + rest[0] && (disk + rest[0]) + Flatten(rest[1..]) == base + content
  {
    assert disk + (rest[0] + Flatten(rest[1..])) == (disk + rest[0]) + Flatten(rest[1..]);
  }

  predicate IsWrite(a: Action) {
    a.WriteChunk? || a.WritePastLimit? || a.WriteFails? || a.FinishAppend? || a.OpenFile?
  }

  /** Steps of the holder that put bytes down. */
  lemma WriteKeepsBytes(r: Requests, start: State, s: State, c: Caller, a: Action, s': State, acc: Account)
    requires Exclusive(s) && BytesOk(r, start, s, acc) && Next(r, s, c, a, s') && IsWrite(a)
    ensures BytesOk(r, start, s', acc)
  {
    match a
    case WriteChunk => WriteKeepsProgress(s.disk, s.phases[c].rest, acc.base, Content(r[c].source));
    case FinishAppend => assert s.disk + [] == s.disk;
    case OpenFile => assert s.disk + Flatten(r[c].source.chunks) == acc.base + Content(r[c].source);
    case _ =>
  }

  lemma CommitKeepsBytes(r: Requests, start: State, s: State, c: Caller, s': State, acc: Account)
    requires Exclusive(s) && BytesOk(r, start, s, acc) && Next(r, s, c, Commit, s')
    ensures BytesOk(r, start, s', Booked(acc, s, c, Commit))
  {
    CommitExtendsLog(r, start.disk, s.log, c);
  }

  lemma StrandingKeepsBytes(r: Requests, start: State, s: State, c: Caller, a: Action, s': State, acc: Account)
    requires Exclusive(s) && BytesOk(r, start, s, acc) && Next(r, s, c, a, s') && Strands(s, c, a)
    ensures BytesOk(r, start, s', Booked(acc, s, c, a)) && Booked(acc, s, c, a).lost > acc.lost
  {
  }

  predicate IsRollBack(a: Action) {
    a.Undo? || a.UndoFails? || a.CloseFails? || a.TruncateBack? || a.TruncateFails? || a.RollBack?
  }

  /** A truncate that fails with nothing to cut leaves the base. */
  lemma RollBackKeepsBytes(r: Requests, start: State, s: State, c: Caller, a: Action, s': State, acc: Account)
    requires Exclusive(s) && BytesOk(r, start, s, acc) && Next(r, s, c, a, s') && s'.healthy
    requires IsRollBack(a) && !Strands(s, c, a)
    ensures BytesOk(r, start, s', acc)
  {
  }

  /** Steps of a caller that does not hold the row. */
  predicate IsOutsiders(a: Action) {
    a.FailBeforeLock? || a.LockRow? || a.Reread? || a.RereadFails?
  }

  lemma OutsiderKeepsBytes(r: Requests, start: State, s: State, c: Caller, a: Action, s': State, acc: Account)
    requires Exclusive(s) && BytesOk(r, start, s, acc) && Next(r, s, c, a, s') && IsOutsiders(a)
    ensures BytesOk(r, start, s', acc)
  {
    assert s.lock != Some(c);
  }

  lemma QuietStepKeepsBytes(r: Requests, start: State, s: State, c: Caller, a: Action, s': State, acc: Account)
    requires Exclusive(s) && BytesOk(r, start, s, acc) && Next(r, s, c, a, s')
    requires !IsWrite(a) && !a.Commit? && !IsRollBack(a) && !IsOutsiders(a)
    ensures BytesOk(r, start, s', acc)
  {
    assert s.lock == Some(c) == s'.lock;
  }

  /** Unless it drops the flag, a step keeps the bytes accounted for. */
  lemma StepKeepsBytes(r: Requests, start: State, s: State, c: Caller, a: Action, s': State, acc: Account)
    requires Exclusive(s) && BytesOk(r, start, s, acc) && Next(r, s, c, a, s') && s'.healthy
    ensures BytesOk(r, start, s', Booked(acc, s, c, a))
    ensures Strands(s, c, a) ==> Booked(acc, s, c, a).lost > acc.lost
  {
    if IsWrite(a) {
      WriteKeepsBytes(r, start, s, c, a, s', acc);
    } else if a.Commit? {
      CommitKeepsBytes(r, start, s, c, s', acc);
    } else if Strands(s, c, a) {
      StrandingKeepsBytes(r, start, s, c, a, s', acc);
    } else if IsRollBack(a) {
      RollBackKeepsBytes(r, start, s, c, a, s', acc);
    } else if IsOutsiders(a) {
      OutsiderKeepsBytes(r, start, s, c, a, s', acc);
    } else {
      QuietStepKeepsBytes(r, start, s, c, a, s', acc);
    }
  }

  /** A run: states, and who did what between them. */
  ghost predicate IsRun(r: Requests, states: seq<State>, steps: seq<(Caller, Action)>) {
    && |states| == |steps| + 1
    && forall i | 0 <= i < |steps| :: StepAt(r, states, steps, i)
  }

  ghost predicate StepAt(r: Requests, states: seq<State>, steps: seq<(Caller, Action)>, i: int)
    requires 0 <= i < |steps| < |states|
  {
    Next(r, states[i], steps[i].0, steps[i].1, states[i + 1])
  }

  function AccountAt(states: seq<State>, steps: seq<(Caller, Action)>, n: nat): Account
    requires n <= |steps| < |states|
  {
    if n == 0 then Account(states[0].disk, 0, 0)
    else Booked(AccountAt(states, steps, n - 1), states[n - 1], steps[n - 1].0, steps[n - 1].1)
  }

  predicate StrandsAt(states: seq<State>, steps: seq<(Caller, Action)>, i: int)
    requires 0 <= i < |steps| < |states|
  {
    Strands(states[i], steps[i].0, steps[i].1)
  }

  /** Some step among the first n left bytes behind. */
  ghost predicate HasStranded(states: seq<State>, steps: seq<(Caller, Action)>, n: int)
    requires n <= |steps| < |states|
  {
    exists i :: 0 <= i < n && StrandsAt(states, steps, i)
  }

  predicate CommitsBetween(steps: seq<(Caller, Action)>, i: int, n: int)
    requires 0 <= i < n <= |steps|
  {
    exists j | i < j < n :: steps[j].1.Commit?
  }

  /** Some step among the first n left bytes behind, and no commit has come since to count them. */
  ghost predicate HasUncounted(states: seq<State>, steps: seq<(Caller, Action)>, n: int)
    requires n <= |steps| < |states|
  {
    exists i :: 0 <= i < n && StrandsAt(states, steps, i) && !CommitsBetween(steps, i, n)
  }

  ghost predicate Inv(r: Requests, states: seq<State>, steps: seq<(Caller, Action)>, n: nat)
    requires n <= |steps| < |states|
  {
    var acc := AccountAt(states, steps, n);
    && Exclusive(states[n]) && BytesOk(r, states[0], states[n], acc)
    && (acc.lost > 0 <==> HasStranded(states, steps, n))
    && (acc.lost > acc.adopted <==> HasUncounted(states, steps, n))
  }

  lemma StrandsMore(states: seq<State>, steps: seq<(Caller, Action)>, n: nat)
    requires n < |steps| < |states|
    ensures HasStranded(states, steps, n + 1) <==> HasStranded(states, steps, n) || StrandsAt(states, steps, n)
    ensures HasUncounted(states, steps, n + 1) <==>
            StrandsAt(states, steps, n) || (HasUncounted(states, steps, n) && !steps[n].1.Commit?)
  {
    if HasUncounted(states, steps, n) && !steps[n].1.Commit? {
      var i :| 0 <= i < n && StrandsAt(states, steps, i) && !CommitsBetween(steps, i, n);
      assert !CommitsBetween(steps, i, n + 1);
    }
    if HasUncounted(states, steps, n + 1) && !StrandsAt(states, steps, n) {
      var i :| 0 <= i < n + 1 && StrandsAt(states, steps, i) && !CommitsBetween(steps, i, n + 1);
      assert i < n && !CommitsBetween(steps, i, n);
    }
  }

  lemma StepKeepsInv(r: Requests, states: seq<State>, steps: seq<(Caller, Action)>, n: nat)
    requires n < |steps| < |states| && Inv(r, states, steps, n) && states[n + 1].healthy
    requires StepAt(r, states, steps, n)
    ensures Inv(r, states, steps, n + 1)
  {
    var s, s', c, a := states[n], states[n + 1], steps[n].0, steps[n].1;
    StepKeepsExclusive(r, s, c, a, s');
    StepKeepsBytes(r, states[0], s, c, a, s', AccountAt(states, steps, n));
    StrandsMore(states, steps, n);
  }

  /** As long as the store reports ready, through any faults. */
  lemma {:induction false} InvHolds(r: Requests, states: seq<State>, steps: seq<(Caller, Action)>, n: nat)
    requires IsRun(r, states, steps) && Initial(r, states[0]) && n <= |steps| && states[n].healthy
    ensures Inv(r, states, steps, n)
  {
    if n > 0 {
      assert StepAt(r, states, steps, n - 1);
      InvHolds(r, states, steps, n - 1);
      StepKeepsInv(r, states, steps, n - 1);
    }
  }

  ghost predicate Took(steps: seq<(Caller, Action)>, n: int, c: Caller, a: Action)
    requires n <= |steps|
  {
    exists i :: 0 <= i < n && steps[i] == (c, a)
  }

  /** The log is who committed, and the committed calls that returned an error are those whose last read
      failed. */
  ghost predicate LogTells(steps: seq<(Caller, Action)>, n: int, s: State)
    requires n <= |steps|
  {
    && (forall c :: c in s.log <==> Took(steps, n, c, Commit))
    && (forall c :: FailedAfterCommit(s, c) <==> Took(steps, n, c, RereadFails))
  }

  /** The caller was told that its append failed, and it is committed. */
  predicate FailedAfterCommit(s: State, c: Caller) {
    c in s.log && c in s.phases && s.phases[c] == Returned(false)
  }

  lemma FailsAfterCommitByRereading(r: Requests, s: State, c: Caller, a: Action, s': State, x: Caller)
    requires Logged(s) && Next(r, s, c, a, s')
    ensures FailedAfterCommit(s', x) <==> FailedAfterCommit(s, x) || (x == c && a == RereadFails)
    ensures x in s'.log <==> x in s.log || (x == c && a == Commit)
  {
  }

  lemma TookMore(steps: seq<(Caller, Action)>, n: nat, c: Caller, a: Action)
    requires n < |steps|
    ensures Took(steps, n + 1, c, a) <==> Took(steps, n, c, a) || steps[n] == (c, a)
  {
  }

  lemma StepKeepsLogTelling(r: Requests, steps: seq<(Caller, Action)>, n: nat, s: State, s': State)
    requires n < |steps| && LogTells(steps, n, s) && Logged(s) && Next(r, s, steps[n].0, steps[n].1, s')
    ensures LogTells(steps, n + 1, s')
  {
    forall c: Caller
      ensures c in s'.log <==> Took(steps, n + 1, c, Commit)
      ensures FailedAfterCommit(s', c) <==> Took(steps, n + 1, c, RereadFails)
    {
      FailsAfterCommitByRereading(r, s, steps[n].0, steps[n].1, s', c);
      TookMore(steps, n, c, Commit);
      TookMore(steps, n, c, RereadFails);
    }
  }

  lemma {:induction false} LogIsCommits(r: Requests, states: seq<State>, steps: seq<(Caller, Action)>, n: nat)
    requires IsRun(r, states, steps) && Initial(r, states[0]) && n <= |steps|
    ensures LogTells(steps, n, states[n]) && Logged(states[n])
  {
    if n > 0 {
      LogIsCommits(r, states, steps, n - 1);
      assert StepAt(r, states, steps, n - 1);
      StepKeepsLogged(r, states[n - 1], steps[n - 1].0, steps[n - 1].1, states[n]);
      StepKeepsLogTelling(r, steps, n - 1, states[n - 1], states[n]);
    }
  }

  /** Every interleaving, whatever fails: once all calls have returned and the store is still ready, the file
      holds its starting content followed by the whole bodies of exactly the committed calls, in commit
      order, if and only if no step stranded bytes; and the row records the file's size if and only if each
      stranding was followed by a commit. Every successful call is committed; the others that are have
      failed exactly in reading the row back. */
  lemma ConcurrentAppendsAreSequential(r: Requests, states: seq<State>, steps: seq<(Caller, Action)>)
    requires IsRun(r, states, steps) && Initial(r, states[0])
    requires var s := states[|steps|]; s.healthy && forall c | c in s.phases :: s.phases[c].Returned?
    ensures var s0, s, n := states[0], states[|steps|], |steps|;
            && (s.disk == AppendedInOrder(r, s0.disk, s.log) <==> !HasStranded(states, steps, n))
            && (s0.size == |s0.disk| || s.log != [] ==> (s.size == |s.disk| <==> !HasUncounted(states, steps, n)))
            && (forall c :: c in s.log <==> Took(steps, n, c, Commit))
            && (forall c | c in s.phases && s.phases[c].ok :: c in s.log)
            && (forall c :: FailedAfterCommit(s, c) <==> Took(steps, n, c, RereadFails))
            && (forall c | c in s.log :: c in r && 0 < |Content(r[c].source)| <= r[c].limit)
            && (forall i, j | 0 <= i < j < |s.log| :: s.log[i] != s.log[j])
  {
    InvHolds(r, states, steps, |steps|);
    LogIsCommits(r, states, steps, |steps|);
    assert states[|steps|].lock.None?;
  }
}
