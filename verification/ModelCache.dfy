/** The cross-process protocol behind `fetchAndVerifyModel`: any number of calls, in any processes,
    race to populate one directory `finalDir` under a `mkdir` lock. Every file-system call of the
    source is one action; other processes may act, and any call may crash, between two actions.
    Removing a directory is not atomic: its leaves go one at a time, in any order. */
module ModelCache {
  import opened Basics
  import opened VerifyDir

  /** `heartbeat`: whether a holder keeps refreshing its lock (embedder-local) or not (reranker-local). */
  datatype Config = Config(pins: seq<Pin>, sha: Bytes -> string, lockStaleMs: int, heartbeat: bool)

  const LOCK_WAIT_DEADLINE_MULTIPLIER := 3

  datatype Outcome = Returned | Threw

  /** Where a call of `fetchAndVerifyModel` stands; `attempt` is the download attempt, 0 or 1. */
  datatype Pc =
    | Idle
    | FirstCheck
    | PollCheck
    | PollMkdir
    | PollOwner
    | PollAge
    | PollRemoveStale
    | PollDeadline
    | HeldCheck
    | HeldPlatform
    | Download(attempt: nat)
    | CheckTmp(attempt: nat)
    | Recheck(attempt: nat)
    | DropTmp(attempt: nat)
    | RemoveFinal(attempt: nat)
    | Publish(attempt: nat)
    | Catch(attempt: nat)
    | Release(outcome: Outcome)
    | Done(outcome: Outcome)
    | Crashed

  /** `tmp` is the call's private download directory, if it exists. */
  datatype Call = Call(pc: Pc, deadlineAt: int, tmp: Option<Tree>)

  /** `maker` is history: nothing in the protocol reads it. */
  datatype Lock = Lock(maker: nat, startedAt: Option<int>, mtime: int)

  datatype State = State(calls: seq<Call>, final: Option<Tree>, lock: Option<Lock>, now: int)

  datatype Action =
    | Begin(p: nat)
    | Check(p: nat)  // isVerified(finalDir), wherever the call evaluates it
    | CheckThrows(p: nat)
    | Mkdir(p: nat)
    | MkdirThrows(p: nat)
    | WriteOwner(p: nat)
    | WriteOwnerThrows(p: nat)
    | ReadAge(p: nat)
    | TakeOver(p: nat)
    | TakeOverFails(p: nat)
    | Wait(p: nat)
    | Platform(p: nat, supported: bool)
    | Fetch(p: nat, path: Path, bytes: Bytes)
    | FetchDone(p: nat)
    | FetchThrows(p: nat)
    | VerifyTmp(p: nat)
    | RemoveTmp(p: nat)
    | RemoveTmpThrows(p: nat)
    | RemoveLeaf(p: nat, path: Path)
    | RemoveDir(p: nat)
    | RemoveThrows(p: nat)
    | Rename(p: nat)
    | RenameThrows(p: nat)
    | Unlock(p: nat)
    | UnlockThrows(p: nat)
    | Crash(p: nat)
    | Heartbeat(p: nat)
    | Tick(now: int)
    | LockNoise(lock: Option<Lock>)  // an operator's `rm -rf`, a half-finished removal, a stray write

  // ---- the transition system ----

  ghost predicate FinalVerified(c: Config, f: Option<Tree>) {
    f.Some? && Verified(f.value, c.pins, c.sha)
  }

  /** `bad.length == 0` for the download directory; a missing one has no entries. */
  ghost predicate TmpClean(c: Config, tmp: Option<Tree>) {
    var t := if tmp.Some? then tmp.value else map[];
    PinsGood(t, c.pins, c.sha) && NothingExtra(t, c.pins)
  }

  /** Nothing, or a directory without entries: what `rename` may replace. */
  predicate Vacant(f: Option<Tree>) {
    f.None? || f.value == map[]
  }

  function Age(s: State, l: Lock): int {
    s.now - (if l.startedAt.Some? then l.startedAt.value else l.mtime)
  }

  ghost predicate Actor(a: Action) {
    !a.Tick? && !a.LockNoise?
  }

  ghost predicate Enabled(c: Config, s: State, a: Action) {
    match a
    case Tick(_) => true
    case LockNoise(_) => true
    case _ => a.p < |s.calls| && EnabledAt(c, s, a, s.calls[a.p].pc, s.calls[a.p].tmp)
  }

  ghost predicate EnabledAt(c: Config, s: State, a: Action, pc: Pc, tmp: Option<Tree>)
    requires Actor(a)
  {
    match a
    case Begin(_) => pc == Idle
    case Check(_) => pc.FirstCheck? || pc.PollCheck? || pc.HeldCheck? || pc.Recheck?
    case CheckThrows(_) => pc.FirstCheck? || pc.PollCheck? || pc.HeldCheck? || pc.CheckTmp? || pc.Recheck?
    case Mkdir(_) => pc.PollMkdir?
    case MkdirThrows(_) => pc.PollMkdir?
    case WriteOwner(_) => pc.PollOwner? && s.lock.Some?
    case WriteOwnerThrows(_) => pc.PollOwner?
    case ReadAge(_) => pc.PollAge?
    case TakeOver(_) => pc.PollRemoveStale?
    case TakeOverFails(_) => pc.PollRemoveStale?
    case Wait(_) => pc.PollDeadline?
    case Platform(_, _) => pc.HeldPlatform?
    case Fetch(_, path, _) => pc.Download? && path in PinnedPaths(c.pins)
    case FetchDone(_) =>
      pc.Download? && (tmp.None? ==> c.pins == []) && (tmp.Some? ==> PinnedPaths(c.pins) <= tmp.value.Keys)
    case FetchThrows(_) => pc.Download?
    case VerifyTmp(_) => pc.CheckTmp?
    case RemoveTmp(_) => pc.DropTmp? || pc.Catch?
    case RemoveTmpThrows(_) => pc.DropTmp? || pc.Catch?
    case RemoveLeaf(_, path) => pc.RemoveFinal? && s.final.Some? && path in s.final.value
    case RemoveDir(_) => pc.RemoveFinal? && Vacant(s.final)
    case RemoveThrows(_) => pc.RemoveFinal?
    case Rename(_) => pc.Publish? && tmp.Some? && Vacant(s.final)
    case RenameThrows(_) => pc.Publish?
    case Unlock(_) => pc.Release?
    case UnlockThrows(_) => pc.Release?
    case Crash(_) => Active(pc)
    case Heartbeat(_) => c.heartbeat && s.lock.Some?
  }

  /** The call is under way. */
  predicate Active(pc: Pc) {
    !pc.Idle? && !pc.Done? && !pc.Crashed?
  }

  function Goto(s: State, p: nat, pc: Pc): State
    requires p < |s.calls|
  {
    s.(calls := s.calls[p := s.calls[p].(pc := pc)])
  }

  function SetTmp(s: State, p: nat, tmp: Option<Tree>): State
    requires p < |s.calls|
  {
    s.(calls := s.calls[p := s.calls[p].(tmp := tmp)])
  }

  /** Where the answer `ok` of `isVerified(finalDir)` sends the call. */
  function AfterCheck(c: Config, s: State, p: nat, ok: bool): State
    requires p < |s.calls|
  {
    match s.calls[p].pc
    case FirstCheck =>
      if ok then Goto(s, p, Done(Returned))
      else
        var deadlineAt := s.now + c.lockStaleMs * LOCK_WAIT_DEADLINE_MULTIPLIER;
        s.(calls := s.calls[p := s.calls[p].(pc := PollCheck, deadlineAt := deadlineAt)])
    case PollCheck => Goto(s, p, if ok then Done(Returned) else PollMkdir)
    case HeldCheck => Goto(s, p, if ok then Release(Returned) else HeldPlatform)
    case Recheck(k) => Goto(s, p, if ok then DropTmp(k) else RemoveFinal(k))
    case _ => s
  }

  function AfterThrow(s: State, p: nat): State
    requires p < |s.calls|
  {
    match s.calls[p].pc
    case HeldCheck => Goto(s, p, Release(Threw))
    case CheckTmp(k) => Goto(s, p, Catch(k))
    case Recheck(k) => Goto(s, p, Catch(k))
    case Download(k) => Goto(s, p, Catch(k))
    case DropTmp(k) => Goto(s, p, Catch(k))
    case RemoveFinal(k) => Goto(s, p, Catch(k))
    case Publish(k) => Goto(s, p, Catch(k))
    case Catch(_) => Goto(s, p, Release(Threw))
    case _ => Goto(s, p, Done(Threw))
  }

  function AttemptOf(s: State, p: nat): nat
    requires p < |s.calls|
  {
    match s.calls[p].pc
    case Download(k) => k
    case CheckTmp(k) => k
    case DropTmp(k) => k
    case RemoveFinal(k) => k
    case Catch(k) => k
    case _ => 0
  }

  function OutcomeOf(s: State, p: nat): Outcome
    requires p < |s.calls|
  {
    match s.calls[p].pc
    case Release(outcome) => outcome
    case _ => Threw
  }

  /** The lock with its owner's time written anew. */
  function Stamped(s: State): Option<Lock> {
    if s.lock.Some? then Some(s.lock.value.(startedAt := Some(s.now))) else None
  }

  function Lacking(f: Option<Tree>, path: Path): Option<Tree> {
    if f.Some? then Some(f.value - {path}) else None
  }

  ghost function After(c: Config, s: State, a: Action): (s': State)
    requires Enabled(c, s, a)
    ensures |s'.calls| == |s.calls|
  {
    match a
    case Begin(p) => Goto(s, p, FirstCheck)
    case Check(p) => AfterCheck(c, s, p, FinalVerified(c, s.final))
    case CheckThrows(p) => AfterThrow(s, p)
    case Mkdir(p) =>
      if s.lock.Some? then Goto(s, p, PollAge)
      else Goto(s, p, PollOwner).(lock := Some(Lock(p, None, s.now)))
    case MkdirThrows(p) => AfterThrow(s, p)
    case WriteOwner(p) => Goto(s, p, HeldCheck).(lock := Stamped(s))
    case WriteOwnerThrows(p) => AfterThrow(s, p)
    case ReadAge(p) =>
      Goto(s, p, if s.lock.Some? && Age(s, s.lock.value) > c.lockStaleMs then PollRemoveStale else PollDeadline)
    case TakeOver(p) => Goto(s, p, PollCheck).(lock := None)
    case TakeOverFails(p) => Goto(s, p, PollCheck)
    case Wait(p) => Goto(s, p, if s.now >= s.calls[p].deadlineAt then Done(Threw) else PollCheck)
    case Platform(p, supported) => Goto(s, p, if supported then Download(0) else Release(Threw))
    case Fetch(p, path, bytes) =>
      var t := if s.calls[p].tmp.Some? then s.calls[p].tmp.value else map[];
      SetTmp(s, p, Some(t[path := FileLeaf(bytes)]))
    case FetchDone(p) => Goto(s, p, CheckTmp(AttemptOf(s, p)))
    case FetchThrows(p) => AfterThrow(s, p)
    case VerifyTmp(p) =>
      var k := AttemptOf(s, p);
      Goto(s, p, if TmpClean(c, s.calls[p].tmp) then Recheck(k) else Catch(k))
    case RemoveTmp(p) =>
      var k := AttemptOf(s, p);
      var next := if s.calls[p].pc.DropTmp? then Release(Returned) else if k == 0 then Download(1) else Release(Threw);
      Goto(SetTmp(s, p, None), p, next)
    case RemoveTmpThrows(p) => AfterThrow(s, p)
    case RemoveLeaf(p, path) => s.(final := Lacking(s.final, path))
    case RemoveDir(p) => Goto(s, p, Publish(AttemptOf(s, p))).(final := None)
    case RemoveThrows(p) => AfterThrow(s, p)
    case Rename(p) => Goto(SetTmp(s, p, None), p, Release(Returned)).(final := s.calls[p].tmp)
    case RenameThrows(p) => AfterThrow(s, p)
    case Unlock(p) => Goto(s, p, Done(OutcomeOf(s, p))).(lock := None)
    case UnlockThrows(p) => Goto(s, p, Done(Threw))
    case Crash(p) => Goto(s, p, Crashed)
    case Heartbeat(p) => s.(lock := Stamped(s))
    case Tick(now) => s.(now := now)
    case LockNoise(lock) => s.(lock := lock)
  }

  // ---- runs ----

  ghost predicate Init(s: State) {
    && (forall p :: 0 <= p < |s.calls| ==> s.calls[p].pc == Idle && s.calls[p].tmp.None?)
    && (s.lock.Some? ==> s.lock.value.maker >= |s.calls|)  // left by a call outside this run, if any
  }

  ghost predicate CanRun(c: Config, s: State, acts: seq<Action>)
    decreases |acts|
  {
    acts == [] || (Enabled(c, s, acts[0]) && CanRun(c, After(c, s, acts[0]), acts[1..]))
  }

  ghost function Exec(c: Config, s: State, acts: seq<Action>): (s': State)
    requires CanRun(c, s, acts)
    ensures |s'.calls| == |s.calls|
    decreases |acts|
  {
    if acts == [] then s else Exec(c, After(c, s, acts[0]), acts[1..])
  }

  lemma {:induction false} RunConcat(c: Config, s: State, a: seq<Action>, b: seq<Action>)
    requires CanRun(c, s, a)
    ensures CanRun(c, s, a + b) <==> CanRun(c, Exec(c, s, a), b)
    ensures CanRun(c, s, a + b) ==> Exec(c, s, a + b) == Exec(c, Exec(c, s, a), b)
    decreases |a|
  {
    if a == [] {
      assert a + b == b;
    } else {
      assert (a + b)[1..] == a[1..] + b;
      RunConcat(c, After(c, s, a[0]), a[1..], b);
    }
  }

  // ---- publish safety: all runs, with crashes, takeovers and any lock behaviour ----

  /** `t` is what is left of `whole` after removals. */
  ghost predicate Remnant(t: Tree, whole: Tree) {
    t.Keys <= whole.Keys && forall p :: p in t ==> t[p] == whole[p]
  }

  /** Nothing, a remnant of the original directory, or a remnant of a directory that verified. */
  ghost predicate Explained(c: Config, original: Option<Tree>, f: Option<Tree>) {
    || f.None?
    || (original.Some? && Remnant(f.value, original.value))
    || exists whole :: Verified(whole, c.pins, c.sha) && Remnant(f.value, whole)
  }

  predicate PastBatchCheck(pc: Pc) {
    pc.Recheck? || pc.DropTmp? || pc.RemoveFinal? || pc.Publish?
  }

  ghost predicate Safe(c: Config, original: Option<Tree>, s: State) {
    && Explained(c, original, s.final)
    && (forall p :: 0 <= p < |s.calls| ==> CallSafe(c, s.calls[p]))
  }

  ghost predicate CallSafe(c: Config, k: Call) {
    && (k.tmp.Some? ==> c.pins != [])
    && (PastBatchCheck(k.pc) ==> TmpClean(c, k.tmp))
  }

  lemma TmpStep(c: Config, s: State, a: Action, p: nat)
    requires Enabled(c, s, a) && p < |s.calls| && (s.calls[p].tmp.Some? ==> c.pins != [])
    ensures After(c, s, a).calls[p].tmp.Some? ==> c.pins != []
  {
  }

  /** A call past its batch check keeps the directory it made it for. */
  lemma TmpKept(c: Config, s: State, a: Action, p: nat)
    requires Enabled(c, s, a) && p < |s.calls| && PastBatchCheck(After(c, s, a).calls[p].pc)
    ensures After(c, s, a).calls[p].tmp == s.calls[p].tmp
  {
  }

  /** Only a batch check that passes gets a call past it. */
  lemma BatchPassed(c: Config, s: State, a: Action, p: nat)
    requires Enabled(c, s, a) && p < |s.calls|
    requires PastBatchCheck(After(c, s, a).calls[p].pc) && !PastBatchCheck(s.calls[p].pc)
    ensures TmpClean(c, s.calls[p].tmp)
  {
  }

  lemma BatchStep(c: Config, s: State, a: Action, p: nat)
    requires Enabled(c, s, a) && p < |s.calls| && (PastBatchCheck(s.calls[p].pc) ==> TmpClean(c, s.calls[p].tmp))
    ensures PastBatchCheck(After(c, s, a).calls[p].pc) ==> TmpClean(c, After(c, s, a).calls[p].tmp)
  {
    if PastBatchCheck(After(c, s, a).calls[p].pc) {
      TmpKept(c, s, a, p);
      if !PastBatchCheck(s.calls[p].pc) {
        BatchPassed(c, s, a, p);
      }
    }
  }

  lemma ExplainedStep(c: Config, original: Option<Tree>, s: State, a: Action)
    requires Safe(c, original, s) && Enabled(c, s, a)
    ensures Explained(c, original, After(c, s, a).final)
  {
    var s' := After(c, s, a);
    match a
    case RemoveLeaf(p, path) =>
      if original.Some? && Remnant(s.final.value, original.value) {
        assert Remnant(s'.final.value, original.value);
      } else {
        var whole :| Verified(whole, c.pins, c.sha) && Remnant(s.final.value, whole);
        assert Remnant(s'.final.value, whole);
      }
    case Rename(p) =>
      assert CallSafe(c, s.calls[p]);
      assert Remnant(s'.final.value, s'.final.value);
    case _ =>
  }

  lemma SafeStep(c: Config, original: Option<Tree>, s: State, a: Action)
    requires Safe(c, original, s) && Enabled(c, s, a)
    ensures Safe(c, original, After(c, s, a))
  {
    ExplainedStep(c, original, s, a);
    var s' := After(c, s, a);
    forall p | 0 <= p < |s'.calls| ensures CallSafe(c, s'.calls[p]) {
      assert CallSafe(c, s.calls[p]);
      TmpStep(c, s, a, p);
      BatchStep(c, s, a, p);
    }
  }

  lemma {:induction false} SafeRun(c: Config, original: Option<Tree>, s: State, acts: seq<Action>)
    requires Safe(c, original, s) && CanRun(c, s, acts)
    ensures Safe(c, original, Exec(c, s, acts))
    decreases |acts|
  {
    if acts != [] {
      SafeStep(c, original, s, acts[0]);
      SafeRun(c, original, After(c, s, acts[0]), acts[1..]);
    }
  }

  /** Readers never see unverified download bytes, in any run. */
  lemma ReaderSeesOnlyOriginalOrVerified(c: Config, s0: State, acts: seq<Action>)
    requires Init(s0) && CanRun(c, s0, acts)
    ensures Explained(c, s0.final, Exec(c, s0, acts).final)
  {
    assert s0.final.Some? ==> Remnant(s0.final.value, s0.final.value);
    SafeRun(c, s0.final, s0, acts);
  }

  /** In any run, whatever a rename puts at `finalDir` is a verified directory. */
  lemma OnlyVerifiedTreesArePublished(c: Config, s0: State, acts: seq<Action>, p: nat)
    requires Init(s0) && CanRun(c, s0, acts + [Rename(p)])
    ensures FinalVerified(c, Exec(c, s0, acts + [Rename(p)]).final)
  {
    PrefixRuns(c, s0, acts, [Rename(p)]);
    assert s0.final.Some? ==> Remnant(s0.final.value, s0.final.value);
    SafeRun(c, s0.final, s0, acts);
    RunConcat(c, s0, acts, [Rename(p)]);
    var s := Exec(c, s0, acts);
    assert CallSafe(c, s.calls[p]);
    assert Exec(c, s, [Rename(p)]) == Exec(c, After(c, s, Rename(p)), []);
  }

  lemma {:induction false} PrefixRuns(c: Config, s: State, a: seq<Action>, b: seq<Action>)
    requires CanRun(c, s, a + b)
    ensures CanRun(c, s, a)
    decreases |a|
  {
    if a != [] {
      assert (a + b)[1..] == a[1..] + b;
      PrefixRuns(c, After(c, s, a[0]), a[1..], b);
    }
  }

  /** The call has seen `finalDir` verified and not gone back to downloading. */
  predicate Returning(pc: Pc) {
    pc.DropTmp? || pc == Release(Returned) || pc == Done(Returned)
  }

  /** The step by which a call comes to return normally sees the directory verified, before it or after. */
  lemma TurnsToReturn(c: Config, s: State, a: Action, p: nat)
    requires Enabled(c, s, a) && p < |s.calls| && CallSafe(c, s.calls[p])
    requires !Returning(s.calls[p].pc) && Returning(After(c, s, a).calls[p].pc)
    ensures Active(s.calls[p].pc) && (FinalVerified(c, s.final) || FinalVerified(c, After(c, s, a).final))
    ensures !FinalVerified(c, s.final) ==> Active(After(c, s, a).calls[p].pc)
  {
  }

  lemma {:induction false} VerifiedMoment(c: Config, original: Option<Tree>, s: State, acts: seq<Action>, p: nat)
    returns (j: nat)
    requires Safe(c, original, s) && CanRun(c, s, acts) && p < |s.calls|
    requires !Returning(s.calls[p].pc) && Exec(c, s, acts).calls[p].pc == Done(Returned)
    ensures j <= |acts| && CanRun(c, s, acts[..j])
    ensures var m := Exec(c, s, acts[..j]); Active(m.calls[p].pc) && FinalVerified(c, m.final)
    decreases |acts|
  {
    var s' := After(c, s, acts[0]);
    SafeStep(c, original, s, acts[0]);
    if !Returning(s'.calls[p].pc) {
      j := VerifiedMoment(c, original, s', acts[1..], p);
      j := j + 1;
      assert acts[..j][1..] == acts[1..][..j - 1];
    } else {
      TurnsToReturn(c, s, acts[0], p);
      assert acts[..1][1..] == [];
      j := if FinalVerified(c, s.final) then 0 else 1;
    }
  }

  /** In any run, a call that returned normally had `finalDir` fully verified at some moment of that
      very call: after `j` actions the call was under way and the directory verified. */
  lemma NormalReturnWasVerified(c: Config, s0: State, acts: seq<Action>, p: nat) returns (j: nat)
    requires Init(s0) && CanRun(c, s0, acts) && p < |s0.calls|
    requires Exec(c, s0, acts).calls[p].pc == Done(Returned)
    ensures j <= |acts| && CanRun(c, s0, acts[..j])
    ensures var m := Exec(c, s0, acts[..j]); Active(m.calls[p].pc) && FinalVerified(c, m.final)
  {
    assert s0.final.Some? ==> Remnant(s0.final.value, s0.final.value);
    j := VerifiedMoment(c, s0.final, s0, acts, p);
  }

  // ---- exclusion and stability: runs in which nobody is robbed of a lock ----

  /** Between acquiring and releasing the lock. */
  predicate Critical(pc: Pc) {
    || pc.PollOwner? || pc.HeldCheck? || pc.HeldPlatform? || pc.Download? || pc.CheckTmp?
    || pc.Recheck? || pc.DropTmp? || pc.RemoveFinal? || pc.Publish? || pc.Catch? || pc.Release?
  }

  /** The lock is in use: its removal would rob somebody. */
  ghost predicate InUse(s: State) {
    exists q :: 0 <= q < |s.calls| && Critical(s.calls[q].pc)
  }

  /** A takeover, or an outside interference with the lock, while somebody uses it. */
  ghost predicate Robs(s: State, a: Action) {
    (a.TakeOver? || a.LockNoise?) && InUse(s)
  }

  /** No action of the run robs anybody. Crashes, failures and the takeover of a crashed holder's lock are
      allowed. */
  ghost predicate RobsNobody(c: Config, s: State, acts: seq<Action>)
    requires CanRun(c, s, acts)
    decreases |acts|
  {
    acts == [] || (!Robs(s, acts[0]) && RobsNobody(c, After(c, s, acts[0]), acts[1..]))
  }

  /** No takeover and no outside interference with the lock at all. */
  predicate Quiet(acts: seq<Action>) {
    forall a :: a in acts ==> !a.TakeOver? && !a.LockNoise?
  }

  lemma {:induction false} QuietRobsNobody(c: Config, s: State, acts: seq<Action>)
    requires CanRun(c, s, acts) && Quiet(acts)
    ensures RobsNobody(c, s, acts)
    decreases |acts|
  {
    if acts != [] {
      QuietRobsNobody(c, After(c, s, acts[0]), acts[1..]);
    }
  }

  lemma {:induction false} RobsNobodySplits(c: Config, s: State, a: seq<Action>, b: seq<Action>)
    requires CanRun(c, s, a + b) && RobsNobody(c, s, a + b) && CanRun(c, s, a) && CanRun(c, Exec(c, s, a), b)
    ensures RobsNobody(c, s, a) && RobsNobody(c, Exec(c, s, a), b)
    decreases |a|
  {
    if a == [] {
      assert a + b == b;
    } else {
      assert (a + b)[1..] == a[1..] + b;
      RobsNobodySplits(c, After(c, s, a[0]), a[1..], b);
    }
  }

  ghost predicate LockOwned(s: State) {
    forall p :: 0 <= p < |s.calls| && Critical(s.calls[p].pc) ==> s.lock.Some? && s.lock.value.maker == p
  }

  lemma LockOwnedStep(c: Config, s: State, a: Action)
    requires LockOwned(s) && Enabled(c, s, a) && !Robs(s, a)
    ensures LockOwned(After(c, s, a))
  {
    var s' := After(c, s, a);
    forall p | 0 <= p < |s'.calls| && Critical(s'.calls[p].pc)
      ensures s'.lock.Some? && s'.lock.value.maker == p
    {
      assert p < |s.calls|;
    }
  }

  lemma {:induction false} LockOwnedRun(c: Config, s: State, acts: seq<Action>)
    requires LockOwned(s) && CanRun(c, s, acts) && RobsNobody(c, s, acts)
    ensures LockOwned(Exec(c, s, acts))
    decreases |acts|
  {
    if acts != [] {
      LockOwnedStep(c, s, acts[0]);
      LockOwnedRun(c, After(c, s, acts[0]), acts[1..]);
    }
  }

  /** At most one call is between acquire and release. */
  lemma MutualExclusion(c: Config, s0: State, acts: seq<Action>, p: nat, q: nat)
    requires Init(s0) && CanRun(c, s0, acts) && RobsNobody(c, s0, acts)
    requires var s := Exec(c, s0, acts);
      p < |s.calls| && q < |s.calls| && Critical(s.calls[p].pc) && Critical(s.calls[q].pc)
    ensures p == q
  {
    LockOwnedRun(c, s0, acts);
  }

  /** Every pinned file is right but something else is there too: such a directory does not verify,
      and yet becomes verified half way through being removed. */
  ghost predicate Decoy(c: Config, f: Option<Tree>) {
    f.Some? && c.pins != [] && PinsGood(f.value, c.pins, c.sha) && !NothingExtra(f.value, c.pins)
  }

  /** Nobody who is about to replace the directory does so over a verified one. */
  ghost predicate Doomed(c: Config, s: State) {
    forall p :: 0 <= p < |s.calls| && (s.calls[p].pc.RemoveFinal? || s.calls[p].pc.Publish?) ==>
      !FinalVerified(c, s.final)
  }

  ghost predicate Stable(c: Config, s: State) {
    LockOwned(s) && !Decoy(c, s.final) && Doomed(c, s)
  }

  lemma NoDecoyStep(c: Config, original: Option<Tree>, s: State, a: Action)
    requires !Decoy(c, s.final) && Safe(c, original, s) && Enabled(c, s, a)
    ensures !Decoy(c, After(c, s, a).final)
    ensures a.RemoveLeaf? && !FinalVerified(c, s.final) ==> !FinalVerified(c, After(c, s, a).final)
  {
    var s' := After(c, s, a);
    match a
    case RemoveLeaf(p, path) =>
      assert c.pins != [] ==> FinalVerified(c, s.final) || !PinsGood(s.final.value, c.pins, c.sha);
      assert c.pins != [] ==> FinalVerified(c, s.final) || !PinsGood(s'.final.value, c.pins, c.sha);
    case Rename(p) =>
      assert CallSafe(c, s.calls[p]);
    case _ =>
  }

  lemma DoomedStep(c: Config, s: State, a: Action)
    requires LockOwned(s) && Doomed(c, s) && Enabled(c, s, a)
    requires a.RemoveLeaf? && !FinalVerified(c, s.final) ==> !FinalVerified(c, After(c, s, a).final)
    ensures Doomed(c, After(c, s, a))
    ensures FinalVerified(c, s.final) ==> After(c, s, a).final == s.final && !a.Rename?
  {
  }

  lemma StableStep(c: Config, original: Option<Tree>, s: State, a: Action)
    requires Stable(c, s) && Safe(c, original, s) && Enabled(c, s, a) && !Robs(s, a)
    ensures Stable(c, After(c, s, a))
    ensures FinalVerified(c, s.final) ==> After(c, s, a).final == s.final && !a.Rename?
  {
    LockOwnedStep(c, s, a);
    NoDecoyStep(c, original, s, a);
    DoomedStep(c, s, a);
  }

  lemma {:induction false} StableRun(c: Config, original: Option<Tree>, s: State, acts: seq<Action>)
    requires Stable(c, s) && Safe(c, original, s) && CanRun(c, s, acts) && RobsNobody(c, s, acts)
    ensures Stable(c, Exec(c, s, acts)) && Safe(c, original, Exec(c, s, acts))
    ensures FinalVerified(c, s.final) ==>
      Exec(c, s, acts).final == s.final && forall a :: a in acts ==> !a.Rename?
    decreases |acts|
  {
    if acts != [] {
      StableStep(c, original, s, acts[0]);
      SafeStep(c, original, s, acts[0]);
      StableRun(c, original, After(c, s, acts[0]), acts[1..]);
      assert acts == [acts[0]] + acts[1..];
    }
  }

  lemma InitSafe(c: Config, s0: State)
    requires Init(s0)
    ensures Safe(c, s0.final, s0) && LockOwned(s0) && Doomed(c, s0)
  {
    assert s0.final.Some? ==> Remnant(s0.final.value, s0.final.value);
  }

  /** Nobody robbed, and not from a decoy: once verified, `finalDir` stays as it is and nothing is ever
      published over it. */
  lemma VerifiedIsForever(c: Config, s0: State, acts: seq<Action>, more: seq<Action>)
    requires Init(s0) && !Decoy(c, s0.final) && CanRun(c, s0, acts + more) && RobsNobody(c, s0, acts + more)
    requires CanRun(c, s0, acts) && FinalVerified(c, Exec(c, s0, acts).final)
    ensures Exec(c, s0, acts + more).final == Exec(c, s0, acts).final
    ensures forall a :: a in more ==> !a.Rename?
  {
    InitSafe(c, s0);
    RunConcat(c, s0, acts, more);
    RobsNobodySplits(c, s0, acts, more);
    StableRun(c, s0.final, s0, acts);
    StableRun(c, s0.final, Exec(c, s0, acts), more);
  }

  // ---- from any directory, a decoy included ----

  /** Right after a publish the directory verifies and nobody is about to replace it. */
  lemma PublishStabilizes(c: Config, original: Option<Tree>, s: State, p: nat)
    requires Safe(c, original, s) && LockOwned(s) && Enabled(c, s, Rename(p))
    ensures var s' := After(c, s, Rename(p)); Stable(c, s') && FinalVerified(c, s'.final)
  {
    assert CallSafe(c, s.calls[p]);
    var s' := After(c, s, Rename(p));
    LockOwnedStep(c, s, Rename(p));
    forall q | 0 <= q < |s'.calls| && (s'.calls[q].pc.RemoveFinal? || s'.calls[q].pc.Publish?) ensures q == p {
      assert Critical(s.calls[q].pc) && Critical(s.calls[p].pc);
    }
    assert s'.calls[p].pc == Release(Returned);
  }

  /** Nobody robbed: what the protocol has published is never touched again, whatever was there at the start. */
  lemma PublishedIsForever(c: Config, s0: State, acts: seq<Action>, p: nat, more: seq<Action>)
    requires Init(s0) && CanRun(c, s0, acts + [Rename(p)] + more) && RobsNobody(c, s0, acts + [Rename(p)] + more)
    ensures CanRun(c, s0, acts + [Rename(p)]) && FinalVerified(c, Exec(c, s0, acts + [Rename(p)]).final)
    ensures Exec(c, s0, acts + [Rename(p)] + more).final == Exec(c, s0, acts + [Rename(p)]).final
    ensures forall a :: a in more ==> !a.Rename?
  {
    var upto := acts + [Rename(p)];
    PrefixRuns(c, s0, upto, more);
    PrefixRuns(c, s0, acts, [Rename(p)]);
    RunConcat(c, s0, upto, more);
    RunConcat(c, s0, acts, [Rename(p)]);
    RobsNobodySplits(c, s0, upto, more);
    RobsNobodySplits(c, s0, acts, [Rename(p)]);
    var s := Exec(c, s0, acts);
    InitSafe(c, s0);
    SafeRun(c, s0.final, s0, acts);
    LockOwnedRun(c, s0, acts);
    PublishStabilizes(c, s0.final, s, p);
    SafeStep(c, s0.final, s, Rename(p));
    assert Exec(c, s, [Rename(p)]) == Exec(c, After(c, s, Rename(p)), []);
    StableRun(c, s0.final, Exec(c, s0, upto), more);
  }

  lemma NoLaterPublish(c: Config, s0: State, acts: seq<Action>, i: nat)
    requires Init(s0) && CanRun(c, s0, acts) && RobsNobody(c, s0, acts)
    requires i < |acts| && acts[i].Rename?
    ensures forall j :: i < j < |acts| ==> !acts[j].Rename?
  {
    var before, after := acts[..i], acts[i + 1..];
    assert acts == before + [Rename(acts[i].p)] + after;
    PublishedIsForever(c, s0, before, acts[i].p, after);
    forall j | i < j < |acts| ensures !acts[j].Rename? {
      assert acts[j] == after[j - i - 1];
    }
  }

  /** At most one publish rename happens in a whole run that robs nobody, from any start. */
  lemma AtMostOnePublish(c: Config, s0: State, acts: seq<Action>, i: nat, j: nat)
    requires Init(s0) && CanRun(c, s0, acts) && RobsNobody(c, s0, acts)
    requires i < |acts| && j < |acts| && acts[i].Rename? && acts[j].Rename?
    ensures i == j
  {
    NoLaterPublish(c, s0, acts, i);
    NoLaterPublish(c, s0, acts, j);
  }

  /** After a normal return in a run that robs nobody, from no decoy, `assertVerified` cannot fail. */
  lemma ReturnStaysVerified(c: Config, s0: State, acts: seq<Action>, p: nat)
    requires Init(s0) && !Decoy(c, s0.final) && CanRun(c, s0, acts) && RobsNobody(c, s0, acts) && p < |s0.calls|
    requires Exec(c, s0, acts).calls[p].pc == Done(Returned)
    ensures FinalVerified(c, Exec(c, s0, acts).final)
  {
    var j := NormalReturnWasVerified(c, s0, acts, p);
    assert acts == acts[..j] + acts[j..];
    VerifiedIsForever(c, s0, acts[..j], acts[j..]);
  }
}
