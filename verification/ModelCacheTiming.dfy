/** Time in the model-cache protocol: a lock is taken over only when it was old, and a waiter gives up only when it
    has waited long. */
module ModelCacheTiming {
  import opened Basics
  import opened VerifyDir
  import opened ModelCache

  /** Since its owner last wrote the time, or without an owner since the lock was made, more than `lockStaleMs` have
      passed. */
  ghost predicate Overdue(c: Config, s: State) {
    s.lock.Some? &&
    match s.lock.value.startedAt
    case Some(t) => s.now - t > c.lockStaleMs
    case None => s.now - s.lock.value.mtime > c.lockStaleMs
  }

  lemma RunSplits(c: Config, s: State, acts: seq<Action>, j: nat)
    requires CanRun(c, s, acts) && j <= |acts|
    ensures CanRun(c, s, acts[..j]) && CanRun(c, Exec(c, s, acts[..j]), acts[j..])
    ensures Exec(c, s, acts) == Exec(c, Exec(c, s, acts[..j]), acts[j..])
  {
    assert acts == acts[..j] + acts[j..];
    PrefixRuns(c, s, acts[..j], acts[j..]);
    RunConcat(c, s, acts[..j], acts[j..]);
  }

  lemma LastStep(c: Config, s: State, acts: seq<Action>)
    requires CanRun(c, s, acts) && acts != []
    ensures var n := |acts| - 1;
      && CanRun(c, s, acts[..n]) && Enabled(c, Exec(c, s, acts[..n]), acts[n])
      && Exec(c, s, acts) == After(c, Exec(c, s, acts[..n]), acts[n])
  {
    var n := |acts| - 1;
    RunSplits(c, s, acts, n);
    var m := Exec(c, s, acts[..n]);
    assert acts[n..] == [acts[n]] && acts[n..][1..] == [];
    assert Exec(c, m, acts[n..]) == After(c, m, acts[n]);
  }

  // ---- a takeover follows a look at an old lock ----

  /** Only a look at an overdue lock sends a call to remove it, and it always does. */
  lemma OnlyOverdue(c: Config, s: State, a: Action, p: nat)
    requires Enabled(c, s, a) && p < |s.calls|
    ensures s.calls[p].pc != PollRemoveStale && After(c, s, a).calls[p].pc == PollRemoveStale <==>
      s.calls[p].pc == PollAge && a == ReadAge(p) && Overdue(c, s)
    ensures s.calls[p].pc == PollRemoveStale && After(c, s, a).calls[p].pc == PollRemoveStale ==>
      !Actor(a) || a.p != p || a.Heartbeat?
  {
  }

  /** Call `p` does nothing of its own from action `j` on. */
  ghost predicate Rests(acts: seq<Action>, j: nat, p: nat) {
    forall i :: j <= i < |acts| ==> !Actor(acts[i]) || acts[i].p != p || acts[i].Heartbeat?
  }

  lemma {:induction false} OverdueMoment(c: Config, s: State, acts: seq<Action>, p: nat) returns (j: nat)
    requires CanRun(c, s, acts) && p < |s.calls|
    requires s.calls[p].pc != PollRemoveStale && Exec(c, s, acts).calls[p].pc == PollRemoveStale
    ensures j < |acts| && acts[j] == ReadAge(p) && CanRun(c, s, acts[..j])
    ensures Overdue(c, Exec(c, s, acts[..j])) && Rests(acts, j + 1, p)
    decreases |acts|
  {
    var n := |acts| - 1;
    LastStep(c, s, acts);
    var m := Exec(c, s, acts[..n]);
    OnlyOverdue(c, m, acts[n], p);
    if m.calls[p].pc == PollRemoveStale {
      j := OverdueMoment(c, s, acts[..n], p);
      assert acts[..n][..j] == acts[..j];
      forall i | j + 1 <= i < |acts| ensures !Actor(acts[i]) || acts[i].p != p || acts[i].Heartbeat? {
        assert i < n ==> acts[i] == acts[..n][i];
      }
    } else {
      j := n;
    }
  }

  /** In any run that ends with a takeover by `p`: the last thing `p` did before was to read the age of the lock, and
      at that moment the lock was overdue. */
  lemma TakeoverWasOverdue(c: Config, s0: State, acts: seq<Action>, p: nat) returns (j: nat)
    requires Init(s0) && CanRun(c, s0, acts + [TakeOver(p)])
    ensures j < |acts| && acts[j] == ReadAge(p) && CanRun(c, s0, acts[..j])
    ensures Overdue(c, Exec(c, s0, acts[..j])) && Rests(acts, j + 1, p)
  {
    LastStep(c, s0, acts + [TakeOver(p)]);
    assert (acts + [TakeOver(p)])[..|acts|] == acts;
    j := OverdueMoment(c, s0, acts, p);
  }

  // ---- runs in which no lock grows old ----

  ghost predicate NeverOverdue(c: Config, s: State, acts: seq<Action>)
    requires CanRun(c, s, acts)
  {
    forall j :: 0 <= j < |acts| && CanRun(c, s, acts[..j]) ==> !Overdue(c, Exec(c, s, acts[..j]))
  }

  /** Nobody from outside interferes with a lock in use. */
  ghost predicate NoiseRobsNobody(c: Config, s: State, acts: seq<Action>)
    requires CanRun(c, s, acts)
  {
    forall j :: 0 <= j < |acts| && CanRun(c, s, acts[..j]) && acts[j].LockNoise? ==> !InUse(Exec(c, s, acts[..j]))
  }

  lemma OverdueBefore(c: Config, s0: State, acts: seq<Action>, j: nat) returns (i: nat)
    requires Init(s0) && CanRun(c, s0, acts) && j < |acts| && acts[j].TakeOver?
    ensures i < j && CanRun(c, s0, acts[..i]) && Overdue(c, Exec(c, s0, acts[..i]))
  {
    RunSplits(c, s0, acts, j + 1);
    assert acts[..j + 1] == acts[..j] + [TakeOver(acts[j].p)];
    i := TakeoverWasOverdue(c, s0, acts[..j], acts[j].p);
    assert acts[..j][..i] == acts[..i];
  }

  lemma NoTakeover(c: Config, s0: State, acts: seq<Action>, j: nat)
    requires Init(s0) && CanRun(c, s0, acts) && NeverOverdue(c, s0, acts) && j < |acts|
    ensures !acts[j].TakeOver?
  {
    if acts[j].TakeOver? {
      var i := OverdueBefore(c, s0, acts, j);
    }
  }

  lemma {:induction false} RobsNobodyByStates(c: Config, s: State, acts: seq<Action>)
    requires CanRun(c, s, acts)
    requires forall j :: 0 <= j < |acts| && CanRun(c, s, acts[..j]) ==> !Robs(Exec(c, s, acts[..j]), acts[j])
    ensures RobsNobody(c, s, acts)
    decreases |acts|
  {
    if acts != [] {
      var s', rest := After(c, s, acts[0]), acts[1..];
      assert acts[..0] == [] && CanRun(c, s, acts[..0]) && Exec(c, s, acts[..0]) == s;
      assert !Robs(s, acts[0]);
      forall j | 0 <= j < |rest| && CanRun(c, s', rest[..j]) ensures !Robs(Exec(c, s', rest[..j]), rest[j]) {
        var k := j + 1;
        assert acts[..k][1..] == rest[..j] && acts[..k][0] == acts[0] && acts[k] == rest[j];
        assert CanRun(c, s, acts[..k]) && Exec(c, s, acts[..k]) == Exec(c, s', rest[..j]);
      }
      RobsNobodyByStates(c, s', rest);
    }
  }

  /** Where every lock is refreshed or released in time, nobody is robbed of one: so at most one call is between
      acquire and release, and after a normal return, from no decoy, the directory verifies. */
  lemma FreshLocksAreSafe(c: Config, s0: State, acts: seq<Action>, p: nat, q: nat)
    requires Init(s0) && CanRun(c, s0, acts) && NeverOverdue(c, s0, acts) && NoiseRobsNobody(c, s0, acts)
    requires p < |s0.calls| && q < |s0.calls|
    ensures RobsNobody(c, s0, acts)
    ensures var s := Exec(c, s0, acts); Critical(s.calls[p].pc) && Critical(s.calls[q].pc) ==> p == q
    ensures !Decoy(c, s0.final) && Exec(c, s0, acts).calls[p].pc == Done(Returned) ==>
      FinalVerified(c, Exec(c, s0, acts).final)
  {
    forall j | 0 <= j < |acts| && CanRun(c, s0, acts[..j]) ensures !Robs(Exec(c, s0, acts[..j]), acts[j]) {
      NoTakeover(c, s0, acts, j);
    }
    RobsNobodyByStates(c, s0, acts);
    var s := Exec(c, s0, acts);
    if Critical(s.calls[p].pc) && Critical(s.calls[q].pc) {
      MutualExclusion(c, s0, acts, p, q);
    }
    if !Decoy(c, s0.final) && s.calls[p].pc == Done(Returned) {
      ReturnStaysVerified(c, s0, acts, p);
    }
  }

  // ---- how old a lock is ----

  /** The action writes the owner's time into the lock, or makes the lock. */
  predicate Stamps(s: State, a: Action) {
    a.WriteOwner? || a.Heartbeat? || (a.Mkdir? && s.lock.None?)
  }

  predicate LeavesLock(a: Action) {
    !a.WriteOwner? && !a.Heartbeat? && !a.TakeOver? && !a.Unlock? && !a.LockNoise?
  }

  lemma {:induction false} LockKept(c: Config, s: State, acts: seq<Action>)
    requires CanRun(c, s, acts) && s.lock.Some? && forall a :: a in acts ==> LeavesLock(a)
    ensures Exec(c, s, acts).lock == s.lock
    decreases |acts|
  {
    if acts != [] {
      assert acts[0] in acts;
      LockKept(c, After(c, s, acts[0]), acts[1..]);
    }
  }

  /** A lock is as old as its last stamp: a waiter that reads its age goes to remove it exactly if more than
      `lockStaleMs` have passed since, and otherwise waits. So a heartbeat in time keeps a lock. */
  lemma AgeSinceStamp(c: Config, s: State, stamp: Action, since: seq<Action>, p: nat)
    requires Enabled(c, s, stamp) && Stamps(s, stamp)
    requires CanRun(c, After(c, s, stamp), since) && forall a :: a in since ==> LeavesLock(a)
    requires Enabled(c, Exec(c, After(c, s, stamp), since), ReadAge(p))
    ensures var m := Exec(c, After(c, s, stamp), since);
      After(c, m, ReadAge(p)).calls[p].pc == if m.now - s.now > c.lockStaleMs then PollRemoveStale else PollDeadline
  {
    LockKept(c, After(c, s, stamp), since);
  }

  // ---- giving up ----

  /** Polling for the lock. */
  predicate Waiting(pc: Pc) {
    pc.PollCheck? || pc.PollMkdir? || pc.PollAge? || pc.PollRemoveStale? || pc.PollDeadline?
  }

  lemma WaitingStep(c: Config, s: State, a: Action, p: nat)
    requires Enabled(c, s, a) && p < |s.calls| && Waiting(After(c, s, a).calls[p].pc)
    ensures Waiting(s.calls[p].pc) ==> After(c, s, a).calls[p].deadlineAt == s.calls[p].deadlineAt
    ensures !Waiting(s.calls[p].pc) ==>
      && a == Check(p) && s.calls[p].pc == FirstCheck
      && After(c, s, a).calls[p].deadlineAt == s.now + 3 * c.lockStaleMs
  {
  }

  lemma {:induction false} WaitingSince(c: Config, s: State, acts: seq<Action>, p: nat) returns (j: nat)
    requires CanRun(c, s, acts) && p < |s.calls|
    requires !Waiting(s.calls[p].pc) && Waiting(Exec(c, s, acts).calls[p].pc)
    ensures j < |acts| && acts[j] == Check(p) && CanRun(c, s, acts[..j])
    ensures var m := Exec(c, s, acts[..j]);
      m.calls[p].pc == FirstCheck && Exec(c, s, acts).calls[p].deadlineAt == m.now + 3 * c.lockStaleMs
    decreases |acts|
  {
    var n := |acts| - 1;
    LastStep(c, s, acts);
    var m := Exec(c, s, acts[..n]);
    WaitingStep(c, m, acts[n], p);
    if Waiting(m.calls[p].pc) {
      j := WaitingSince(c, s, acts[..n], p);
      assert acts[..n][..j] == acts[..j];
    } else {
      j := n;
    }
  }

  /** In any run, a waiter that finds the lock in time gives up exactly if three times `lockStaleMs` have passed since
      its first look at the directory; otherwise it polls again. */
  lemma GivesUpExactly(c: Config, s0: State, acts: seq<Action>, p: nat) returns (j: nat)
    requires Init(s0) && CanRun(c, s0, acts + [Wait(p)])
    ensures j < |acts| && acts[j] == Check(p) && CanRun(c, s0, acts[..j]) && CanRun(c, s0, acts) && p < |s0.calls|
    ensures Exec(c, s0, acts[..j]).calls[p].pc == FirstCheck
    ensures var waited := Exec(c, s0, acts).now - Exec(c, s0, acts[..j]).now;
      Exec(c, s0, acts + [Wait(p)]).calls[p].pc ==
        if waited >= 3 * c.lockStaleMs then Done(Threw) else PollCheck
  {
    LastStep(c, s0, acts + [Wait(p)]);
    assert (acts + [Wait(p)])[..|acts|] == acts;
    j := WaitingSince(c, s0, acts, p);
  }
}
