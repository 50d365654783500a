/** How a call of the model cache ends: exactly when it throws, how often it downloads, and what it leaves behind. */
module ModelCacheOutcomes {
  import opened Basics
  import opened VerifyDir
  import opened ModelCache
  import opened ModelCacheTiming

  // ---- why a call throws ----

  /** A failure that no second attempt makes good: before the download, in cleaning up, in releasing the lock, by
      waiting too long, or because the platform is not supported. */
  predicate Fatal(s: State, a: Action, p: nat)
    requires p < |s.calls|
  {
    var pc := s.calls[p].pc;
    match a
    case CheckThrows(q) => q == p && (pc.FirstCheck? || pc.PollCheck? || pc.HeldCheck?)
    case MkdirThrows(q) => q == p
    case WriteOwnerThrows(q) => q == p
    case Wait(q) => q == p && s.now >= s.calls[p].deadlineAt
    case Platform(q, supported) => q == p && !supported
    case RemoveTmpThrows(q) => q == p && pc.Catch?
    case UnlockThrows(q) => q == p
    case _ => false
  }

  /** A download attempt fails. */
  ghost predicate Spoils(c: Config, s: State, a: Action, p: nat)
    requires p < |s.calls|
  {
    var pc := s.calls[p].pc;
    match a
    case FetchThrows(q) => q == p
    case VerifyTmp(q) => q == p && !TmpClean(c, s.calls[p].tmp)
    case CheckThrows(q) => q == p && (pc.CheckTmp? || pc.Recheck?)
    case RemoveTmpThrows(q) => q == p && pc.DropTmp?
    case RemoveThrows(q) => q == p
    case RenameThrows(q) => q == p
    case _ => false
  }

  ghost predicate SomeFatal(c: Config, s: State, acts: seq<Action>, p: nat)
    requires CanRun(c, s, acts) && p < |s.calls|
    decreases |acts|
  {
    acts != [] && (Fatal(s, acts[0], p) || SomeFatal(c, After(c, s, acts[0]), acts[1..], p))
  }

  /** How many download attempts of `p` fail in the run. */
  ghost function Spoiled(c: Config, s: State, acts: seq<Action>, p: nat): nat
    requires CanRun(c, s, acts) && p < |s.calls|
    decreases |acts|
  {
    if acts == [] then 0
    else (if Spoils(c, s, acts[0], p) then 1 else 0) + Spoiled(c, After(c, s, acts[0]), acts[1..], p)
  }

  /** Not yet downloading. */
  predicate Early(pc: Pc) {
    || pc.Idle? || pc.FirstCheck? || pc.PollCheck? || pc.PollMkdir? || pc.PollOwner? || pc.PollAge?
    || pc.PollRemoveStale? || pc.PollDeadline? || pc.HeldCheck? || pc.HeldPlatform?
  }

  /** What the place of a call tells of its history: `spoiled` attempts have failed, and whether a failure was
      `fatal`. */
  predicate Tells(pc: Pc, spoiled: nat, fatal: bool) {
    match pc
    case Download(k) => k == spoiled <= 1 && !fatal
    case CheckTmp(k) => k == spoiled <= 1 && !fatal
    case Recheck(k) => k == spoiled <= 1 && !fatal
    case DropTmp(k) => k == spoiled <= 1 && !fatal
    case RemoveFinal(k) => k == spoiled <= 1 && !fatal
    case Publish(k) => k == spoiled <= 1 && !fatal
    case Catch(k) => k + 1 == spoiled <= 2 && !fatal
    case Release(outcome) => spoiled <= 2 && (outcome == Threw <==> fatal || spoiled == 2)
    case Done(outcome) => spoiled <= 2 && (outcome == Threw <==> fatal || spoiled == 2)
    case Crashed => spoiled <= 2
    case _ => spoiled == 0 && !fatal
  }

  lemma TellsStep(c: Config, s: State, a: Action, p: nat, spoiled: nat, fatal: bool)
    requires Enabled(c, s, a) && p < |s.calls| && Tells(s.calls[p].pc, spoiled, fatal)
    ensures Tells(After(c, s, a).calls[p].pc, spoiled + (if Spoils(c, s, a, p) then 1 else 0),
                  fatal || Fatal(s, a, p))
  {
  }

  lemma {:induction false} TellsRun(c: Config, s: State, acts: seq<Action>, p: nat, spoiled: nat, fatal: bool)
    requires CanRun(c, s, acts) && p < |s.calls| && Tells(s.calls[p].pc, spoiled, fatal)
    ensures Tells(Exec(c, s, acts).calls[p].pc, spoiled + Spoiled(c, s, acts, p), fatal || SomeFatal(c, s, acts, p))
    decreases |acts|
  {
    if acts != [] {
      TellsStep(c, s, acts[0], p, spoiled, fatal);
      TellsRun(c, After(c, s, acts[0]), acts[1..], p, spoiled + (if Spoils(c, s, acts[0], p) then 1 else 0),
               fatal || Fatal(s, acts[0], p));
    }
  }

  /** In every run: a call that is done threw if and only if some failure was fatal or two download attempts failed.
      One failed attempt is always made good by a second, and there is never a third. */
  lemma OutcomeExactly(c: Config, s0: State, acts: seq<Action>, p: nat)
    requires Init(s0) && CanRun(c, s0, acts) && p < |s0.calls|
    ensures Spoiled(c, s0, acts, p) <= 2
    ensures var pc := Exec(c, s0, acts).calls[p].pc;
      pc.Done? ==> (pc.outcome == Threw <==> SomeFatal(c, s0, acts, p) || Spoiled(c, s0, acts, p) == 2)
  {
    TellsRun(c, s0, acts, p, 0, false);
  }

  // ---- when a call downloads ----

  /** Nothing more to download. */
  predicate Over(pc: Pc) {
    pc.DropTmp? || pc.Release? || pc.Done? || pc.Crashed?
  }

  lemma OverStep(c: Config, s: State, a: Action, p: nat)
    requires Enabled(c, s, a) && p < |s.calls| && Over(s.calls[p].pc)
    requires s.calls[p].pc.DropTmp? ==> a != RemoveTmpThrows(p)
    ensures Over(After(c, s, a).calls[p].pc) && (a.Fetch? ==> a.p != p)
  {
  }

  /** `p` downloads nothing in the run. */
  ghost predicate NoFetch(acts: seq<Action>, p: nat) {
    forall a :: a in acts && a.Fetch? ==> a.p != p
  }

  lemma {:induction false} OverRun(c: Config, s: State, acts: seq<Action>, p: nat)
    requires CanRun(c, s, acts) && p < |s.calls| && Over(s.calls[p].pc) && RemoveTmpThrows(p) !in acts
    ensures NoFetch(acts, p) && Over(Exec(c, s, acts).calls[p].pc)
    decreases |acts|
  {
    if acts != [] {
      assert acts == [acts[0]] + acts[1..];
      OverStep(c, s, acts[0], p);
      OverRun(c, After(c, s, acts[0]), acts[1..], p);
    }
  }

  /** A call that finds the directory verified, at whichever of its looks, downloads nothing afterwards, unless it
      fails to remove what it has downloaded already. */
  lemma VerifiedNeedsNoDownload(c: Config, s: State, p: nat, acts: seq<Action>)
    requires Enabled(c, s, Check(p)) && FinalVerified(c, s.final) && CanRun(c, After(c, s, Check(p)), acts)
    requires RemoveTmpThrows(p) !in acts
    ensures NoFetch(acts, p)
  {
    OverRun(c, After(c, s, Check(p)), acts, p);
  }

  /** After a fatal failure, an unsupported platform among them, a call downloads nothing. */
  lemma FatalEndsDownloads(c: Config, s: State, a: Action, p: nat, acts: seq<Action>)
    requires Enabled(c, s, a) && p < |s.calls| && Fatal(s, a, p) && CanRun(c, After(c, s, a), acts)
    ensures NoFetch(acts, p)
  {
    GoneRun(c, After(c, s, a), acts, p);
  }

  predicate Gone(pc: Pc) { pc.Release? || pc.Done? || pc.Crashed? }

  lemma {:induction false} GoneRun(c: Config, s: State, acts: seq<Action>, p: nat)
    requires CanRun(c, s, acts) && p < |s.calls| && Gone(s.calls[p].pc)
    ensures NoFetch(acts, p) && Gone(Exec(c, s, acts).calls[p].pc)
    decreases |acts|
  {
    if acts != [] {
      assert acts == [acts[0]] + acts[1..];
      GoneRun(c, After(c, s, acts[0]), acts[1..], p);
    }
  }

  // ---- what a call leaves behind ----

  /** Before the download a call has no download directory. */
  lemma {:induction false} NoTmpEarly(c: Config, s0: State, acts: seq<Action>, p: nat)
    requires Init(s0) && CanRun(c, s0, acts) && p < |s0.calls| && Early(Exec(c, s0, acts).calls[p].pc)
    ensures Exec(c, s0, acts).calls[p].tmp.None?
    decreases |acts|
  {
    if acts != [] {
      var n := |acts| - 1;
      LastStep(c, s0, acts);
      EarlyBefore(c, Exec(c, s0, acts[..n]), acts[n], p);
      NoTmpEarly(c, s0, acts[..n], p);
    }
  }

  lemma EarlyBefore(c: Config, s: State, a: Action, p: nat)
    requires Enabled(c, s, a) && p < |s.calls| && Early(After(c, s, a).calls[p].pc)
    ensures Early(s.calls[p].pc) && After(c, s, a).calls[p].tmp == s.calls[p].tmp
  {
  }

  /** Each attempt starts with nothing downloaded. */
  lemma AttemptsStartEmpty(c: Config, s0: State, acts: seq<Action>, a: Action, p: nat)
    requires Init(s0) && CanRun(c, s0, acts) && p < |s0.calls| && Enabled(c, Exec(c, s0, acts), a)
    requires !Exec(c, s0, acts).calls[p].pc.Download? && After(c, Exec(c, s0, acts), a).calls[p].pc.Download?
    ensures After(c, Exec(c, s0, acts), a).calls[p].tmp.None?
  {
    if Early(Exec(c, s0, acts).calls[p].pc) {
      NoTmpEarly(c, s0, acts, p);
    }
  }

  lemma TmpEnds(c: Config, s: State, a: Action, p: nat)
    requires Enabled(c, s, a) && p < |s.calls| && a != RemoveTmpThrows(p)
    requires Gone(After(c, s, a).calls[p].pc) && !After(c, s, a).calls[p].pc.Crashed?
    requires After(c, s, a).calls[p].tmp.Some?
    ensures s.calls[p].tmp.Some? && !s.calls[p].pc.Crashed? && (Gone(s.calls[p].pc) || Early(s.calls[p].pc))
  {
  }

  /** A call that is done has removed its download directory, or has failed to. */
  lemma {:induction false} NoLitter(c: Config, s0: State, acts: seq<Action>, p: nat)
    requires Init(s0) && CanRun(c, s0, acts) && p < |s0.calls|
    requires Gone(Exec(c, s0, acts).calls[p].pc) && !Exec(c, s0, acts).calls[p].pc.Crashed?
    ensures Exec(c, s0, acts).calls[p].tmp.None? || RemoveTmpThrows(p) in acts
    decreases |acts|
  {
    if acts != [] && Exec(c, s0, acts).calls[p].tmp.Some? && acts[|acts| - 1] != RemoveTmpThrows(p) {
      var n := |acts| - 1;
      LastStep(c, s0, acts);
      TmpEnds(c, Exec(c, s0, acts[..n]), acts[n], p);
      if Early(Exec(c, s0, acts[..n]).calls[p].pc) {
        NoTmpEarly(c, s0, acts[..n], p);
      } else {
        NoLitter(c, s0, acts[..n], p);
      }
    }
  }

  /** The lock that `p` made is there. */
  predicate HasLock(s: State, p: nat) {
    s.lock.Some? && s.lock.value.maker == p
  }

  predicate FailsWithLock(a: Action, p: nat) {
    a == WriteOwnerThrows(p) || a == UnlockThrows(p)
  }

  /** Where a call stands, whether its lock is there and whether it failed to write the owner or to unlock. */
  predicate LockTells(pc: Pc, has: bool, failed: bool) {
    if Critical(pc) then has && !failed
    else if pc.Done? then has <==> failed
    else pc.Crashed? || (!has && !failed)
  }

  predicate QuietStep(a: Action) { !a.TakeOver? && !a.LockNoise? }

  ghost predicate ActsFor(a: Action, p: nat) {
    Actor(a) && a.p == p && !a.Heartbeat?
  }

  /** What others do leaves a call's lock where it is. */
  lemma OthersLeaveLock(c: Config, s: State, a: Action, p: nat)
    requires Enabled(c, s, a) && p < |s.calls| && LockOwned(s) && QuietStep(a) && !ActsFor(a, p)
    ensures After(c, s, a).calls[p] == s.calls[p] && (HasLock(After(c, s, a), p) <==> HasLock(s, p))
  {
  }

  /** The lock changes where the call does. */
  lemma OwnLockStep(c: Config, s: State, a: Action, p: nat)
    requires Enabled(c, s, a) && p < |s.calls| && QuietStep(a) && ActsFor(a, p)
    ensures a == Unlock(p) ==> !HasLock(After(c, s, a), p)
    ensures a == Mkdir(p) && s.lock.None? ==> HasLock(After(c, s, a), p)
    ensures a != Unlock(p) && !(a == Mkdir(p) && s.lock.None?) ==> (HasLock(After(c, s, a), p) <==> HasLock(s, p))
  {
  }

  lemma OwnPlaceStep(c: Config, s: State, a: Action, p: nat)
    requires Enabled(c, s, a) && p < |s.calls| && ActsFor(a, p)
    ensures var pc, pc' := s.calls[p].pc, After(c, s, a).calls[p].pc;
      && (Critical(pc) ==> Critical(pc') || pc'.Crashed? || a == Unlock(p) || FailsWithLock(a, p))
      && (!Critical(pc) && Critical(pc') ==> a == Mkdir(p) && s.lock.None?)
      && (a == Mkdir(p) && s.lock.None? ==> Critical(pc'))
      && (a == Unlock(p) || FailsWithLock(a, p) ==> Critical(pc) && pc'.Done?)
      && !pc.Done? && !pc.Crashed?
  {
  }

  lemma LockTellsStep(c: Config, s: State, a: Action, p: nat, failed: bool)
    requires Enabled(c, s, a) && p < |s.calls| && LockOwned(s) && QuietStep(a)
    requires LockTells(s.calls[p].pc, HasLock(s, p), failed)
    ensures LockTells(After(c, s, a).calls[p].pc, HasLock(After(c, s, a), p), failed || FailsWithLock(a, p))
  {
    if ActsFor(a, p) {
      OwnLockStep(c, s, a, p);
      OwnPlaceStep(c, s, a, p);
    } else {
      OthersLeaveLock(c, s, a, p);
    }
  }

  lemma {:induction false} LockTellsRun(c: Config, s: State, acts: seq<Action>, p: nat, failed: bool)
    requires CanRun(c, s, acts) && p < |s.calls| && LockOwned(s) && Quiet(acts)
    requires LockTells(s.calls[p].pc, HasLock(s, p), failed)
    ensures LockTells(Exec(c, s, acts).calls[p].pc, HasLock(Exec(c, s, acts), p),
                      failed || exists a :: a in acts && FailsWithLock(a, p))
    decreases |acts|
  {
    if acts != [] {
      var a, rest := acts[0], acts[1..];
      assert acts == [a] + rest;
      LockTellsStep(c, s, a, p, failed);
      LockOwnedStep(c, s, a);
      LockTellsRun(c, After(c, s, a), rest, p, failed || FailsWithLock(a, p));
      assert (exists x :: x in acts && FailsWithLock(x, p)) <==>
        FailsWithLock(a, p) || exists x :: x in rest && FailsWithLock(x, p);
    }
  }

  /** With no takeover and nobody else touching the lock: a call that is done leaves its lock behind if and only if it
      failed to write the owner file, after making the lock directory, or to remove the lock. Nothing else leaks it. */
  lemma LockLeftExactly(c: Config, s0: State, acts: seq<Action>, p: nat)
    requires Init(s0) && CanRun(c, s0, acts) && Quiet(acts) && p < |s0.calls| && Exec(c, s0, acts).calls[p].pc.Done?
    ensures HasLock(Exec(c, s0, acts), p) <==> WriteOwnerThrows(p) in acts || UnlockThrows(p) in acts
  {
    LockTellsRun(c, s0, acts, p, false);
    if WriteOwnerThrows(p) in acts {
      assert FailsWithLock(WriteOwnerThrows(p), p);
    }
    if UnlockThrows(p) in acts {
      assert FailsWithLock(UnlockThrows(p), p);
    }
  }

  // ---- publishing ----

  ghost predicate Cleared(s: State) {
    forall p :: 0 <= p < |s.calls| && s.calls[p].pc.Publish? ==> s.final.None?
  }

  lemma ClearedStep(c: Config, s: State, a: Action)
    requires Enabled(c, s, a) && LockOwned(s) && Cleared(s) && !Robs(s, a)
    ensures Cleared(After(c, s, a))
  {
    var s' := After(c, s, a);
    forall p | 0 <= p < |s'.calls| && s'.calls[p].pc.Publish? ensures s'.final.None? {
      assert Critical(s.calls[p].pc);
    }
  }

  lemma {:induction false} ClearedRun(c: Config, s: State, acts: seq<Action>)
    requires CanRun(c, s, acts) && RobsNobody(c, s, acts) && LockOwned(s) && Cleared(s)
    ensures Cleared(Exec(c, s, acts))
    decreases |acts|
  {
    if acts != [] {
      ClearedStep(c, s, acts[0]);
      LockOwnedStep(c, s, acts[0]);
      ClearedRun(c, After(c, s, acts[0]), acts[1..]);
    }
  }

  /** Where nobody is robbed of a lock, a publishing rename finds nothing in its place. */
  lemma PublishesIntoNothing(c: Config, s0: State, acts: seq<Action>, p: nat)
    requires Init(s0) && CanRun(c, s0, acts) && RobsNobody(c, s0, acts) && Enabled(c, Exec(c, s0, acts), Rename(p))
    ensures Exec(c, s0, acts).final.None?
  {
    ClearedRun(c, s0, acts);
  }
}
