/** Where the guarantees of the model-cache protocol end, with runs that show it. */
module ModelCacheLimits {
  import opened Basics
  import opened VerifyDir
  import opened ModelCache

  /** Some run of allowed actions leads from `s` to `s'`. */
  ghost predicate Reaches(c: Config, allowed: Action -> bool, s: State, s': State) {
    exists acts :: CanRun(c, s, acts) && Exec(c, s, acts) == s' && forall a :: a in acts ==> allowed(a)
  }

  lemma Here(c: Config, allowed: Action -> bool, s: State)
    ensures Reaches(c, allowed, s, s)
  {
    assert CanRun(c, s, []) && Exec(c, s, []) == s;
  }

  lemma Then(c: Config, allowed: Action -> bool, s: State, m: State, a: Action, s': State)
    requires Reaches(c, allowed, s, m) && Enabled(c, m, a) && allowed(a) && s' == After(c, m, a)
    ensures Reaches(c, allowed, s, s')
  {
    var acts :| CanRun(c, s, acts) && Exec(c, s, acts) == m && forall x :: x in acts ==> allowed(x);
    RunConcat(c, s, acts, [a]);
    assert CanRun(c, After(c, m, a), [a][1..]);
    assert Exec(c, m, [a]) == After(c, m, a);
    assert CanRun(c, s, acts + [a]);
  }

  function Put(s: State, p: nat, k: Call): State
    requires p < |s.calls|
  {
    s.(calls := s.calls[p := k])
  }

  /** A call finds nothing verified, twice, and goes for the lock. */
  lemma Approach(c: Config, allowed: Action -> bool, s0: State, s: State, p: nat) returns (deadline: int)
    requires Reaches(c, allowed, s0, s) && p < |s.calls| && s.calls[p].pc == Idle && !FinalVerified(c, s.final)
    requires allowed(Begin(p)) && allowed(Check(p))
    ensures Reaches(c, allowed, s0, Put(s, p, Call(PollMkdir, deadline, s.calls[p].tmp)))
  {
    var k := s.calls[p];
    deadline := s.now + c.lockStaleMs * LOCK_WAIT_DEADLINE_MULTIPLIER;
    var s1 := Put(s, p, k.(pc := FirstCheck));
    Then(c, allowed, s0, s, Begin(p), s1);
    var s2 := Put(s, p, Call(PollCheck, deadline, k.tmp));
    Then(c, allowed, s0, s1, Check(p), s2);
    Then(c, allowed, s0, s2, Check(p), Put(s, p, Call(PollMkdir, deadline, k.tmp)));
  }

  /** A call finds the lock taken and looks at its age. */
  lemma FindStale(c: Config, allowed: Action -> bool, s0: State, s: State, p: nat)
    requires Reaches(c, allowed, s0, s) && p < |s.calls| && s.calls[p].pc == PollMkdir
    requires s.lock.Some? && Age(s, s.lock.value) > c.lockStaleMs
    requires allowed(Mkdir(p)) && allowed(ReadAge(p))
    ensures Reaches(c, allowed, s0, Put(s, p, s.calls[p].(pc := PollRemoveStale)))
  {
    var s1 := Put(s, p, s.calls[p].(pc := PollAge));
    Then(c, allowed, s0, s, Mkdir(p), s1);
    Then(c, allowed, s0, s1, ReadAge(p), Put(s, p, s.calls[p].(pc := PollRemoveStale)));
  }

  /** A call removes the lock it took for stale and makes its own. */
  lemma Seize(c: Config, allowed: Action -> bool, s0: State, s: State, p: nat)
    requires Reaches(c, allowed, s0, s) && p < |s.calls|
    requires s.calls[p].pc == PollRemoveStale && !FinalVerified(c, s.final)
    requires allowed(TakeOver(p)) && allowed(Check(p)) && allowed(Mkdir(p))
    ensures Reaches(c, allowed, s0,
      Put(s, p, s.calls[p].(pc := PollOwner)).(lock := Some(Lock(p, None, s.now))))
  {
    var s1 := Put(s, p, s.calls[p].(pc := PollCheck)).(lock := None);
    Then(c, allowed, s0, s, TakeOver(p), s1);
    var s2 := Put(s, p, s.calls[p].(pc := PollMkdir)).(lock := None);
    Then(c, allowed, s0, s1, Check(p), s2);
    Then(c, allowed, s0, s2, Mkdir(p),
      Put(s, p, s.calls[p].(pc := PollOwner)).(lock := Some(Lock(p, None, s.now))));
  }

  predicate QuietAction(a: Action) { !a.TakeOver? && !a.LockNoise? }

  predicate NoNoise(a: Action) { !a.LockNoise? }

  ghost predicate AllowsQuiet(allowed: Action -> bool) {
    forall a: Action :: QuietAction(a) ==> allowed(a)
  }

  /** A call takes the free lock. */
  lemma TakeLock(c: Config, allowed: Action -> bool, s0: State, s: State, p: nat)
    requires AllowsQuiet(allowed)
    requires Reaches(c, allowed, s0, s) && p < |s.calls| && s.calls[p].pc == PollMkdir && s.lock.None?
    ensures Reaches(c, allowed, s0,
      Put(s, p, s.calls[p].(pc := HeldCheck)).(lock := Some(Lock(p, Some(s.now), s.now))))
  {
    var k := s.calls[p];
    var s1 := Put(s, p, k.(pc := PollOwner)).(lock := Some(Lock(p, None, s.now)));
    Then(c, allowed, s0, s, Mkdir(p), s1);
    var s2 := Put(s, p, k.(pc := HeldCheck)).(lock := Some(Lock(p, Some(s.now), s.now)));
    Then(c, allowed, s0, s1, WriteOwner(p), s2);
  }

  /** A holder that finds nothing verified starts its first download. */
  lemma StartDownload(c: Config, allowed: Action -> bool, s0: State, s: State, p: nat)
    requires AllowsQuiet(allowed)
    requires Reaches(c, allowed, s0, s) && p < |s.calls| && s.calls[p].pc == HeldCheck && !FinalVerified(c, s.final)
    ensures Reaches(c, allowed, s0, Put(s, p, s.calls[p].(pc := Download(0))))
  {
    var k := s.calls[p];
    var s1 := Put(s, p, k.(pc := HeldPlatform));
    Then(c, allowed, s0, s, Check(p), s1);
    Then(c, allowed, s0, s1, Platform(p, true), Put(s, p, k.(pc := Download(0))));
  }

  /** A complete, clean download passes the batch check. */
  lemma FinishDownload(c: Config, allowed: Action -> bool, s0: State, s: State, p: nat)
    requires AllowsQuiet(allowed)
    requires Reaches(c, allowed, s0, s) && p < |s.calls| && s.calls[p].pc == Download(0)
    requires TmpClean(c, s.calls[p].tmp) && s.calls[p].tmp.Some?
    requires PinnedPaths(c.pins) <= s.calls[p].tmp.value.Keys
    ensures Reaches(c, allowed, s0, Put(s, p, s.calls[p].(pc := Recheck(0))))
  {
    var k := s.calls[p];
    var s1 := Put(s, p, k.(pc := CheckTmp(0)));
    Then(c, allowed, s0, s, FetchDone(p), s1);
    Then(c, allowed, s0, s1, VerifyTmp(p), Put(s, p, k.(pc := Recheck(0))));
  }

  /** A complete, clean download goes on to removing the old directory. */
  lemma StartRemoval(c: Config, allowed: Action -> bool, s0: State, s: State, p: nat)
    requires AllowsQuiet(allowed)
    requires Reaches(c, allowed, s0, s) && p < |s.calls| && s.calls[p].pc == Download(0)
    requires TmpClean(c, s.calls[p].tmp) && s.calls[p].tmp.Some? && !FinalVerified(c, s.final)
    requires PinnedPaths(c.pins) <= s.calls[p].tmp.value.Keys
    ensures Reaches(c, allowed, s0, Put(s, p, s.calls[p].(pc := RemoveFinal(0))))
  {
    var k := s.calls[p];
    FinishDownload(c, allowed, s0, s, p);
    Then(c, allowed, s0, Put(s, p, k.(pc := Recheck(0))), Check(p), Put(s, p, k.(pc := RemoveFinal(0))));
  }

  /** A run from `f0` in which call `p` returned normally. */
  ghost predicate Returns(c: Config, f0: Option<Tree>, s0: State, acts: seq<Action>, p: nat) {
    && Init(s0) && s0.final == f0 && CanRun(c, s0, acts)
    && p < |s0.calls| && Exec(c, s0, acts).calls[p].pc == Done(Returned)
  }

  /** Whenever a call has returned normally in a run from `f0` that robs nobody, the directory verifies. */
  ghost predicate ReturnsLast(c: Config, f0: Option<Tree>) {
    forall s0: State, acts, p: nat :: Returns(c, f0, s0, acts, p) && RobsNobody(c, s0, acts) ==>
      FinalVerified(c, Exec(c, s0, acts).final)
  }

  /** The same for runs without any takeover. */
  ghost predicate ReturnsLastQuietly(c: Config, f0: Option<Tree>) {
    forall s0: State, acts, p: nat :: Returns(c, f0, s0, acts, p) && Quiet(acts) ==>
      FinalVerified(c, Exec(c, s0, acts).final)
  }

  /** What the first `n` downloads leave, when every download gets the bytes that `t` holds. */
  function Fetched(c: Config, t: Tree, n: nat): Option<Tree>
    requires n <= |c.pins| && PinnedPaths(c.pins) <= t.Keys
  {
    if n == 0 then None else Some(map p | p in PinnedPaths(c.pins[..n]) :: t[p])
  }

  lemma FetchOne(c: Config, allowed: Action -> bool, s0: State, s: State, p: nat, t: Tree, n: nat)
    requires AllowsQuiet(allowed)
    requires Reaches(c, allowed, s0, s)
    requires PinsGood(t, c.pins, c.sha) && n < |c.pins| && PinnedPaths(c.pins) <= t.Keys
    requires p < |s.calls| && s.calls[p].pc == Download(0) && s.calls[p].tmp == Fetched(c, t, n)
    ensures Reaches(c, allowed, s0, SetTmp(s, p, Fetched(c, t, n + 1)))
  {
    var f := c.pins[n];
    assert f in c.pins;
    assert c.pins[..n + 1] == c.pins[..n] + [f];
    var before := if n == 0 then map[] else Fetched(c, t, n).value;
    assert PinnedPaths(c.pins[..n + 1]) == PinnedPaths(c.pins[..n]) + {f.path};
    assert before[f.path := t[f.path]] == Fetched(c, t, n + 1).value;
    Then(c, allowed, s0, s, Fetch(p, f.path, t[f.path].bytes), SetTmp(s, p, Fetched(c, t, n + 1)));
  }

  lemma SetTmpSame(s: State, p: nat)
    requires p < |s.calls|
    ensures SetTmp(s, p, s.calls[p].tmp) == s
  {
  }

  lemma SetTmpTwice(s: State, p: nat, a: Option<Tree>, b: Option<Tree>)
    requires p < |s.calls|
    ensures SetTmp(SetTmp(s, p, a), p, b) == SetTmp(s, p, b)
  {
  }

  lemma {:induction false} FetchAll(c: Config, allowed: Action -> bool, s0: State, s: State, p: nat, t: Tree, n: nat)
    requires AllowsQuiet(allowed)
    requires PinsGood(t, c.pins, c.sha) && n <= |c.pins| && PinnedPaths(c.pins) <= t.Keys
    requires p < |s.calls| && s.calls[p].pc == Download(0) && s.calls[p].tmp == Fetched(c, t, n)
    requires Reaches(c, allowed, s0, s)
    ensures Reaches(c, allowed, s0, SetTmp(s, p, Fetched(c, t, |c.pins|)))
    decreases |c.pins| - n
  {
    if n == |c.pins| {
      SetTmpSame(s, p);
    } else {
      var s' := SetTmp(s, p, Fetched(c, t, n + 1));
      FetchOne(c, allowed, s0, s, p, t, n);
      FetchAll(c, allowed, s0, s', p, t, n + 1);
      SetTmpTwice(s, p, Fetched(c, t, n + 1), Fetched(c, t, |c.pins|));
    }
  }

  /** A call downloads what the pins ask for, up to its removal of the old directory. */
  lemma DownloadAll(c: Config, allowed: Action -> bool, s0: State, s: State, p: nat, t: Tree)
    returns (tmp: Option<Tree>)
    requires AllowsQuiet(allowed) && Reaches(c, allowed, s0, s) && p < |s.calls|
    requires s.calls[p].pc == HeldCheck && s.calls[p].tmp.None? && !FinalVerified(c, s.final)
    requires c.pins != [] && PinsGood(t, c.pins, c.sha)
    ensures tmp.Some? && TmpClean(c, tmp)
    ensures Reaches(c, allowed, s0, Put(s, p, s.calls[p].(pc := RemoveFinal(0), tmp := tmp)))
  {
    StartDownload(c, allowed, s0, s, p);
    var s1 := Put(s, p, s.calls[p].(pc := Download(0)));
    forall path | path in PinnedPaths(c.pins) ensures path in t {
      var f :| f in c.pins && f.path == path;
    }
    FetchAll(c, allowed, s0, s1, p, t, 0);
    tmp := Fetched(c, t, |c.pins|);
    assert c.pins[..|c.pins|] == c.pins;
    assert TmpClean(c, tmp) by {
      assert forall f :: f in c.pins ==> f.path in PinnedPaths(c.pins);
    }
    var s2 := SetTmp(s1, p, tmp);
    StartRemoval(c, allowed, s0, s2, p);
    assert Put(s2, p, s2.calls[p].(pc := RemoveFinal(0))) == Put(s, p, s.calls[p].(pc := RemoveFinal(0), tmp := tmp));
  }

  /** A removal may take the unpinned leaves first. */
  lemma {:induction false} RemoveAll(c: Config, s0: State, s: State, gone: set<Path>)
    requires |s.calls| > 0 && s.calls[0].pc.RemoveFinal? && s.final.Some? && gone <= s.final.value.Keys
    requires Reaches(c, QuietAction, s0, s)
    ensures Reaches(c, QuietAction, s0, s.(final := Some(s.final.value - gone)))
    decreases |gone|
  {
    if gone == {} {
      assert s.final.value - gone == s.final.value;
      assert s.(final := Some(s.final.value - gone)) == s;
    } else {
      var p :| p in gone;
      var s' := s.(final := Some(s.final.value - {p}));
      Then(c, QuietAction, s0, s, RemoveLeaf(0, p), s');
      RemoveAll(c, s0, s', gone - {p});
      assert s'.final.value - (gone - {p}) == s.final.value - gone;
    }
  }

  /** From a directory that does not verify, one call can take the lock. */
  lemma ReachHeld(c: Config, allowed: Action -> bool, final: Option<Tree>) returns (s0: State, s: State)
    requires AllowsQuiet(allowed) && !FinalVerified(c, final)
    ensures Init(s0) && s0.final == final && |s0.calls| == 2 && Reaches(c, allowed, s0, s)
    ensures |s.calls| == 2 && s.calls[0].pc == HeldCheck && s.calls[0].tmp == None && s.calls[1] == Call(Idle, 0, None)
    ensures s.final == final && s.lock == Some(Lock(0, Some(0), 0))
  {
    s0 := State([Call(Idle, 0, None), Call(Idle, 0, None)], final, None, 0);
    Here(c, allowed, s0);
    var deadline := Approach(c, allowed, s0, s0, 0);
    s := Put(s0, 0, Call(PollMkdir, deadline, None));
    TakeLock(c, allowed, s0, s, 0);
    s := Put(s, 0, s.calls[0].(pc := HeldCheck)).(lock := Some(Lock(0, Some(0), 0)));
  }

  /** From a decoy, it can go on to the removal loop. */
  lemma ReachRemoval(c: Config, t: Tree) returns (s0: State, s: State)
    requires Decoy(c, Some(t))
    ensures Init(s0) && s0.final == Some(t) && |s0.calls| == 2
    ensures Reaches(c, QuietAction, s0, s)
    ensures |s.calls| == 2 && s.calls[0].pc == RemoveFinal(0) && s.calls[1].pc == Idle && s.final == Some(t)
  {
    s0, s := ReachHeld(c, QuietAction, Some(t));
    var tmp := DownloadAll(c, QuietAction, s0, s, 0, t);
    s := Put(s, 0, s.calls[0].(pc := RemoveFinal(0), tmp := tmp));
  }

  /** Another call sees the directory verified and returns; then the removal goes on. */
  lemma ReturnThenRemove(c: Config, s0: State, s: State)
    requires Reaches(c, QuietAction, s0, s) && |s.calls| == 2 && FinalVerified(c, s.final)
    requires s.calls[0].pc == RemoveFinal(0) && s.calls[1].pc == Idle
    ensures var s' := Put(s, 1, s.calls[1].(pc := Done(Returned))).(final := Some(s.final.value - {c.pins[0].path}));
      Reaches(c, QuietAction, s0, s') && !FinalVerified(c, s'.final)
  {
    var k := s.calls[1];
    var s1 := Put(s, 1, k.(pc := FirstCheck));
    Then(c, QuietAction, s0, s, Begin(1), s1);
    var s2 := Put(s, 1, k.(pc := Done(Returned)));
    Then(c, QuietAction, s0, s1, Check(1), s2);
    assert c.pins[0] in c.pins;
    var p := c.pins[0].path;
    Then(c, QuietAction, s0, s2, RemoveLeaf(0, p), s2.(final := Some(s.final.value - {p})));
  }

  /** From any decoy there is a takeover-free run in which a call returns normally while another one
      goes on removing the directory. */
  lemma DecoyReturnsTooEarly(c: Config, t: Tree)
    requires Decoy(c, Some(t))
    ensures !ReturnsLastQuietly(c, Some(t))
  {
    var s0, s := ReachRemoval(c, t);
    var extra := t.Keys - PinnedPaths(c.pins);
    RemoveAll(c, s0, s, extra);
    s := s.(final := Some(t - extra));
    assert PinsGood(t - extra, c.pins, c.sha) by {
      assert forall f :: f in c.pins ==> f.path in PinnedPaths(c.pins);
    }
    ReturnThenRemove(c, s0, s);
    s := Put(s, 1, s.calls[1].(pc := Done(Returned))).(final := Some(s.final.value - {c.pins[0].path}));
    var acts :| CanRun(c, s0, acts) && Exec(c, s0, acts) == s && forall a :: a in acts ==> QuietAction(a);
    assert Returns(c, Some(t), s0, acts, 1);
    assert !FinalVerified(c, s.final);
  }

  /** Normal returns are final in runs that rob nobody exactly when the run does not start from a decoy; and
      forbidding takeovers altogether does not help. */
  lemma ReturnsLastExactly(c: Config, f0: Option<Tree>)
    ensures ReturnsLast(c, f0) <==> !Decoy(c, f0)
    ensures ReturnsLastQuietly(c, f0) <==> !Decoy(c, f0)
  {
    forall s0: State, acts, p: nat | Returns(c, f0, s0, acts, p) && Quiet(acts) ensures RobsNobody(c, s0, acts) {
      QuietRobsNobody(c, s0, acts);
    }
    if Decoy(c, f0) {
      DecoyReturnsTooEarly(c, f0.value);
    } else {
      forall s0: State, acts, p: nat | Returns(c, f0, s0, acts, p) && RobsNobody(c, s0, acts)
        ensures FinalVerified(c, Exec(c, s0, acts).final)
      {
        ReturnStaysVerified(c, s0, acts, p);
      }
    }
  }

  // ---- exactly when a takeover breaks exclusion ----

  /** From `s` a run that robs nobody leads to two holders. */
  ghost predicate TwoHolders(c: Config, s: State, more: seq<Action>, x: nat, y: nat) {
    && CanRun(c, s, more) && RobsNobody(c, s, more)
    && x < |s.calls| && y < |s.calls| && x != y
    && Critical(Exec(c, s, more).calls[x].pc) && Critical(Exec(c, s, more).calls[y].pc)
  }

  ghost predicate LosesExclusion(c: Config, s: State) {
    exists more, x, y :: TwoHolders(c, s, more, x, y)
  }

  /** The caller that took over finds nothing verified and makes a lock of its own. */
  lemma TakerBecomesHolder(c: Config, s: State, p: nat, q: nat)
    requires p < |s.calls| && s.calls[p].pc == PollCheck && s.lock.None? && !FinalVerified(c, s.final)
    requires q < |s.calls| && q != p && Critical(s.calls[q].pc)
    ensures TwoHolders(c, s, [Check(p), Mkdir(p)], p, q)
  {
    var s1 := Goto(s, p, PollMkdir);
    assert s1 == After(c, s, Check(p));
    var s2 := After(c, s1, Mkdir(p));
    assert [Check(p), Mkdir(p)][1..] == [Mkdir(p)] && [Mkdir(p)][1..] == [];
    assert CanRun(c, s2, []) && Exec(c, s2, []) == s2;
    assert CanRun(c, s1, [Mkdir(p)]) && Exec(c, s1, [Mkdir(p)]) == s2;
    QuietRobsNobody(c, s, [Check(p), Mkdir(p)]);
  }

  /** A verified directory that no call is about to replace, no call about to make a lock, and at most one holder. */
  ghost predicate Calm(c: Config, s: State) {
    && FinalVerified(c, s.final)
    && (forall q :: 0 <= q < |s.calls| ==> !s.calls[q].pc.RemoveFinal? && !s.calls[q].pc.PollMkdir?)
    && (forall q, r :: 0 <= q < |s.calls| && 0 <= r < |s.calls| ==>
          Critical(s.calls[q].pc) && Critical(s.calls[r].pc) ==> q == r)
  }

  /** It stays so whatever happens: everybody finds the directory verified. */
  lemma CalmStep(c: Config, s: State, a: Action)
    requires Calm(c, s) && Enabled(c, s, a)
    ensures Calm(c, After(c, s, a))
  {
    NothingVacant(c, s);
    var s' := After(c, s, a);
    assert s'.final == s.final by {
      KeptStep(c, s, a);
    }
    forall q | 0 <= q < |s'.calls|
      ensures !s'.calls[q].pc.RemoveFinal? && !s'.calls[q].pc.PollMkdir?
      ensures Critical(s'.calls[q].pc) ==> Critical(s.calls[q].pc)
    {
      KeptStep(c, s, a);
      NoNewHolder(c, s, a, q);
    }
  }

  /** Who finds the directory verified goes for no lock. */
  lemma NoNewHolder(c: Config, s: State, a: Action, q: nat)
    requires FinalVerified(c, s.final) && Enabled(c, s, a) && q < |s.calls| && !s.calls[q].pc.PollMkdir?
    ensures var pc := After(c, s, a).calls[q].pc; !pc.PollMkdir? && (Critical(pc) ==> Critical(s.calls[q].pc))
  {
  }

  lemma NothingVacant(c: Config, s: State)
    requires FinalVerified(c, s.final)
    ensures !Vacant(s.final)
  {
    assert c.pins[0] in c.pins;
  }

  lemma {:induction false} CalmRun(c: Config, s: State, acts: seq<Action>)
    requires Calm(c, s) && CanRun(c, s, acts)
    ensures Calm(c, Exec(c, s, acts))
    decreases |acts|
  {
    if acts != [] {
      CalmStep(c, s, acts[0]);
      CalmRun(c, After(c, s, acts[0]), acts[1..]);
    }
  }

  /** Somebody does not mind that the directory is verified: it has looked already. */
  ghost predicate Committed(s: State) {
    exists q :: 0 <= q < |s.calls| && (s.calls[q].pc.RemoveFinal? || s.calls[q].pc.PollMkdir?)
  }

  /** A call that was about to make a lock makes it beside the holder that was robbed. */
  lemma MakerBecomesHolder(c: Config, s: State, x: nat, q: nat)
    requires x < |s.calls| && s.calls[x].pc == PollMkdir && s.lock.None?
    requires q < |s.calls| && Critical(s.calls[q].pc)
    ensures TwoHolders(c, s, [Mkdir(x)], x, q)
  {
    var s1 := After(c, s, Mkdir(x));
    assert [Mkdir(x)][1..] == [];
    assert CanRun(c, s1, []) && Exec(c, s1, []) == s1;
    assert CanRun(c, s, [Mkdir(x)]) && Exec(c, s, [Mkdir(x)]) == s1;
    QuietRobsNobody(c, s, [Mkdir(x)]);
  }

  /** A robbed holder that goes on removing the directory lets the caller that took over find nothing verified. */
  lemma RemoverLetsIn(c: Config, s: State, p: nat, q: nat)
    requires p < |s.calls| && s.calls[p].pc == PollCheck && s.lock.None? && FinalVerified(c, s.final)
    requires q < |s.calls| && s.calls[q].pc.RemoveFinal?
    ensures LosesExclusion(c, s)
  {
    var a := RemoveLeaf(q, c.pins[0].path);
    assert c.pins[0] in c.pins;
    var s1 := After(c, s, a);
    TakerBecomesHolder(c, s1, p, q);
    var more := [Check(p), Mkdir(p)];
    assert ([a] + more)[0] == a && ([a] + more)[1..] == more;
    assert TwoHolders(c, s, [a] + more, p, q);
  }

  /** In any state that keeps exclusion: an enabled takeover can lead to two holders, with nobody robbed later on, if
      and only if the lock is in use when it is removed, and the directory does not verify or somebody is committed
      all the same. */
  lemma TakeoverLosesExclusionExactly(c: Config, s: State, p: nat)
    requires LockOwned(s) && Enabled(c, s, TakeOver(p))
    ensures LosesExclusion(c, After(c, s, TakeOver(p))) <==>
      InUse(s) && (!FinalVerified(c, s.final) || Committed(s))
  {
    var s' := After(c, s, TakeOver(p));
    if !InUse(s) {
      LockOwnedStep(c, s, TakeOver(p));
      forall more, x, y ensures !TwoHolders(c, s', more, x, y) {
        if CanRun(c, s', more) && RobsNobody(c, s', more) {
          LockOwnedRun(c, s', more);
        }
      }
    } else if FinalVerified(c, s.final) && !Committed(s) {
      assert Calm(c, s') by {
        forall q | 0 <= q < |s'.calls| ensures !s'.calls[q].pc.RemoveFinal? && !s'.calls[q].pc.PollMkdir? {
          assert !s.calls[q].pc.RemoveFinal? && !s.calls[q].pc.PollMkdir?;
        }
      }
      forall more, x, y ensures !TwoHolders(c, s', more, x, y) {
        if CanRun(c, s', more) {
          CalmRun(c, s', more);
        }
      }
    } else {
      TakeoverLoses(c, s, p);
    }
  }

  lemma TakeoverLoses(c: Config, s: State, p: nat)
    requires Enabled(c, s, TakeOver(p)) && InUse(s) && (!FinalVerified(c, s.final) || Committed(s))
    ensures LosesExclusion(c, After(c, s, TakeOver(p)))
  {
    var s' := After(c, s, TakeOver(p));
    var q :| 0 <= q < |s.calls| && Critical(s.calls[q].pc);
    if !FinalVerified(c, s.final) {
      TakerBecomesHolder(c, s', p, q);
    } else {
      var x :| 0 <= x < |s.calls| && (s.calls[x].pc.RemoveFinal? || s.calls[x].pc.PollMkdir?);
      if s.calls[x].pc.RemoveFinal? {
        RemoverLetsIn(c, s', p, x);
      } else {
        MakerBecomesHolder(c, s', x, q);
      }
    }
  }

  /** So for every reachable state of a run that has robbed nobody. */
  lemma ReachableTakeover(c: Config, s0: State, acts: seq<Action>, p: nat)
    requires Init(s0) && CanRun(c, s0, acts) && RobsNobody(c, s0, acts)
    requires Enabled(c, Exec(c, s0, acts), TakeOver(p))
    ensures var s := Exec(c, s0, acts);
      LosesExclusion(c, After(c, s, TakeOver(p))) <==>
        Robs(s, TakeOver(p)) && (!FinalVerified(c, s.final) || Committed(s))
  {
    LockOwnedRun(c, s0, acts);
    TakeoverLosesExclusionExactly(c, Exec(c, s0, acts), p);
  }

  /** A call finds nothing verified and a stale lock. */
  lemma ApproachStale(c: Config, s0: State, s: State, p: nat) returns (k: Call)
    requires Reaches(c, NoNoise, s0, s) && p < |s.calls| && s.calls[p].pc == Idle && !FinalVerified(c, s.final)
    requires s.lock.Some? && Age(s, s.lock.value) > c.lockStaleMs
    ensures Reaches(c, NoNoise, s0, Put(s, p, k)) && k.pc == PollRemoveStale && k.tmp == s.calls[p].tmp
  {
    var deadline := Approach(c, NoNoise, s0, s, p);
    var s1 := Put(s, p, Call(PollMkdir, deadline, s.calls[p].tmp));
    FindStale(c, NoNoise, s0, s1, p);
    k := s1.calls[p].(pc := PollRemoveStale);
    assert Put(s1, p, k) == Put(s, p, k);
  }

  /** Two waiters that both saw one stale lock can end up holding it together: the slower removes the
      lock the faster has just made. */
  lemma TakeoverBreaksExclusion(c: Config) returns (s0: State, acts: seq<Action>)
    ensures Init(s0) && CanRun(c, s0, acts) && forall a :: a in acts ==> NoNoise(a)
    ensures var s := Exec(c, s0, acts); |s.calls| == 2 && Critical(s.calls[0].pc) && Critical(s.calls[1].pc)
  {
    var stale := Some(Lock(2, Some(0), 0));
    s0 := State([Call(Idle, 0, None), Call(Idle, 0, None)], None, stale, c.lockStaleMs + 1);
    Here(c, NoNoise, s0);
    var k0 := ApproachStale(c, s0, s0, 0);
    var s1 := Put(s0, 0, k0);
    var k1 := ApproachStale(c, s0, s1, 1);
    acts := BothSeize(c, s0, Put(s1, 1, k1));
  }

  lemma BothSeize(c: Config, s0: State, s: State) returns (acts: seq<Action>)
    requires Reaches(c, NoNoise, s0, s) && |s.calls| == 2 && s.final.None?
    requires s.calls[0].pc == PollRemoveStale && s.calls[1].pc == PollRemoveStale
    ensures CanRun(c, s0, acts) && forall a :: a in acts ==> NoNoise(a)
    ensures var s := Exec(c, s0, acts); |s.calls| == 2 && Critical(s.calls[0].pc) && Critical(s.calls[1].pc)
  {
    Seize(c, NoNoise, s0, s, 0);
    var s1 := Put(s, 0, s.calls[0].(pc := PollOwner)).(lock := Some(Lock(0, None, s.now)));
    Seize(c, NoNoise, s0, s1, 1);
    var s2 := Put(s1, 1, s1.calls[1].(pc := PollOwner)).(lock := Some(Lock(1, None, s1.now)));
    acts :| CanRun(c, s0, acts) && Exec(c, s0, acts) == s2 && forall a :: a in acts ==> NoNoise(a);
  }

  // ---- exactly when a verified directory can be lost ----

  /** Some run, with any takeovers and interferences in it, changes the directory. */
  ghost predicate CanBeLost(c: Config, s: State) {
    exists acts :: CanRun(c, s, acts) && Exec(c, s, acts).final != s.final
  }

  ghost predicate BeingRemoved(s: State) {
    exists q :: 0 <= q < |s.calls| && s.calls[q].pc.RemoveFinal?
  }

  lemma {:induction false} KeptRun(c: Config, s: State, acts: seq<Action>)
    requires FinalVerified(c, s.final) && !BeingRemoved(s) && CanRun(c, s, acts)
    ensures Exec(c, s, acts).final == s.final
    decreases |acts|
  {
    if acts != [] {
      KeptStep(c, s, acts[0]);
      KeptRun(c, After(c, s, acts[0]), acts[1..]);
    }
  }

  lemma KeptStep(c: Config, s: State, a: Action)
    requires FinalVerified(c, s.final) && !BeingRemoved(s) && Enabled(c, s, a)
    ensures After(c, s, a).final == s.final && !BeingRemoved(After(c, s, a))
  {
    NothingVacant(c, s);
    var s' := After(c, s, a);
    forall q | 0 <= q < |s'.calls| ensures !s'.calls[q].pc.RemoveFinal? {
      assert !s.calls[q].pc.RemoveFinal?;
    }
  }

  /** Whatever locks are robbed, before or after: a verified directory can be lost if and only if some call is already
      removing it. So a takeover at a verified directory never costs it; one before a publish does if the robbed
      holder gets to its removal first. */
  lemma LostExactly(c: Config, s: State)
    requires FinalVerified(c, s.final)
    ensures CanBeLost(c, s) <==> BeingRemoved(s)
  {
    if BeingRemoved(s) {
      var q :| 0 <= q < |s.calls| && s.calls[q].pc.RemoveFinal?;
      var a := RemoveLeaf(q, c.pins[0].path);
      assert c.pins[0] in c.pins;
      var s1 := After(c, s, a);
      assert [a][1..] == [] && CanRun(c, s1, []) && Exec(c, s1, []) == s1;
      assert CanRun(c, s, [a]) && Exec(c, s, [a]) == s1;
      assert c.pins[0].path !in s1.final.value;
    } else {
      forall acts | CanRun(c, s, acts) ensures Exec(c, s, acts).final == s.final {
        KeptRun(c, s, acts);
      }
    }
  }

  /** The first call holds the lock and is about to remove the old directory, and the lock has become stale. */
  lemma HolderStalls(c: Config, t: Tree) returns (s0: State, s: State)
    requires c.pins != [] && PinsGood(t, c.pins, c.sha)
    ensures Init(s0) && |s0.calls| == 2 && s0.final.None? && Reaches(c, NoNoise, s0, s)
    ensures |s.calls| == 2 && s.calls[0].pc == RemoveFinal(0) && s.calls[1] == Call(Idle, 0, None)
    ensures s.final.None? && s.lock.Some? && Age(s, s.lock.value) > c.lockStaleMs
  {
    var s2: State;
    s0, s2 := ReachHeld(c, NoNoise, None);
    var tmp := DownloadAll(c, NoNoise, s0, s2, 0, t);
    var s3 := Put(s2, 0, s2.calls[0].(pc := RemoveFinal(0), tmp := tmp));
    s := s3.(now := c.lockStaleMs + 1);
    Then(c, NoNoise, s0, s3, Tick(c.lockStaleMs + 1), s);
  }

  /** The second call takes the stale lock. */
  lemma OtherTakesLock(c: Config, s0: State, s: State) returns (s': State)
    requires Reaches(c, NoNoise, s0, s) && |s.calls| == 2 && s.calls[1] == Call(Idle, 0, None)
    requires s.final.None? && s.lock.Some? && Age(s, s.lock.value) > c.lockStaleMs
    ensures Reaches(c, NoNoise, s0, s') && |s'.calls| == 2 && s'.calls[0] == s.calls[0] && s'.final.None?
    ensures s'.calls[1].pc == HeldCheck && s'.calls[1].tmp.None?
  {
    var k := ApproachStale(c, s0, s, 1);
    var s2 := Put(s, 1, k);
    Seize(c, NoNoise, s0, s2, 1);
    var s3 := Put(s2, 1, k.(pc := PollOwner)).(lock := Some(Lock(1, None, s2.now)));
    s' := Put(s3, 1, k.(pc := HeldCheck)).(lock := Some(Lock(1, Some(s3.now), s2.now)));
    Then(c, NoNoise, s0, s3, WriteOwner(1), s');
  }

  /** It publishes its download. */
  lemma OtherPublishes(c: Config, s0: State, s: State) returns (s': State)
    requires Reaches(c, NoNoise, s0, s) && |s.calls| == 2 && s.final.None?
    requires s.calls[1].pc == RemoveFinal(0) && s.calls[1].tmp.Some?
    ensures Reaches(c, NoNoise, s0, s') && |s'.calls| == 2 && s'.calls[0] == s.calls[0]
    ensures s'.final == s.calls[1].tmp && s'.calls[1].pc == Release(Returned)
  {
    var s1 := Put(s, 1, s.calls[1].(pc := Publish(0)));
    Then(c, NoNoise, s0, s, RemoveDir(1), s1);
    s' := Put(s1, 1, s1.calls[1].(pc := Release(Returned), tmp := None)).(final := s.calls[1].tmp);
    Then(c, NoNoise, s0, s1, Rename(1), s');
  }

  /** It returns. */
  lemma OtherReturns(c: Config, s0: State, s: State)
    requires Reaches(c, NoNoise, s0, s) && |s.calls| == 2 && s.calls[1].pc == Release(Returned)
    ensures Reaches(c, NoNoise, s0, Put(s, 1, s.calls[1].(pc := Done(Returned))).(lock := None))
  {
    Then(c, NoNoise, s0, s, Unlock(1), Put(s, 1, s.calls[1].(pc := Done(Returned))).(lock := None));
  }

  /** The first call goes on with its removal. */
  lemma HolderRemoves(c: Config, s0: State, s: State, path: Path)
    requires Reaches(c, NoNoise, s0, s) && |s.calls| == 2 && s.calls[0].pc == RemoveFinal(0)
    requires s.final.Some? && path in s.final.value
    ensures Reaches(c, NoNoise, s0, s.(final := Some(s.final.value - {path})))
  {
    Then(c, NoNoise, s0, s, RemoveLeaf(0, path), s.(final := Some(s.final.value - {path})));
  }

  /** For all pins that some tree satisfies: from an empty place, a holder that is robbed before its removal goes on
      to delete the directory that the other call has published, and returned on. */
  lemma RobbedHolderDeletes(c: Config, t: Tree) returns (s0: State, acts: seq<Action>)
    requires c.pins != [] && PinsGood(t, c.pins, c.sha)
    ensures Init(s0) && s0.final.None? && CanRun(c, s0, acts) && forall a :: a in acts ==> NoNoise(a)
    ensures var s := Exec(c, s0, acts);
      |s.calls| == 2 && s.calls[1].pc == Done(Returned) && s.final.Some? && !FinalVerified(c, s.final)
  {
    var s: State;
    s0, s := HolderStalls(c, t);
    s := OtherTakesLock(c, s0, s);
    var tmp := DownloadAll(c, NoNoise, s0, s, 1, t);
    s := OtherPublishes(c, s0, Put(s, 1, s.calls[1].(pc := RemoveFinal(0), tmp := tmp)));
    OtherReturns(c, s0, s);
    s := Put(s, 1, s.calls[1].(pc := Done(Returned))).(lock := None);
    assert c.pins[0] in c.pins;
    HolderRemoves(c, s0, s, c.pins[0].path);
    s := s.(final := Some(s.final.value - {c.pins[0].path}));
    acts :| CanRun(c, s0, acts) && Exec(c, s0, acts) == s && forall a :: a in acts ==> NoNoise(a);
  }

  // ---- a verification that is not one atomic look ----

  /** One change the protocol can make to `finalDir`. */
  ghost predicate Evolves(c: Config, f: Option<Tree>, f': Option<Tree>) {
    || f' == f
    || (Vacant(f) && f' == None)
    || (f.Some? && exists p :: p in f.value && f' == Some(f.value - {p}))
    || FinalVerified(c, f')
  }

  lemma EveryActionEvolves(c: Config, original: Option<Tree>, s: State, a: Action)
    requires Safe(c, original, s) && Enabled(c, s, a)
    ensures Evolves(c, s.final, After(c, s, a).final)
  {
    if a.Rename? {
      assert CallSafe(c, s.calls[a.p]);
    } else if a.RemoveLeaf? {
      assert a.path in s.final.value;
    }
  }

  /** `hist[k]` is `finalDir` at moment `k`. */
  ghost predicate History(c: Config, hist: seq<Option<Tree>>) {
    hist != [] && forall k :: 0 <= k < |hist| - 1 ==> Evolves(c, hist[k], hist[k + 1])
  }

  ghost predicate PinGood(f: Option<Tree>, pin: Pin, sha: Bytes -> string) {
    f.Some? && PinsGood(f.value, [pin], sha)
  }

  /** A scan that looks at pin `i` at moment `at[i]`, lists the directory at the last moment, and
      finds nothing wrong. It starts at moment 0. A missing directory lists as empty. */
  ghost predicate CleanScan(c: Config, hist: seq<Option<Tree>>, at: seq<nat>) {
    && hist != [] && |at| == |c.pins| > 0
    && (forall i :: 0 <= i < |at| ==> at[i] < |hist| && PinGood(hist[at[i]], c.pins[i], c.sha))
    && (hist[|hist| - 1].Some? ==> NothingExtra(hist[|hist| - 1].value, c.pins))
  }

  ghost predicate SomeMomentVerified(c: Config, hist: seq<Option<Tree>>) {
    exists k :: 0 <= k < |hist| && FinalVerified(c, hist[k])
  }

  /** What the pinned files at moment `k` were, they already were at moment 0, unless a directory was
      published in between. */
  lemma {:induction false} PinWasThere(c: Config, hist: seq<Option<Tree>>, k: nat, pin: Pin)
    requires History(c, hist) && k < |hist| && !SomeMomentVerified(c, hist) && PinGood(hist[k], pin, c.sha)
    ensures PinGood(hist[0], pin, c.sha)
  {
    if k > 0 {
      assert Evolves(c, hist[k - 1], hist[k - 1 + 1]);
      assert pin in [pin];
      assert PinGood(hist[k - 1], pin, c.sha);
      PinWasThere(c, hist, k - 1, pin);
    }
  }

  lemma ScanFromNoDecoy(c: Config, hist: seq<Option<Tree>>, at: seq<nat>)
    requires History(c, hist) && CleanScan(c, hist, at) && !Decoy(c, hist[0])
    ensures SomeMomentVerified(c, hist)
  {
    if !SomeMomentVerified(c, hist) {
      forall i | 0 <= i < |c.pins| ensures PinGood(hist[0], c.pins[i], c.sha) {
        PinWasThere(c, hist, at[i], c.pins[i]);
      }
      assert hist[0].Some? by {
        assert PinGood(hist[0], c.pins[0], c.sha);
      }
      assert PinsGood(hist[0].value, c.pins, c.sha) by {
        forall f | f in c.pins ensures PinGood(hist[0], f, c.sha) && f in [f] {
          var i :| 0 <= i < |c.pins| && c.pins[i] == f;
        }
      }
    }
  }

  /** A removal of `t` that starts at `p`, step by step. */
  lemma {:induction false} Drain(c: Config, t: Tree) returns (hist: seq<Option<Tree>>)
    ensures |hist| > 0 && hist[0] == Some(t) && hist[|hist| - 1] == None && History(c, hist)
    ensures forall k :: 0 <= k < |hist| && hist[k].Some? ==> hist[k].value.Keys <= t.Keys
    decreases |t|
  {
    if t == map[] {
      hist := [Some(t), None];
    } else {
      var p :| p in t;
      assert (t - {p}).Keys == t.Keys - {p};
      var rest := Drain(c, t - {p});
      hist := [Some(t)] + rest;
      forall k | 0 <= k < |hist| - 1 ensures Evolves(c, hist[k], hist[k + 1]) {
        if k > 0 {
          assert Evolves(c, rest[k - 1], rest[k - 1 + 1]);
        }
      }
    }
  }

  /** From a decoy, a scan can pass although the directory never verified: it reads the pinned files,
      the holder removes everything, and the listing finds nothing left to object to. */
  lemma DecoyFoolsScan(c: Config, t: Tree) returns (hist: seq<Option<Tree>>, at: seq<nat>)
    requires Decoy(c, Some(t))
    ensures History(c, hist) && hist[0] == Some(t) && CleanScan(c, hist, at) && !SomeMomentVerified(c, hist)
  {
    var p := c.pins[0].path;
    assert c.pins[0] in c.pins;
    var rest := Drain(c, t - {p});
    hist := [Some(t)] + rest;
    at := seq(|c.pins|, i => 0);
    forall k | 0 <= k < |hist| - 1 ensures Evolves(c, hist[k], hist[k + 1]) {
      if k > 0 {
        assert Evolves(c, rest[k - 1], rest[k - 1 + 1]);
      }
    }
    forall k | 0 <= k < |hist| ensures !FinalVerified(c, hist[k]) {
      if k > 0 {
        assert hist[k] == rest[k - 1];
        assert rest[k - 1].Some? ==> p !in rest[k - 1].value;
      }
    }
  }

  /** Every passing scan from `f0` had a moment at which the directory verified. */
  ghost predicate ScanIsHonest(c: Config, f0: Option<Tree>) {
    forall hist, at :: History(c, hist) && hist[0] == f0 && CleanScan(c, hist, at) ==> SomeMomentVerified(c, hist)
  }

  /** Reading the files one after another is as good as one atomic look exactly when the scan does not
      start from a decoy: the same condition as for `ReturnsLast`. */
  lemma ScanIsHonestExactly(c: Config, f0: Option<Tree>)
    ensures ScanIsHonest(c, f0) <==> !Decoy(c, f0)
  {
    if Decoy(c, f0) {
      var hist, at := DecoyFoolsScan(c, f0.value);
    } else {
      forall hist, at | History(c, hist) && hist[0] == f0 && CleanScan(c, hist, at)
        ensures SomeMomentVerified(c, hist)
      {
        ScanFromNoDecoy(c, hist, at);
      }
    }
  }
}
