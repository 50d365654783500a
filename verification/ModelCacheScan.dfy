/** The model-cache protocol with a verification that takes time: a call reads the pinned files one after
    another and lists the directory last, while every other process goes on. */
module ModelCacheScan {
  import opened Basics
  import opened VerifyDir
  import opened ModelCache
  import opened ModelCacheLimits

  /** A verification under way: how many pinned files have been read, and whether all were right. `begun` (the
      directory when it started) and `met` (whether the directory has verified since) are history. */
  datatype Scan = Scan(next: nat, ok: bool, begun: Option<Tree>, met: bool)

  /** `saw` is history too: whether the directory has verified at a moment when the call was under way. */
  datatype Slow = Slow(s: State, scans: seq<Option<Scan>>, saw: seq<bool>)

  datatype Move =
    | Plain(a: Action)
    | Start(p: nat)
    | Look(p: nat)
    | Finish(p: nat)

  ghost predicate Shaped(w: Slow) {
    |w.scans| == |w.saw| == |w.s.calls|
  }

  /** A call in the middle of a scan does nothing else, unless the scan throws or the call dies. */
  ghost predicate Allowed(w: Slow, a: Action)
    requires Shaped(w)
  {
    && !a.Check?
    && (Actor(a) && a.p < |w.scans| && w.scans[a.p].Some? ==> a.CheckThrows? || a.Crash? || a.Heartbeat?)
  }

  ghost predicate CanMove(c: Config, w: Slow, m: Move) {
    && Shaped(w)
    && match m
       case Plain(a) => Enabled(c, w.s, a) && Allowed(w, a)
       case Start(p) => Enabled(c, w.s, Check(p)) && w.scans[p].None?
       case Look(p) => p < |w.scans| && w.scans[p].Some? && w.scans[p].value.next < |c.pins|
       case Finish(p) => p < |w.scans| && w.scans[p].Some? && w.scans[p].value.next == |c.pins|
  }

  /** The history after a step that leaves the state `s` and the scans `scans`. */
  ghost function Noted(c: Config, s: State, scans: seq<Option<Scan>>, saw: seq<bool>): (w: Slow)
    requires |scans| == |saw| == |s.calls|
    ensures Shaped(w) && w.s == s
  {
    var now := FinalVerified(c, s.final);
    Slow(
      s,
      seq(|scans|, q requires 0 <= q < |scans| =>
        if scans[q].Some? then Some(scans[q].value.(met := scans[q].value.met || now)) else None),
      seq(|saw|, q requires 0 <= q < |saw| => saw[q] || (Active(s.calls[q].pc) && now)))
  }

  /** What the scan answers when it lists the directory. */
  ghost predicate Answer(c: Config, sc: Scan, f: Option<Tree>) {
    sc.ok && c.pins != [] && (f.Some? ==> NothingExtra(f.value, c.pins))
  }

  ghost function Moved(c: Config, w: Slow, m: Move): (w': Slow)
    requires CanMove(c, w, m)
    ensures Shaped(w') && |w'.s.calls| == |w.s.calls|
  {
    match m
    case Plain(a) =>
      var scans := if a.CheckThrows? || a.Crash? then w.scans[a.p := None] else w.scans;
      Noted(c, After(c, w.s, a), scans, w.saw)
    case Start(p) =>
      Noted(c, w.s, w.scans[p := Some(Scan(0, true, w.s.final, false))], w.saw)
    case Look(p) =>
      var sc := w.scans[p].value;
      var good := sc.ok && PinGood(w.s.final, c.pins[sc.next], c.sha);
      Noted(c, w.s, w.scans[p := Some(sc.(next := sc.next + 1, ok := good))], w.saw)
    case Finish(p) =>
      var ok := Answer(c, w.scans[p].value, w.s.final);
      Noted(c, AfterCheck(c, w.s, p, ok), w.scans[p := None], w.saw)
  }

  ghost predicate CanGo(c: Config, w: Slow, ms: seq<Move>)
    decreases |ms|
  {
    ms == [] || (CanMove(c, w, ms[0]) && CanGo(c, Moved(c, w, ms[0]), ms[1..]))
  }

  ghost function Go(c: Config, w: Slow, ms: seq<Move>): (w': Slow)
    requires Shaped(w) && CanGo(c, w, ms)
    ensures Shaped(w') && |w'.s.calls| == |w.s.calls|
    decreases |ms|
  {
    if ms == [] then w else Go(c, Moved(c, w, ms[0]), ms[1..])
  }

  ghost predicate SlowInit(w: Slow) {
    Init(w.s) && Shaped(w) && forall q :: 0 <= q < |w.scans| ==> w.scans[q].None? && !w.saw[q]
  }

  // ---- publish safety ----

  lemma CheckSafe(c: Config, original: Option<Tree>, s: State, p: nat, ok: bool)
    requires Safe(c, original, s) && p < |s.calls|
    ensures Safe(c, original, AfterCheck(c, s, p, ok)) && AfterCheck(c, s, p, ok).final == s.final
  {
    var s' := AfterCheck(c, s, p, ok);
    forall q | 0 <= q < |s'.calls| ensures CallSafe(c, s'.calls[q]) {
      assert CallSafe(c, s.calls[q]);
    }
  }

  lemma SafeMove(c: Config, original: Option<Tree>, w: Slow, m: Move)
    requires CanMove(c, w, m) && Safe(c, original, w.s)
    ensures Safe(c, original, Moved(c, w, m).s)
  {
    match m
    case Plain(a) => SafeStep(c, original, w.s, a);
    case Finish(p) => CheckSafe(c, original, w.s, p, Answer(c, w.scans[p].value, w.s.final));
    case _ =>
  }

  lemma {:induction false} SafeGo(c: Config, original: Option<Tree>, w: Slow, ms: seq<Move>)
    requires Shaped(w) && CanGo(c, w, ms) && Safe(c, original, w.s)
    ensures Safe(c, original, Go(c, w, ms).s)
    decreases |ms|
  {
    if ms != [] {
      SafeMove(c, original, w, ms[0]);
      SafeGo(c, original, Moved(c, w, ms[0]), ms[1..]);
    }
  }

  /** However long the scans take, a reader sees nothing, or what is left of the original or of a verified tree. */
  lemma SlowReaderSeesOnlyOriginalOrVerified(c: Config, w: Slow, ms: seq<Move>)
    requires SlowInit(w) && CanGo(c, w, ms)
    ensures Explained(c, w.s.final, Go(c, w, ms).s.final)
  {
    InitSafe(c, w.s);
    SafeGo(c, w.s.final, w, ms);
  }

  // ---- a normal return was verified ----

  /** `f` is what removals have left of `b`. */
  ghost predicate Below(f: Option<Tree>, b: Option<Tree>) {
    f.None? || (b.Some? && Remnant(f.value, b.value))
  }

  /** What a scan has found, read against the directory it began with. */
  ghost predicate ScanKnows(c: Config, sc: Scan, f: Option<Tree>) {
    sc.met ||
    (&& !Decoy(c, sc.begun) && !FinalVerified(c, sc.begun) && Below(f, sc.begun) && sc.next <= |c.pins|
     && (sc.ok ==> forall i :: 0 <= i < sc.next ==> PinGood(sc.begun, c.pins[i], c.sha)))
  }

  predicate Checking(pc: Pc) { pc.FirstCheck? || pc.PollCheck? || pc.HeldCheck? || pc.Recheck? }

  ghost predicate CallKnows(c: Config, s: State, k: Call, scan: Option<Scan>, saw: bool) {
    && (Active(k.pc) && FinalVerified(c, s.final) ==> saw)
    && (Returning(k.pc) ==> saw)
    && (scan.Some? ==> Checking(k.pc) && ScanKnows(c, scan.value, s.final) && (scan.value.met ==> saw))
  }

  ghost predicate Knows(c: Config, original: Option<Tree>, w: Slow) {
    && Shaped(w) && Safe(c, original, w.s) && !Decoy(c, w.s.final)
    && forall q :: 0 <= q < |w.s.calls| ==> CallKnows(c, w.s, w.s.calls[q], w.scans[q], w.saw[q])
  }

  /** A scan that passes has a moment at which the directory verified. */
  lemma PassMeansMet(c: Config, sc: Scan, f: Option<Tree>)
    requires ScanKnows(c, sc, f) && sc.next == |c.pins| && Answer(c, sc, f)
    ensures sc.met
  {
    if !sc.met {
      assert PinGood(sc.begun, c.pins[0], c.sha);
      assert PinsGood(sc.begun.value, c.pins, c.sha) by {
        forall x | x in c.pins ensures PinGood(sc.begun, x, c.sha) && x in [x] {
          var i :| 0 <= i < |c.pins| && c.pins[i] == x;
        }
      }
    }
  }

  lemma LookedRight(c: Config, sc: Scan, f: Option<Tree>)
    requires ScanKnows(c, sc, f) && sc.next < |c.pins|
    ensures ScanKnows(c, sc.(next := sc.next + 1, ok := sc.ok && PinGood(f, c.pins[sc.next], c.sha)), f)
  {
    var pin := c.pins[sc.next];
    if !sc.met && PinGood(f, pin, c.sha) {
      assert pin in [pin];
      assert PinGood(sc.begun, pin, c.sha);
    }
  }

  lemma ScanEvolves(c: Config, sc: Scan, f: Option<Tree>, f': Option<Tree>)
    requires ScanKnows(c, sc, f) && Evolves(c, f, f')
    ensures ScanKnows(c, sc.(met := sc.met || FinalVerified(c, f')), f')
  {
  }

  /** A state in which every history is right up to the last look, and the looks of this step. */
  lemma NotedKnows(c: Config, f: Option<Tree>, s: State, scans: seq<Option<Scan>>, saw: seq<bool>, q: nat)
    requires |scans| == |saw| == |s.calls| && q < |s.calls| && Evolves(c, f, s.final)
    requires scans[q].Some? ==>
      Checking(s.calls[q].pc) && ScanKnows(c, scans[q].value, f) && (scans[q].value.met ==> saw[q])
    requires Returning(s.calls[q].pc) ==> saw[q] || (Active(s.calls[q].pc) && FinalVerified(c, s.final))
    ensures var w := Noted(c, s, scans, saw); CallKnows(c, s, s.calls[q], w.scans[q], w.saw[q])
  {
    if scans[q].Some? {
      ScanEvolves(c, scans[q].value, f, s.final);
    }
  }

  lemma PlainKnows(c: Config, original: Option<Tree>, w: Slow, a: Action)
    requires Knows(c, original, w) && CanMove(c, w, Plain(a))
    ensures Knows(c, original, Moved(c, w, Plain(a)))
  {
    var s' := After(c, w.s, a);
    SafeStep(c, original, w.s, a);
    NoDecoyStep(c, original, w.s, a);
    EveryActionEvolves(c, original, w.s, a);
    var scans := if a.CheckThrows? || a.Crash? then w.scans[a.p := None] else w.scans;
    forall q | 0 <= q < |s'.calls|
      ensures var w' := Moved(c, w, Plain(a)); CallKnows(c, s', s'.calls[q], w'.scans[q], w'.saw[q])
    {
      assert CallKnows(c, w.s, w.s.calls[q], w.scans[q], w.saw[q]);
      PlainReturn(c, original, w, a, q);
      PlainScan(c, w, a, q);
      NotedKnows(c, w.s.final, s', scans, w.saw, q);
    }
  }

  lemma PlainScan(c: Config, w: Slow, a: Action, q: nat)
    requires CanMove(c, w, Plain(a)) && q < |w.s.calls| && (w.scans[q].Some? ==> Checking(w.s.calls[q].pc))
    ensures w.scans[q].Some? ==>
      Checking(After(c, w.s, a).calls[q].pc) || ((a.CheckThrows? || a.Crash?) && a.p == q)
  {
  }

  lemma PlainReturn(c: Config, original: Option<Tree>, w: Slow, a: Action, q: nat)
    requires Knows(c, original, w) && CanMove(c, w, Plain(a)) && q < |w.s.calls|
    ensures var s' := After(c, w.s, a); var k := s'.calls[q].pc;
      Returning(k) ==> w.saw[q] || (Active(k) && FinalVerified(c, s'.final))
  {
    var s' := After(c, w.s, a);
    assert CallKnows(c, w.s, w.s.calls[q], w.scans[q], w.saw[q]);
    if Returning(s'.calls[q].pc) && !Returning(w.s.calls[q].pc) {
      assert CallSafe(c, w.s.calls[q]);
      TurnsToReturn(c, w.s, a, q);
    }
  }

  lemma FinishKnows(c: Config, original: Option<Tree>, w: Slow, p: nat)
    requires Knows(c, original, w) && CanMove(c, w, Finish(p))
    ensures Knows(c, original, Moved(c, w, Finish(p)))
  {
    var ok := Answer(c, w.scans[p].value, w.s.final);
    var s' := AfterCheck(c, w.s, p, ok);
    CheckSafe(c, original, w.s, p, ok);
    forall q | 0 <= q < |s'.calls|
      ensures var w' := Moved(c, w, Finish(p)); CallKnows(c, s', s'.calls[q], w'.scans[q], w'.saw[q])
    {
      assert CallKnows(c, w.s, w.s.calls[q], w.scans[q], w.saw[q]);
      if q == p && ok {
        PassMeansMet(c, w.scans[p].value, w.s.final);
      }
      NotedKnows(c, w.s.final, s', w.scans[p := None], w.saw, q);
    }
  }

  lemma StartKnows(c: Config, original: Option<Tree>, w: Slow, p: nat)
    requires Knows(c, original, w) && CanMove(c, w, Start(p))
    ensures Knows(c, original, Moved(c, w, Start(p)))
  {
    forall q | 0 <= q < |w.s.calls|
      ensures var w' := Moved(c, w, Start(p)); CallKnows(c, w.s, w.s.calls[q], w'.scans[q], w'.saw[q])
    {
      assert CallKnows(c, w.s, w.s.calls[q], w.scans[q], w.saw[q]);
      if q != p {
        NotedKnows(c, w.s.final, w.s, w.scans[p := Some(Scan(0, true, w.s.final, false))], w.saw, q);
      }
    }
  }

  lemma LookKnows(c: Config, original: Option<Tree>, w: Slow, p: nat)
    requires Knows(c, original, w) && CanMove(c, w, Look(p))
    ensures Knows(c, original, Moved(c, w, Look(p)))
  {
    var sc := w.scans[p].value;
    var looked := sc.(next := sc.next + 1, ok := sc.ok && PinGood(w.s.final, c.pins[sc.next], c.sha));
    forall q | 0 <= q < |w.s.calls|
      ensures var w' := Moved(c, w, Look(p)); CallKnows(c, w.s, w.s.calls[q], w'.scans[q], w'.saw[q])
    {
      assert CallKnows(c, w.s, w.s.calls[q], w.scans[q], w.saw[q]);
      if q == p {
        LookedRight(c, sc, w.s.final);
      }
      NotedKnows(c, w.s.final, w.s, w.scans[p := Some(looked)], w.saw, q);
    }
  }

  lemma KnowsMove(c: Config, original: Option<Tree>, w: Slow, m: Move)
    requires Knows(c, original, w) && CanMove(c, w, m)
    ensures Knows(c, original, Moved(c, w, m))
  {
    match m
    case Plain(a) => PlainKnows(c, original, w, a);
    case Start(p) => StartKnows(c, original, w, p);
    case Look(p) => LookKnows(c, original, w, p);
    case Finish(p) => FinishKnows(c, original, w, p);
  }

  lemma {:induction false} KnowsGo(c: Config, original: Option<Tree>, w: Slow, ms: seq<Move>)
    requires Knows(c, original, w) && CanGo(c, w, ms)
    ensures Knows(c, original, Go(c, w, ms))
    decreases |ms|
  {
    if ms != [] {
      KnowsMove(c, original, w, ms[0]);
      KnowsGo(c, original, Moved(c, w, ms[0]), ms[1..]);
    }
  }

  lemma InitKnows(c: Config, w0: Slow)
    requires SlowInit(w0) && !Decoy(c, w0.s.final)
    ensures Knows(c, w0.s.final, w0)
  {
    InitSafe(c, w0.s);
    forall q | 0 <= q < |w0.s.calls| ensures CallKnows(c, w0.s, w0.s.calls[q], w0.scans[q], w0.saw[q]) {
      assert w0.s.calls[q].pc == Idle;
    }
  }

  /** The history tells the truth: what `saw` notes has happened, after some `j` moves of the run. */
  lemma {:induction false} SawMoment(c: Config, w: Slow, ms: seq<Move>, p: nat) returns (j: nat)
    requires Shaped(w) && CanGo(c, w, ms) && p < |w.saw| && !w.saw[p] && Go(c, w, ms).saw[p]
    ensures j <= |ms| && CanGo(c, w, ms[..j])
    ensures var m := Go(c, w, ms[..j]).s; Active(m.calls[p].pc) && FinalVerified(c, m.final)
    decreases |ms|
  {
    var w' := Moved(c, w, ms[0]);
    if w'.saw[p] {
      assert ms[..1][1..] == [];
      j := 1;
    } else {
      j := SawMoment(c, w', ms[1..], p);
      j := j + 1;
      assert ms[..j][1..] == ms[1..][..j - 1];
    }
  }

  /** In any run from no decoy, with every verification a sequence of reads and other processes acting between
      them: a call that returned normally had the whole directory verified at some moment of that very call. */
  lemma SlowReturnWasVerified(c: Config, w0: Slow, ms: seq<Move>, p: nat) returns (j: nat)
    requires SlowInit(w0) && !Decoy(c, w0.s.final) && CanGo(c, w0, ms) && p < |w0.s.calls|
    requires Go(c, w0, ms).s.calls[p].pc == Done(Returned)
    ensures j <= |ms| && CanGo(c, w0, ms[..j])
    ensures var m := Go(c, w0, ms[..j]).s; Active(m.calls[p].pc) && FinalVerified(c, m.final)
  {
    InitKnows(c, w0);
    KnowsGo(c, w0.s.final, w0, ms);
    var w := Go(c, w0, ms);
    assert CallKnows(c, w.s, w.s.calls[p], w.scans[p], w.saw[p]);
    j := SawMoment(c, w0, ms, p);
  }

  // ---- exclusion and finality, in runs that rob nobody ----

  ghost predicate MoveRobs(w: Slow, m: Move) {
    m.Plain? && Robs(w.s, m.a)
  }

  ghost predicate GoRobsNobody(c: Config, w: Slow, ms: seq<Move>)
    requires CanGo(c, w, ms)
    decreases |ms|
  {
    ms == [] || (!MoveRobs(w, ms[0]) && GoRobsNobody(c, Moved(c, w, ms[0]), ms[1..]))
  }

  lemma LockOwnedMove(c: Config, w: Slow, m: Move)
    requires LockOwned(w.s) && CanMove(c, w, m) && !MoveRobs(w, m)
    ensures LockOwned(Moved(c, w, m).s)
  {
    match m
    case Plain(a) => LockOwnedStep(c, w.s, a);
    case _ =>
  }

  lemma {:induction false} LockOwnedGo(c: Config, w: Slow, ms: seq<Move>)
    requires Shaped(w) && LockOwned(w.s) && CanGo(c, w, ms) && GoRobsNobody(c, w, ms)
    ensures LockOwned(Go(c, w, ms).s)
    decreases |ms|
  {
    if ms != [] {
      LockOwnedMove(c, w, ms[0]);
      LockOwnedGo(c, Moved(c, w, ms[0]), ms[1..]);
    }
  }

  /** At most one call is between acquire and release, however long the verifications take. */
  lemma SlowMutualExclusion(c: Config, w0: Slow, ms: seq<Move>, p: nat, q: nat)
    requires SlowInit(w0) && CanGo(c, w0, ms) && GoRobsNobody(c, w0, ms)
    requires var s := Go(c, w0, ms).s;
      p < |s.calls| && q < |s.calls| && Critical(s.calls[p].pc) && Critical(s.calls[q].pc)
    ensures p == q
  {
    LockOwnedGo(c, w0, ms);
  }

  /** What a scan has found is what the directory holds now. */
  ghost predicate ScanTrue(c: Config, sc: Scan, f: Option<Tree>) {
    sc.next <= |c.pins| && (sc.ok <==> forall i :: 0 <= i < sc.next ==> PinGood(f, c.pins[i], c.sha))
  }

  /** The holder's own scan cannot be overtaken. */
  ghost predicate HolderKnows(c: Config, w: Slow)
    requires Shaped(w)
  {
    forall q :: 0 <= q < |w.s.calls| && Critical(w.s.calls[q].pc) && w.scans[q].Some? ==>
      ScanTrue(c, w.scans[q].value, w.s.final)
  }

  /** Once any call has seen the directory verified, it is so. */
  ghost predicate Settled(c: Config, w: Slow) {
    forall q :: 0 <= q < |w.saw| && w.saw[q] ==> FinalVerified(c, w.s.final)
  }

  ghost predicate SlowStable(c: Config, w: Slow) {
    Shaped(w) && Stable(c, w.s) && HolderKnows(c, w) && Settled(c, w)
  }

  lemma PlainStable(c: Config, original: Option<Tree>, w: Slow, a: Action)
    requires SlowStable(c, w) && Safe(c, original, w.s) && CanMove(c, w, Plain(a)) && !Robs(w.s, a)
    ensures SlowStable(c, Moved(c, w, Plain(a)))
  {
    var w' := Moved(c, w, Plain(a));
    StableStep(c, original, w.s, a);
    forall q | 0 <= q < |w'.s.calls| && Critical(w'.s.calls[q].pc) && w'.scans[q].Some?
      ensures ScanTrue(c, w'.scans[q].value, w'.s.final)
    {
      assert Critical(w.s.calls[q].pc) && w.scans[q].Some?;
      assert ScanTrue(c, w.scans[q].value, w.s.final);
      OnlyTheHolderChanges(c, w, a, q);
    }
  }

  lemma OnlyTheHolderChanges(c: Config, w: Slow, a: Action, q: nat)
    requires Shaped(w) && LockOwned(w.s) && CanMove(c, w, Plain(a))
    requires q < |w.s.calls| && Critical(w.s.calls[q].pc) && w.scans[q].Some?
    ensures After(c, w.s, a).final == w.s.final
  {
    if a.RemoveLeaf? || a.RemoveDir? || a.Rename? {
      assert Critical(w.s.calls[a.p].pc);
    }
  }

  /** A scan that the directory has stood still for answers what one look would. */
  lemma TrueAnswer(c: Config, sc: Scan, f: Option<Tree>)
    requires ScanTrue(c, sc, f) && sc.next == |c.pins| && FinalVerified(c, f)
    ensures Answer(c, sc, f)
  {
    forall i | 0 <= i < |c.pins| ensures PinGood(f, c.pins[i], c.sha) {
      assert c.pins[i] in c.pins;
    }
  }

  lemma FinishStable(c: Config, w: Slow, p: nat)
    requires SlowStable(c, w) && CanMove(c, w, Finish(p))
    ensures SlowStable(c, Moved(c, w, Finish(p)))
  {
    var w' := Moved(c, w, Finish(p));
    var sc := w.scans[p].value;
    if w.s.calls[p].pc.Recheck? && FinalVerified(c, w.s.final) {
      TrueAnswer(c, sc, w.s.final);
    }
    assert w'.s.final == w.s.final;
  }

  lemma LookStable(c: Config, w: Slow, p: nat)
    requires SlowStable(c, w) && CanMove(c, w, Look(p))
    ensures SlowStable(c, Moved(c, w, Look(p)))
  {
    var w' := Moved(c, w, Look(p));
    var sc, sc' := w.scans[p].value, w'.scans[p].value;
    if Critical(w.s.calls[p].pc) {
      assert ScanTrue(c, sc, w.s.final);
      assert ScanTrue(c, sc', w.s.final);
    }
  }

  lemma SlowStableMove(c: Config, original: Option<Tree>, w: Slow, m: Move)
    requires SlowStable(c, w) && Safe(c, original, w.s) && CanMove(c, w, m) && !MoveRobs(w, m)
    ensures SlowStable(c, Moved(c, w, m))
  {
    match m
    case Plain(a) => PlainStable(c, original, w, a);
    case Start(_) =>
    case Look(p) => LookStable(c, w, p);
    case Finish(p) => FinishStable(c, w, p);
  }

  lemma {:induction false} SlowStableGo(c: Config, original: Option<Tree>, w: Slow, ms: seq<Move>)
    requires SlowStable(c, w) && Safe(c, original, w.s) && CanGo(c, w, ms) && GoRobsNobody(c, w, ms)
    ensures SlowStable(c, Go(c, w, ms))
    decreases |ms|
  {
    if ms != [] {
      SafeMove(c, original, w, ms[0]);
      SlowStableMove(c, original, w, ms[0]);
      SlowStableGo(c, original, Moved(c, w, ms[0]), ms[1..]);
    }
  }

  /** Nobody robbed, and not from a decoy: after a normal return the directory verifies, although it was read file
      by file. */
  lemma SlowReturnStaysVerified(c: Config, w0: Slow, ms: seq<Move>, p: nat)
    requires SlowInit(w0) && !Decoy(c, w0.s.final) && CanGo(c, w0, ms) && GoRobsNobody(c, w0, ms)
    requires p < |w0.s.calls| && Go(c, w0, ms).s.calls[p].pc == Done(Returned)
    ensures FinalVerified(c, Go(c, w0, ms).s.final)
  {
    InitSafe(c, w0.s);
    InitKnows(c, w0);
    KnowsGo(c, w0.s.final, w0, ms);
    SlowStableGo(c, w0.s.final, w0, ms);
    var w := Go(c, w0, ms);
    assert CallKnows(c, w.s, w.s.calls[p], w.scans[p], w.saw[p]);
  }

  // ---- the atomic protocol is a special case ----

  lemma {:induction false} GoConcat(c: Config, w: Slow, a: seq<Move>, b: seq<Move>)
    requires Shaped(w) && CanGo(c, w, a) && CanGo(c, Go(c, w, a), b)
    ensures CanGo(c, w, a + b) && Go(c, w, a + b) == Go(c, Go(c, w, a), b)
    decreases |a|
  {
    if a == [] {
      assert a + b == b;
    } else {
      assert (a + b)[0] == a[0] && (a + b)[1..] == a[1..] + b;
      GoConcat(c, Moved(c, w, a[0]), a[1..], b);
    }
  }

  lemma GoThen(c: Config, w: Slow, ms: seq<Move>, m: Move) returns (ms': seq<Move>)
    requires Shaped(w) && CanGo(c, w, ms) && CanMove(c, Go(c, w, ms), m)
    ensures CanGo(c, w, ms') && Go(c, w, ms') == Moved(c, Go(c, w, ms), m)
  {
    var mid := Go(c, w, ms);
    assert [m][1..] == [];
    assert CanGo(c, mid, [m]) && Go(c, mid, [m]) == Moved(c, mid, m);
    GoConcat(c, w, ms, [m]);
    ms' := ms + [m];
  }

  /** What the scan of `p` finds when it reads every remaining file at once. */
  ghost predicate ReadOn(c: Config, w: Slow, p: nat, w': Slow) {
    && Shaped(w) && Shaped(w') && w'.s == w.s && p < |w.scans| && w.scans[p].Some? && w'.scans[p].Some?
    && var sc := w.scans[p].value; var sc' := w'.scans[p].value;
    && sc'.next == |c.pins|
    && (sc'.ok <==> sc.ok && forall i :: sc.next <= i < |c.pins| ==> PinGood(w.s.final, c.pins[i], c.sha))
    && (forall q :: 0 <= q < |w.scans| && q != p && w.scans[q].None? ==> w'.scans[q].None?)
    && (!FinalVerified(c, w.s.final) ==> w'.saw == w.saw && sc'.met == sc.met)
  }

  lemma {:induction false} LookAll(c: Config, w: Slow, p: nat) returns (ms: seq<Move>)
    requires Shaped(w) && p < |w.scans| && w.scans[p].Some? && w.scans[p].value.next <= |c.pins|
    ensures CanGo(c, w, ms) && ReadOn(c, w, p, Go(c, w, ms))
    decreases |c.pins| - w.scans[p].value.next
  {
    if w.scans[p].value.next == |c.pins| {
      ms := [];
    } else {
      var w1 := Moved(c, w, Look(p));
      var rest := LookAll(c, w1, p);
      ms := [Look(p)] + rest;
      assert ms[1..] == rest;
      assert !FinalVerified(c, w.s.final) ==> w1.saw == w.saw;
    }
  }

  ghost predicate NoScan(w: Slow) {
    Shaped(w) && forall q :: 0 <= q < |w.scans| ==> w.scans[q].None?
  }

  lemma AllGood(c: Config, f: Option<Tree>)
    requires c.pins != [] && forall i :: 0 <= i < |c.pins| ==> PinGood(f, c.pins[i], c.sha)
    ensures f.Some? && PinsGood(f.value, c.pins, c.sha)
  {
    assert PinGood(f, c.pins[0], c.sha);
    forall x | x in c.pins ensures PinGood(f, x, c.sha) && x in [x] {
      var i :| 0 <= i < |c.pins| && c.pins[i] == x;
    }
  }

  /** A scan that nothing comes between answers what one look would. */
  lemma AnswerIsLook(c: Config, sc: Scan, f: Option<Tree>)
    requires ScanTrue(c, sc, f) && sc.next == |c.pins|
    ensures Answer(c, sc, f) <==> FinalVerified(c, f)
  {
    if FinalVerified(c, f) {
      TrueAnswer(c, sc, f);
    } else if Answer(c, sc, f) {
      AllGood(c, f);
    }
  }

  lemma ScanAlone(c: Config, w: Slow, p: nat) returns (ms: seq<Move>, sc: Scan)
    requires NoScan(w) && Enabled(c, w.s, Check(p))
    ensures CanGo(c, w, ms)
    ensures var w' := Go(c, w, ms);
      && w'.s == w.s && w'.scans[p] == Some(sc) && sc.next == |c.pins| && ScanTrue(c, sc, w.s.final)
      && forall q :: 0 <= q < |w'.scans| && q != p ==> w'.scans[q].None?
  {
    ms := GoThen(c, w, [], Start(p));
    var looks := LookAll(c, Go(c, w, ms), p);
    GoConcat(c, w, ms, looks);
    ms := ms + looks;
    sc := Go(c, w, ms).scans[p].value;
  }

  /** One atomic look, as a scan that nothing comes between. */
  lemma AtomicCheck(c: Config, w: Slow, p: nat) returns (ms: seq<Move>)
    requires NoScan(w) && Enabled(c, w.s, Check(p))
    ensures CanGo(c, w, ms) && Go(c, w, ms).s == After(c, w.s, Check(p)) && NoScan(Go(c, w, ms))
  {
    var sc: Scan;
    ms, sc := ScanAlone(c, w, p);
    AnswerIsLook(c, sc, w.s.final);
    ms := GoThen(c, w, ms, Finish(p));
  }

  /** Every run of the protocol with atomic verifications is a run of this one. */
  lemma {:induction false} AtomicRunsAreRuns(c: Config, w: Slow, acts: seq<Action>) returns (ms: seq<Move>)
    requires NoScan(w) && CanRun(c, w.s, acts)
    ensures CanGo(c, w, ms) && Go(c, w, ms).s == Exec(c, w.s, acts) && NoScan(Go(c, w, ms))
    decreases |acts|
  {
    if acts == [] {
      ms := [];
    } else {
      if acts[0].Check? {
        ms := AtomicCheck(c, w, acts[0].p);
      } else {
        ms := GoThen(c, w, [], Plain(acts[0]));
      }
      var rest := AtomicRunsAreRuns(c, Go(c, w, ms), acts[1..]);
      GoConcat(c, w, ms, rest);
      ms := ms + rest;
    }
  }

  // ---- exactly when a normal return means a verified moment ----

  /** After some `j` moves call `p` was under way and the directory verified. */
  ghost predicate MomentSeen(c: Config, w0: Slow, ms: seq<Move>, p: nat, j: nat)
    requires Shaped(w0) && p < |w0.s.calls|
  {
    && j <= |ms| && CanGo(c, w0, ms[..j])
    && var m := Go(c, w0, ms[..j]).s; Active(m.calls[p].pc) && FinalVerified(c, m.final)
  }

  ghost predicate SlowReturns(c: Config, f0: Option<Tree>, w0: Slow, ms: seq<Move>, p: nat) {
    && SlowInit(w0) && w0.s.final == f0 && CanGo(c, w0, ms)
    && p < |w0.s.calls| && Go(c, w0, ms).s.calls[p].pc == Done(Returned)
  }

  /** Every normal return in a run from `f0` had a verified moment. */
  ghost predicate ReturnsHonestly(c: Config, f0: Option<Tree>) {
    forall w0: Slow, ms, p: nat :: SlowReturns(c, f0, w0, ms, p) ==> exists j: nat :: MomentSeen(c, w0, ms, p, j)
  }

  lemma {:induction false} SawStays(c: Config, w: Slow, ms: seq<Move>, p: nat)
    requires Shaped(w) && CanGo(c, w, ms) && p < |w.saw| && w.saw[p]
    ensures Go(c, w, ms).saw[p]
    decreases |ms|
  {
    if ms != [] {
      SawStays(c, Moved(c, w, ms[0]), ms[1..], p);
    }
  }

  lemma {:induction false} SeenIsNoted(c: Config, w: Slow, ms: seq<Move>, p: nat, j: nat)
    requires Shaped(w) && CanGo(c, w, ms) && p < |w.s.calls| && 0 < j && MomentSeen(c, w, ms, p, j)
    ensures Go(c, w, ms).saw[p]
    decreases |ms|
  {
    var w' := Moved(c, w, ms[0]);
    assert ms[..j][1..] == ms[1..][..j - 1];
    if j == 1 {
      assert ms[..1][1..] == [];
      assert Go(c, w, ms[..1]) == w';
      SawStays(c, w', ms[1..], p);
    } else {
      SeenIsNoted(c, w', ms[1..], p, j - 1);
    }
  }

  lemma IdleStep(c: Config, w: Slow, m: Move, p: nat)
    requires CanMove(c, w, m) && p < |w.saw| && (w.s.calls[p].pc == Idle ==> !w.saw[p])
    ensures Moved(c, w, m).s.calls[p].pc == Idle ==> !Moved(c, w, m).saw[p]
  {
    var w' := Moved(c, w, m);
    match m
    case Plain(a) =>
      if w'.s.calls[p].pc == Idle {
        BackToIdle(c, w.s, a, p);
      }
    case _ =>
  }

  lemma BackToIdle(c: Config, s: State, a: Action, p: nat)
    requires Enabled(c, s, a) && p < |s.calls| && After(c, s, a).calls[p].pc == Idle
    ensures s.calls[p].pc == Idle
  {
  }

  lemma {:induction false} IdleSawNothing(c: Config, w: Slow, ms: seq<Move>, p: nat)
    requires Shaped(w) && CanGo(c, w, ms) && p < |w.saw| && Go(c, w, ms).s.calls[p].pc == Idle
    requires w.s.calls[p].pc == Idle ==> !w.saw[p]
    ensures !Go(c, w, ms).saw[p]
    decreases |ms|
  {
    if ms != [] {
      IdleStep(c, w, ms[0], p);
      IdleSawNothing(c, Moved(c, w, ms[0]), ms[1..], p);
    }
  }

  /** The holder removes everything while another call is between its reads and its listing. */
  ghost predicate Removing(w: Slow, sc: Scan) {
    && Shaped(w) && |w.s.calls| == 2 && w.s.calls[0].pc.RemoveFinal? && w.s.calls[1].pc == FirstCheck
    && w.scans[0].None? && w.scans[1] == Some(sc) && !w.saw[1] && w.s.final.Some?
  }

  lemma {:induction false} RemoveRest(c: Config, w: Slow, sc: Scan) returns (ms: seq<Move>)
    requires Removing(w, sc) && c.pins != [] && c.pins[0].path !in w.s.final.value && !sc.met
    ensures CanGo(c, w, ms) && Removing(Go(c, w, ms), sc) && Go(c, w, ms).s.final == Some(map[])
    decreases |w.s.final.value|
  {
    var t := w.s.final.value;
    if t == map[] {
      ms := [];
    } else {
      var p :| p in t;
      var m := Plain(RemoveLeaf(0, p));
      var w1 := Moved(c, w, m);
      NotWhole(c, t - {p});
      var rest := RemoveRest(c, w1, sc);
      ms := [m] + rest;
      assert ms[1..] == rest;
    }
  }

  lemma NotWhole(c: Config, t: Tree)
    requires c.pins != [] && c.pins[0].path !in t
    ensures !FinalVerified(c, Some(t))
  {
    assert c.pins[0] in c.pins;
  }

  /** The holder is about to remove a decoy, and the other call has not begun. */
  ghost predicate DecoyHeld(c: Config, w: Slow) {
    && NoScan(w) && |w.s.calls| == 2 && Decoy(c, w.s.final)
    && w.s.calls[0].pc.RemoveFinal? && w.s.calls[1].pc == Idle && !w.saw[1]
  }

  /** The slow reader starts its scan and reads every pinned file of the decoy. */
  lemma ReadDecoy(c: Config, w: Slow) returns (ms: seq<Move>, sc: Scan)
    requires DecoyHeld(c, w)
    ensures CanGo(c, w, ms) && Removing(Go(c, w, ms), sc) && Go(c, w, ms).s.final == w.s.final
    ensures sc.ok && sc.next == |c.pins| && !sc.met
  {
    ms := BeginScan(c, w);
    var w1 := Go(c, w, ms);
    var looks := LookAll(c, w1, 1);
    GoConcat(c, w, ms, looks);
    ms := ms + looks;
    sc := Go(c, w, ms).scans[1].value;
    forall i | 0 <= i < |c.pins| ensures PinGood(w.s.final, c.pins[i], c.sha) {
      assert c.pins[i] in c.pins;
    }
  }

  lemma BeginScan(c: Config, w: Slow) returns (ms: seq<Move>)
    requires DecoyHeld(c, w)
    ensures CanGo(c, w, ms) && Go(c, w, ms).s.final == w.s.final
    ensures Removing(Go(c, w, ms), Scan(0, true, w.s.final, false))
  {
    var w1 := Moved(c, w, Plain(Begin(1)));
    assert Removing(Moved(c, w1, Start(1)), Scan(0, true, w.s.final, false));
    ms := [Plain(Begin(1)), Start(1)];
    assert ms[1..] == [Start(1)] && ms[1..][1..] == [];
    var w2 := Moved(c, w1, Start(1));
    assert CanGo(c, w2, []) && Go(c, w2, []) == w2;
    assert CanGo(c, w1, [Start(1)]) && Go(c, w1, [Start(1)]) == w2;
  }

  /** The pinned files were right when they were read, and nothing is left to object to when the directory is
      listed. */
  lemma FinishOverNothing(c: Config, w: Slow, sc: Scan)
    requires Removing(w, sc) && sc.ok && sc.next == |c.pins| > 0 && w.s.final == Some(map[])
    ensures CanMove(c, w, Finish(1))
    ensures var w' := Moved(c, w, Finish(1)); w'.s.calls[1].pc == Done(Returned) && !w'.saw[1]
  {
    NotWhole(c, map[]);
  }

  lemma RemoveFirst(c: Config, w: Slow, sc: Scan)
    requires Removing(w, sc) && !sc.met && Decoy(c, w.s.final)
    ensures CanMove(c, w, Plain(RemoveLeaf(0, c.pins[0].path)))
    ensures var w' := Moved(c, w, Plain(RemoveLeaf(0, c.pins[0].path)));
      Removing(w', sc) && c.pins[0].path !in w'.s.final.value
  {
    var p := c.pins[0].path;
    assert c.pins[0] in c.pins;
    NotWhole(c, w.s.final.value - {p});
  }

  lemma HoldDecoy(c: Config, t: Tree) returns (w0: Slow, ms: seq<Move>)
    requires Decoy(c, Some(t))
    ensures SlowInit(w0) && w0.s.final == Some(t) && |w0.s.calls| == 2
    ensures CanGo(c, w0, ms) && DecoyHeld(c, Go(c, w0, ms))
  {
    var s0, s := ReachRemoval(c, t);
    var acts :| CanRun(c, s0, acts) && Exec(c, s0, acts) == s && forall a :: a in acts ==> QuietAction(a);
    w0 := Slow(s0, [None, None], [false, false]);
    ms := AtomicRunsAreRuns(c, w0, acts);
    IdleSawNothing(c, w0, ms, 1);
  }

  lemma FoolTheOther(c: Config, w: Slow) returns (ms: seq<Move>)
    requires DecoyHeld(c, w)
    ensures CanGo(c, w, ms)
    ensures var w' := Go(c, w, ms); w'.s.calls[1].pc == Done(Returned) && !w'.saw[1]
  {
    var sc: Scan;
    ms, sc := ReadDecoy(c, w);
    RemoveFirst(c, Go(c, w, ms), sc);
    ms := GoThen(c, w, ms, Plain(RemoveLeaf(0, c.pins[0].path)));
    var rest := RemoveRest(c, Go(c, w, ms), sc);
    GoConcat(c, w, ms, rest);
    FinishOverNothing(c, Go(c, w, ms + rest), sc);
    ms := GoThen(c, w, ms + rest, Finish(1));
  }

  /** From any decoy a call can return normally although the directory never verified while it was under way. */
  lemma DecoyReturnsUnseen(c: Config, t: Tree) returns (w0: Slow, ms: seq<Move>)
    requires Decoy(c, Some(t))
    ensures SlowReturns(c, Some(t), w0, ms, 1) && !Go(c, w0, ms).saw[1]
  {
    w0, ms := HoldDecoy(c, t);
    var more := FoolTheOther(c, Go(c, w0, ms));
    GoConcat(c, w0, ms, more);
    ms := ms + more;
  }

  /** A normal return means a verified moment, however the reads fall, exactly when the run does not start from a
      decoy. */
  lemma ReturnsHonestlyExactly(c: Config, f0: Option<Tree>)
    ensures ReturnsHonestly(c, f0) <==> !Decoy(c, f0)
  {
    if Decoy(c, f0) {
      var w0, ms := DecoyReturnsUnseen(c, f0.value);
      forall j: nat ensures !MomentSeen(c, w0, ms, 1, j) {
        if MomentSeen(c, w0, ms, 1, j) {
          assert j > 0;
          SeenIsNoted(c, w0, ms, 1, j);
        }
      }
    } else {
      forall w0: Slow, ms, p: nat | SlowReturns(c, f0, w0, ms, p) ensures exists j: nat :: MomentSeen(c, w0, ms, p, j) {
        var j := SlowReturnWasVerified(c, w0, ms, p);
        assert MomentSeen(c, w0, ms, p, j);
      }
    }
  }
}
