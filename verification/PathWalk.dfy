/** `open_parent_with`: the no-follow walk to the parent of a path, with a pinned directory on the way,
    while other processes change the file system at will. */
module PathWalk {
  import opened Basics
  import opened Kernels

  datatype Pin = Pin(dir: string, id: Id)

  datatype PathError = Traversal | Empty | NotAncestor | Denied | Unpinned | CreateFailed

  // ---- path components ----

  /** `s.split('/')`. */
  function Split(s: string): (r: seq<string>)
    ensures r != []
    ensures forall c :: c in r ==> '/' !in c
  {
    if s == "" then [""]
    else
      var rest := Split(s[1..]);
      if s[0] == '/' then [""] + rest else [[s[0]] + rest[0]] + rest[1..]
  }

  function Kept(parts: seq<string>): (r: seq<string>)
    ensures forall c :: c in r <==> c in parts && c != "" && c != "."
  {
    if parts == [] then []
    else if parts[0] == "" || parts[0] == "." then Kept(parts[1..])
    else [parts[0]] + Kept(parts[1..])
  }

  /** A name that `openat` looks up in one directory and nowhere else. */
  predicate Proper(c: string) {
    c != "" && c != "." && c != ".." && '/' !in c
  }

  method Components(abs: string) returns (r: Result<seq<string>, PathError>)
    ensures r.Success? <==> ".." !in Split(abs) && Kept(Split(abs)) != []
    ensures r.Success? ==> r.value == Kept(Split(abs)) && forall c :: c in r.value ==> Proper(c)
    ensures r.Failure? ==> r.error == if ".." in Split(abs) then Traversal else Empty
  {
    var parts := Split(abs);
    var out := [];
    for i := 0 to |parts|
      invariant ".." !in parts[..i]
      invariant out + Kept(parts[i..]) == Kept(parts)
    {
      var c := parts[i];
      assert parts[i..][1..] == parts[i + 1..];
      assert parts[..i + 1] == parts[..i] + [c];
      if c == "" || c == "." {
        continue;
      }
      if c == ".." {
        assert c in parts;
        return Failure(Traversal);
      }
      out := out + [c];
    }
    assert parts[..|parts|] == parts;
    if |out| == 0 {
      return Failure(Empty);
    }
    r := Success(out);
  }

  function Join(comps: seq<string>): string {
    if comps == [] then "" else "/" + comps[0] + Join(comps[1..])
  }

  lemma {:induction false} SplitWord(c: string, rest: string)
    requires '/' !in c && (rest == "" || rest[0] == '/')
    ensures Split(c + rest) == [c] + Split(rest)[1..]
  {
    if c == "" {
      assert c + rest == rest;
      assert Split(rest)[0] == "";
    } else {
      assert (c + rest)[1..] == c[1..] + rest;
      SplitWord(c[1..], rest);
      assert [c[0]] + c[1..] == c;
    }
  }

  function WithSlashes(parts: seq<string>): string {
    if parts == [] then "" else if |parts| == 1 then parts[0] else parts[0] + "/" + WithSlashes(parts[1..])
  }

  /** Splitting loses nothing: putting the slashes back gives the string. */
  lemma {:induction false} SplitKeepsAll(s: string)
    ensures WithSlashes(Split(s)) == s
  {
    if s != "" {
      var rest := Split(s[1..]);
      SplitKeepsAll(s[1..]);
      assert Split(s)[1..] == if s[0] == '/' then rest else rest[1..];
      assert s == [s[0]] + s[1..];
    }
  }

  /** Splitting an absolute path undoes joining its components. */
  lemma {:induction false} ComponentsOfJoin(comps: seq<string>)
    requires forall c :: c in comps ==> Proper(c)
    ensures Kept(Split(Join(comps))) == comps && ".." !in Split(Join(comps))
    ensures Split(Join(comps))[0] == ""
  {
    if comps != [] {
      assert Proper(comps[0]);
      var tail := comps[0] + Join(comps[1..]);
      assert Join(comps) == "/" + tail;
      assert Join(comps)[1..] == tail;
      assert Join(comps[1..]) == "" || Join(comps[1..])[0] == '/';
      SplitWord(comps[0], Join(comps[1..]));
      ComponentsOfJoin(comps[1..]);
      var rest := Split(Join(comps[1..]));
      assert Kept(rest) == Kept(rest[1..]);
      assert Split(tail) == [comps[0]] + rest[1..];
      assert Split(Join(comps)) == [""] + Split(tail);
      assert Kept([""] + Split(tail)) == Kept(Split(tail)) by {
        assert ([""] + Split(tail))[1..] == Split(tail);
      }
      assert Split(tail)[0] == comps[0] && Split(tail)[1..] == rest[1..];
    }
  }

  /** The pin names a strict ancestor of the leaf. */
  predicate PinFits(comps: seq<string>, pin: Pin) {
    var dir := Kept(Split(pin.dir));
    ".." !in Split(pin.dir) && 0 < |dir| < |comps| && dir == comps[..|dir|]
  }

  method PinnedDepth(comps: seq<string>, pin: Pin) returns (r: Result<nat, PathError>)
    requires forall c :: c in comps ==> Proper(c)
    ensures r.Success? <==> PinFits(comps, pin)
    ensures r.Success? ==> r.value == |Kept(Split(pin.dir))|
  {
    var dir := Components(pin.dir);
    if dir.Failure? {
      return Failure(dir.error);
    }
    if |dir.value| >= |comps| || comps[..|dir.value|] != dir.value {
      return Failure(NotAncestor);
    }
    r := Success(|dir.value|);
  }

  // ---- the walk ----

  /** The directories `fds` were opened one from the other, each as a real directory entry of the one
      before at the moment `at[i]` of our log. */
  ghost predicate OpenedInTurn(log: seq<Event>, comps: seq<string>, fds: seq<Id>, at: seq<nat>) {
    && 0 < |fds| == |at| + 1 <= |comps| + 1
    && fds[0] == ROOT
    && (forall i :: 0 <= i < |at| ==>
          && at[i] < |log|
          && log[at[i]].call == OpenDir(fds[i], comps[i])
          && ChildDir(log[at[i]].before, fds[i], comps[i], fds[i + 1]))
    && (forall i, j :: 0 <= i < j < |at| ==> at[i] < at[j])
  }

  /** Between moments `from` and `to` the identity of the pinned directory was checked, and held. */
  ghost predicate Checked(log: seq<Event>, from: nat, to: nat, pin: Pin) {
    exists f :: from < f < to <= |log| && IdentityHeld(log[f], pin)
  }

  predicate IdentityHeld(e: Event, pin: Pin) {
    e.call == Fstat(pin.id) && e.reply.Ok? && e.reply.id == pin.id
  }

  /** Descriptor `fd` is one of `fds`, at or below the pinned directory, which had been opened, and after that
      found to be the pinned inode, before moment `j`. */
  ghost predicate AtOrBelowPin(log: seq<Event>, fd: Id, j: nat, fds: seq<Id>, at: seq<nat>, pin: Option<Pin>,
                               depth: nat)
    requires |fds| == |at| + 1
  {
    if pin.None? then fd in fds
    else
      && 0 < depth < |fds|
      && fds[depth] == pin.value.id
      && Checked(log, at[depth - 1], j, pin.value)
      && fd in fds[depth..]
  }

  /** What a walk asks of the kernel. */
  predicate WalkCall(call: Syscall) { call.OpenDir? || call.Mkdir? || call.Fstat? }

  /** Since `start` we have made no other call. */
  ghost predicate OnlyWalks(log: seq<Event>, start: nat) {
    forall j :: start <= j < |log| ==> WalkCall(log[j].call)
  }

  lemma WalksThen(a: seq<Event>, b: seq<Event>, start: nat)
    requires OnlyWalks(a, start) && a <= b && OnlyWalks(b, |a|)
    ensures OnlyWalks(b, start)
  {
    assert forall j :: 0 <= j < |a| ==> b[j] == a[j];
  }

  ghost predicate NothingMade(log: seq<Event>, start: nat) {
    forall j :: start <= j < |log| ==> !log[j].call.Mkdir?
  }

  /** What a walk that got as far as `fds` did, since `start`, whatever other processes did meanwhile:
      it opened `fds` one from the other; if it got past component `depth`, what it opened there is the
      pinned inode; it made directories only at or below the pinned one, and none before the check. */
  ghost predicate Walked(log: seq<Event>, start: nat, comps: seq<string>, fds: seq<Id>, at: seq<nat>,
                         pin: Option<Pin>, depth: nat, create: bool) {
    && OpenedInTurn(log, comps, fds, at)
    && (forall i :: 0 <= i < |at| ==> at[i] >= start)
    && (pin.Some? && |fds| > depth > 0 ==>
        fds[depth] == pin.value.id && Checked(log, at[depth - 1], |log|, pin.value))
    && (!create || (pin.Some? && |fds| <= depth) ==> NothingMade(log, start))
    && (forall j :: start <= j < |log| && log[j].call.Mkdir? ==>
        AtOrBelowPin(log, log[j].call.dir, j, fds, at, pin, depth))
  }

  /** Resolution of a path from the root through real directories only, on one still file system. */
  function ResolveDir(fs: Fs, comps: seq<string>): Option<Id> {
    if comps == [] then Some(ROOT)
    else
      match ResolveDir(fs, comps[..|comps| - 1])
      case None => None
      case Some(d) =>
        match Bound(fs, d, comps[|comps| - 1])
        case None => None
        case Some(id) => if IsDir(fs, id) then Some(id) else None
  }

  ghost predicate Chain(fs: Fs, comps: seq<string>, fds: seq<Id>) {
    && 0 < |fds| <= |comps| + 1
    && fds[0] == ROOT
    && forall i :: 0 <= i < |fds| - 1 ==> ChildDir(fs, fds[i], comps[i], fds[i + 1])
  }

  lemma {:induction false} ChainResolves(fs: Fs, comps: seq<string>, fds: seq<Id>)
    requires Chain(fs, comps, fds)
    ensures ResolveDir(fs, comps[..|fds| - 1]) == Some(fds[|fds| - 1])
  {
    var n := |fds| - 1;
    if n > 0 {
      ChainResolves(fs, comps, fds[..n]);
      assert comps[..n][..n - 1] == comps[..n - 1];
      assert ChildDir(fs, fds[n - 1], comps[n - 1], fds[n]);
    }
  }

  lemma {:induction false} PrefixUnresolved(fs: Fs, comps: seq<string>, n: nat)
    requires n <= |comps| && ResolveDir(fs, comps[..n]).None?
    ensures ResolveDir(fs, comps).None?
    decreases |comps|
  {
    if n < |comps| {
      assert comps[..|comps| - 1][..n] == comps[..n];
      PrefixUnresolved(fs, comps[..|comps| - 1], n);
    } else {
      assert comps[..n] == comps;
    }
  }

  predicate NoSuchDir(fs: Fs, dir: Id, name: string) {
    Bound(fs, dir, name).Some? ==> !IsDir(fs, Bound(fs, dir, name).value)
  }

  // ---- what a walk leaves, with nobody else acting ----

  predicate Outlives(a: Inode, b: Inode) {
    if a.Dir? then b.Dir? && forall n :: n in a.entries ==> n in b.entries && b.entries[n] == a.entries[n]
    else b == a
  }

  /** Files are as they were, directories have at least their entries, and whatever is new is a directory. */
  ghost predicate Grows(f: Fs, g: Fs) {
    && (forall id :: id in f ==> id in g && Outlives(f[id], g[id]))
    && (forall id :: id in g && id !in f ==> g[id].Dir?)
  }

  lemma GrowsOn(f: Fs, g: Fs, h: Fs)
    requires Grows(f, g) && Grows(g, h)
    ensures Grows(f, h)
  {
    forall id | id in f ensures id in h && Outlives(f[id], h[id]) {
      assert id in g && Outlives(f[id], g[id]) && Outlives(g[id], h[id]);
    }
    forall id | id in h && id !in f ensures h[id].Dir? {
      assert id in g ==> g[id].Dir? && Outlives(g[id], h[id]);
    }
  }

  lemma SameGrows(f: Fs)
    ensures Grows(f, f)
  {
  }

  /** Every state since `start` lies between `f` and `g`. */
  ghost predicate Growing(log: seq<Event>, start: nat, f: Fs, g: Fs) {
    forall j :: start <= j < |log| ==> Grows(f, log[j].after) && Grows(log[j].after, g)
  }

  lemma GrowingThen(a: seq<Event>, b: seq<Event>, start: nat, f: Fs, m: Fs, g: Fs)
    requires Growing(a, start, f, m) && Grows(f, m) && a <= b && Growing(b, |a|, m, g) && Grows(m, g)
    ensures Growing(b, start, f, g)
  {
    forall j | start <= j < |b| ensures Grows(f, b[j].after) && Grows(b[j].after, g) {
      if j < |a| {
        assert b[j] == a[j];
        GrowsOn(a[j].after, m, g);
      } else {
        GrowsOn(f, m, b[j].after);
      }
    }
  }

  lemma ChildStays(f: Fs, g: Fs, dir: Id, name: string, child: Id)
    requires Grows(f, g) && ChildDir(f, dir, name, child)
    ensures ChildDir(g, dir, name, child)
  {
    assert Outlives(f[dir], g[dir]) && Outlives(f[child], g[child]);
  }

  lemma {:induction false} StillResolves(f: Fs, g: Fs, comps: seq<string>)
    requires Grows(f, g) && ResolveDir(f, comps).Some?
    ensures ResolveDir(g, comps) == ResolveDir(f, comps)
  {
    if comps != [] {
      var init, last := comps[..|comps| - 1], comps[|comps| - 1];
      StillResolves(f, g, init);
      ChildStays(f, g, ResolveDir(f, init).value, last, ResolveDir(f, comps).value);
    }
  }

  /** The directory was not there before, and nothing is in it. */
  predicate Hollow(f: Fs, g: Fs, id: Id) {
    id !in f && id in g && g[id] == Dir(map[])
  }

  /** `dir` is a directory without an entry `name`. */
  predicate MissingAt(fs: Fs, dir: Id, name: string) {
    IsDir(fs, dir) && Bound(fs, dir, name).None?
  }

  /** What opening `comp` below `dir` does: nothing, or where it may and the entry is missing, it makes one empty
      directory. */
  ghost predicate Entered(f: Fs, g: Fs, dir: Id, comp: string, mayCreate: bool, child: Option<Id>) {
    && Grows(f, g)
    && (!mayCreate ==> g == f)
    && (child.Some? ==>
        && ChildDir(g, dir, comp, child.value)
        && (g == f || (MissingAt(f, dir, comp) && Hollow(f, g, child.value))))
  }

  /** There is no real directory of that name, nor may one be made. */
  predicate Refused(fs: Fs, dir: Id, comp: string, mayCreate: bool) {
    NoSuchDir(fs, dir, comp) && (mayCreate ==> !MissingAt(fs, dir, comp))
  }

  function ReplyId(reply: Reply): Option<Id> { if reply.Ok? then Some(reply.id) else None }

  lemma OpenDirMeans(fs: Fs, dir: Id, name: string, ch: Chance)
    ensures var o := Serve(OpenDir(dir, name), fs, ch);
      && o.fs == fs
      && (o.reply.Ok? ==> ChildDir(fs, dir, name, o.reply.id))
      && (ch.fault.None? && o.reply.Err? ==> NoSuchDir(fs, dir, name))
      && (ch.fault.None? && o.reply.Err? && o.reply.error != NOENT ==> !MissingAt(fs, dir, name))
  {
  }

  lemma MkdirMeans(fs: Fs, dir: Id, name: string, ch: Chance)
    ensures var o := Serve(Mkdir(dir, name), fs, ch);
      && Grows(fs, o.fs)
      && (o.reply.Err? ==> o.fs == fs)
      && (o.reply.Ok? ==>
          MissingAt(fs, dir, name) && ChildDir(o.fs, dir, name, o.reply.id) && Hollow(fs, o.fs, o.reply.id))
      && (ch.fault.None? && Unreferenced(fs, ch.newId) && MissingAt(fs, dir, name) ==> o.reply.Ok?)
  {
    var g := Serve(Mkdir(dir, name), fs, ch).fs;
    forall id | id in fs ensures id in g && Outlives(fs[id], g[id]) {
    }
  }

  lemma MkdirLeavesFresh(fs: Fs, dir: Id, name: string, ch: Chance, id: Id)
    requires Unreferenced(fs, id) && id != ch.newId
    ensures Unreferenced(Serve(Mkdir(dir, name), fs, ch).fs, id)
  {
    var g := Serve(Mkdir(dir, name), fs, ch).fs;
    forall d | d in g && g[d].Dir? ensures id !in g[d].entries.Values {
      assert d in fs && fs[d].Dir? ==> id !in fs[d].entries.Values;
    }
  }

  /** The numbers are still new after a call that makes at most one directory. */
  method Walk(k: Kernel, call: Syscall) returns (reply: Reply)
    requires WalkCall(call)
    modifies k
    ensures k.clock == old(k.clock) + 1
    ensures var before := k.others(old(k.clock), old(k.fs));
      && Outcome(reply, k.fs) == Serve(call, before, k.chance(old(k.clock)))
      && k.log == old(k.log) + [Event(call, before, reply, k.fs)]
    ensures OnlyWalks(k.log, |old(k.log)|)
    ensures k.Undisturbed() ==> Grows(old(k.fs), k.fs) && Growing(k.log, |old(k.log)|, old(k.fs), k.fs)
    ensures k.Undisturbed() && old(k.FreshIds()) ==> k.FreshIds()
  {
    ghost var fs0, ch := k.fs, k.chance(k.clock);
    reply := k.Do(call);
    SameGrows(k.fs);
    if k.Undisturbed() && call.Mkdir? {
      MkdirMeans(fs0, call.dir, call.name, ch);
    }
    if k.Undisturbed() && old(k.FreshIds()) {
      forall n: nat | k.clock <= n ensures Unreferenced(k.fs, k.chance(n).newId) {
        assert Unreferenced(fs0, k.chance(n).newId) && k.chance(n).newId != ch.newId;
        if call.Mkdir? {
          MkdirLeavesFresh(fs0, call.dir, call.name, ch, k.chance(n).newId);
        }
      }
    }
  }

  /** Make a missing directory and open it. */
  method MakeAndOpen(k: Kernel, dir: Id, comp: string) returns (reply: Reply)
    modifies k
    ensures |k.log| > |old(k.log)| && k.log[..|old(k.log)|] == old(k.log)
    ensures EndsAt(k.log, |old(k.log)|, old(k.fs), k.fs) && OnlyWalks(k.log, |old(k.log)|)
    ensures reply.Ok? ==>
      var e := k.log[|k.log| - 1]; e.call == OpenDir(dir, comp) && ChildDir(e.before, dir, comp, reply.id)
    ensures forall j :: |old(k.log)| <= j < |k.log| && k.log[j].call.Mkdir? ==> k.log[j].call.dir == dir
    ensures k.Undisturbed() ==> Entered(old(k.fs), k.fs, dir, comp, true, ReplyId(reply))
    ensures k.Undisturbed() ==> Growing(k.log, |old(k.log)|, old(k.fs), k.fs)
    ensures k.Undisturbed() && old(k.FreshIds()) ==> k.FreshIds()
    ensures old(k.Smooth(true)) ==>
      reply.Err? ==> k.fs == old(k.fs) && Refused(k.fs, dir, comp, true)
  {
    ghost var fs0, ch := k.fs, k.chance(k.clock);
    var made := Walk(k, Mkdir(dir, comp));
    MkdirMeans(k.log[|k.log| - 1].before, dir, comp, ch);
    if made.Err? && made.error != EXIST {
      return made;
    }
    ghost var log1, fs1 := k.log, k.fs;
    ch := k.chance(k.clock);
    reply := Walk(k, OpenDir(dir, comp));
    OpenDirMeans(k.log[|k.log| - 1].before, dir, comp, ch);
    WalksThen(log1, k.log, |old(k.log)|);
    if k.Undisturbed() {
      GrowingThen(log1, k.log, |old(k.log)|, fs0, fs1, k.fs);
    }
  }

  /** One component: open it, and if it is missing and may be made, make it and open it again. */
  method OpenComponent(k: Kernel, dir: Id, comp: string, mayCreate: bool) returns (reply: Reply)
    requires Proper(comp)
    modifies k
    ensures |k.log| > |old(k.log)| && k.log[..|old(k.log)|] == old(k.log)
    ensures EndsAt(k.log, |old(k.log)|, old(k.fs), k.fs) && OnlyWalks(k.log, |old(k.log)|)
    ensures reply.Ok? ==>
      var e := k.log[|k.log| - 1]; e.call == OpenDir(dir, comp) && ChildDir(e.before, dir, comp, reply.id)
    ensures forall j :: |old(k.log)| <= j < |k.log| && k.log[j].call.Mkdir? ==> mayCreate && k.log[j].call.dir == dir
    ensures k.Undisturbed() ==> Entered(old(k.fs), k.fs, dir, comp, mayCreate, ReplyId(reply))
    ensures k.Undisturbed() ==> Growing(k.log, |old(k.log)|, old(k.fs), k.fs)
    ensures k.Undisturbed() && old(k.FreshIds()) ==> k.FreshIds()
    ensures old(k.Smooth(mayCreate)) ==>
      reply.Err? ==> k.fs == old(k.fs) && Refused(k.fs, dir, comp, mayCreate)
  {
    ghost var fs0, ch := k.fs, k.chance(k.clock);
    reply := Walk(k, OpenDir(dir, comp));
    OpenDirMeans(k.log[|k.log| - 1].before, dir, comp, ch);
    if reply == Err(NOENT) && mayCreate {
      ghost var log1, fs1 := k.log, k.fs;
      reply := MakeAndOpen(k, dir, comp);
      WalksThen(log1, k.log, |old(k.log)|);
      if k.Undisturbed() {
        GrowingThen(log1, k.log, |old(k.log)|, fs0, fs1, k.fs);
      }
    }
  }

  /** More calls of ours that open or check, or make a directory in the last descriptor where allowed. */
  lemma WalkedOn(log: seq<Event>, log': seq<Event>, start: nat, comps: seq<string>, fds: seq<Id>, at: seq<nat>,
                 pin: Option<Pin>, depth: nat, create: bool)
    requires Walked(log, start, comps, fds, at, pin, depth, create) && log <= log' && start <= |log|
    requires pin.Some? ==> depth > 0
    requires forall j :: |log| <= j < |log'| && log'[j].call.Mkdir? ==>
      create && log'[j].call.dir == fds[|fds| - 1] && (pin.Some? ==> depth < |fds|)
    ensures Walked(log', start, comps, fds, at, pin, depth, create)
  {
    assert OpenedInTurn(log', comps, fds, at);
    if pin.Some? && depth < |fds| {
      CheckedLonger(log, log', at[depth - 1], |log|, |log'|, pin.value);
    }
    forall j | start <= j < |log'| && log'[j].call.Mkdir?
      ensures AtOrBelowPin(log', log'[j].call.dir, j, fds, at, pin, depth)
    {
      if j < |log| {
        assert log[j] == log'[j];
        assert AtOrBelowPin(log, log[j].call.dir, j, fds, at, pin, depth);
        if pin.Some? {
          CheckedLonger(log, log', at[depth - 1], j, j, pin.value);
        }
      } else if pin.Some? {
        CheckedLonger(log, log', at[depth - 1], |log|, j, pin.value);
        assert fds[depth..][|fds| - 1 - depth] == fds[|fds| - 1];
      }
    }
  }

  /** A check stays in a log that grows. */
  lemma CheckedLonger(log: seq<Event>, log': seq<Event>, from: nat, to: nat, to': nat, pin: Pin)
    requires log <= log' && Checked(log, from, to, pin) && to <= to' <= |log'|
    ensures Checked(log', from, to', pin)
  {
    var f :| from < f < to <= |log| && IdentityHeld(log[f], pin);
    assert IdentityHeld(log'[f], pin);
  }

  /** A newly opened descriptor joins the others. */
  lemma WalkedInto(log: seq<Event>, start: nat, comps: seq<string>, fds: seq<Id>, at: seq<nat>,
                   pin: Option<Pin>, depth: nat, create: bool, dir: Id, when: nat)
    requires Walked(log, start, comps, fds, at, pin, depth, create)
    requires |fds| <= |comps| && start <= when < |log| && (pin.Some? ==> depth > 0)
    requires log[when].call == OpenDir(fds[|fds| - 1], comps[|fds| - 1])
    requires ChildDir(log[when].before, fds[|fds| - 1], comps[|fds| - 1], dir)
    requires forall i :: 0 <= i < |at| ==> at[i] < when
    requires pin.Some? && depth == |fds| ==> dir == pin.value.id && Checked(log, when, |log|, pin.value)
    ensures Walked(log, start, comps, fds + [dir], at + [when], pin, depth, create)
  {
    var fds', at' := fds + [dir], at + [when];
    OpenedOneMore(log, comps, fds, at, dir, when);
    forall j | start <= j < |log| && log[j].call.Mkdir?
      ensures AtOrBelowPin(log, log[j].call.dir, j, fds', at', pin, depth)
    {
      assert AtOrBelowPin(log, log[j].call.dir, j, fds, at, pin, depth);
      StillBelow(log, log[j].call.dir, j, fds, at, pin, depth, dir, when);
    }
  }

  lemma OpenedOneMore(log: seq<Event>, comps: seq<string>, fds: seq<Id>, at: seq<nat>, dir: Id, when: nat)
    requires OpenedInTurn(log, comps, fds, at) && |fds| <= |comps| && when < |log|
    requires log[when].call == OpenDir(fds[|fds| - 1], comps[|fds| - 1])
    requires ChildDir(log[when].before, fds[|fds| - 1], comps[|fds| - 1], dir)
    requires forall i :: 0 <= i < |at| ==> at[i] < when
    ensures OpenedInTurn(log, comps, fds + [dir], at + [when])
  {
  }

  lemma StillBelow(log: seq<Event>, fd: Id, j: nat, fds: seq<Id>, at: seq<nat>, pin: Option<Pin>, depth: nat,
                   dir: Id, when: nat)
    requires |fds| == |at| + 1 && AtOrBelowPin(log, fd, j, fds, at, pin, depth)
    ensures AtOrBelowPin(log, fd, j, fds + [dir], at + [when], pin, depth)
  {
    if pin.Some? {
      assert (fds + [dir])[depth..] == fds[depth..] + [dir];
    }
  }

  /** `fstat` the opened directory and compare its identity with the pinned one. */
  method StillPinned(k: Kernel, fd: Id, pin: Pin) returns (ok: bool)
    modifies k
    ensures |k.log| == |old(k.log)| + 1 && k.log[..|old(k.log)|] == old(k.log)
    ensures EndsAt(k.log, |old(k.log)|, old(k.fs), k.fs) && OnlyWalks(k.log, |old(k.log)|)
    ensures !k.log[|old(k.log)|].call.Mkdir?
    ensures ok ==> fd == pin.id && IdentityHeld(k.log[|old(k.log)|], pin)
    ensures k.NoFaults() && !ok ==> fd != pin.id
    ensures k.Undisturbed() ==> k.fs == old(k.fs) && (old(k.FreshIds()) ==> k.FreshIds())
    ensures k.Undisturbed() ==> Growing(k.log, |old(k.log)|, k.fs, k.fs)
  {
    ghost var ch := k.chance(k.clock);
    var stat := Walk(k, Fstat(fd));
    ok := stat.Ok? && stat.id == pin.id;
    assert k.NoFaults() ==> ch.fault.None?;
  }

  /** The identity check, made only on the component that completes the pinned folder. */
  method CheckPin(k: Kernel, fd: Id, pin: Option<Pin>, depth: nat, i: nat) returns (ok: bool)
    modifies k
    ensures old(k.log) <= k.log && EndsAt(k.log, |old(k.log)|, old(k.fs), k.fs) && OnlyWalks(k.log, |old(k.log)|)
    ensures forall j :: |old(k.log)| <= j < |k.log| ==> !k.log[j].call.Mkdir?
    ensures ok && pin.Some? && depth == i + 1 ==>
      fd == pin.value.id && |old(k.log)| < |k.log| && IdentityHeld(k.log[|old(k.log)|], pin.value)
    ensures !ok ==> pin.Some? && depth == i + 1
    ensures !ok && k.NoFaults() ==> fd != pin.value.id
    ensures k.Undisturbed() ==> k.fs == old(k.fs) && (old(k.FreshIds()) ==> k.FreshIds())
    ensures k.Undisturbed() ==> Growing(k.log, |old(k.log)|, k.fs, k.fs)
  {
    ok := true;
    if pin.Some? && depth == i + 1 {
      ok := StillPinned(k, fd, pin.value);
    }
  }

  /** How a walk is to be made: the path, the pin with its depth, and whether missing directories are made. */
  datatype Route = Route(comps: seq<string>, pin: Option<Pin>, depth: nat, create: bool)

  predicate WellPinned(w: Route) {
    && (forall c :: c in w.comps ==> Proper(c))
    && (w.pin.Some? ==> w.depth > 0)
  }

  /** Component `i` may be made: it is below the pinned directory. */
  predicate MayMake(w: Route, i: nat) { w.create && (w.pin.None? || i >= w.depth) }

  /** What stops the walk below `dir`: no real directory of that name, or one that is not the pinned one. */
  ghost predicate Stopped(fs: Fs, dir: Id, w: Route, i: nat)
    requires i < |w.comps|
  {
    || Refused(fs, dir, w.comps[i], MayMake(w, i))
    || (w.pin.Some? && w.depth == i + 1 && exists c :: ChildDir(fs, dir, w.comps[i], c) && c != w.pin.value.id)
  }

  /** Open a component below `dir`, making it where that is allowed, and check the pinned one; it was opened by our
      call number `when`. */
  method OpenChecked(k: Kernel, w: Route, dir: Id, i: nat) returns (r: Result<Id, PathError>, ghost when: nat)
    requires WellPinned(w) && i < |w.comps|
    modifies k
    ensures old(k.log) <= k.log && EndsAt(k.log, |old(k.log)|, old(k.fs), k.fs) && OnlyWalks(k.log, |old(k.log)|)
    ensures forall j :: |old(k.log)| <= j < |k.log| && k.log[j].call.Mkdir? ==>
      MayMake(w, i) && k.log[j].call.dir == dir
    ensures r.Success? ==>
      && |old(k.log)| <= when < |k.log| && k.log[when].call == OpenDir(dir, w.comps[i])
      && ChildDir(k.log[when].before, dir, w.comps[i], r.value)
      && (w.pin.Some? && w.depth == i + 1 ==>
          r.value == w.pin.value.id && Checked(k.log, when, |k.log|, w.pin.value))
    ensures k.Undisturbed() ==>
      && Entered(old(k.fs), k.fs, dir, w.comps[i], MayMake(w, i), if r.Success? then Some(r.value) else None)
      && Growing(k.log, |old(k.log)|, old(k.fs), k.fs)
    ensures k.Undisturbed() && old(k.FreshIds()) ==> k.FreshIds()
    ensures old(k.Smooth(w.create)) && r.Failure? ==> k.fs == old(k.fs) && Stopped(k.fs, dir, w, i)
  {
    var belowPin := w.pin.None? || i >= w.depth;
    ghost var log0, fs0 := k.log, k.fs;
    var reply := OpenComponent(k, dir, w.comps[i], w.create && belowPin);
    ghost var log1, fs1 := k.log, k.fs;
    when := |log1| - 1;
    if reply.Err? {
      return Failure(Denied), when;
    }
    var same := CheckPin(k, reply.id, w.pin, w.depth, i);
    EndsThen(log1, k.log, |log0|, fs0, fs1, k.fs);
    WalksThen(log1, k.log, |log0|);
    if k.Undisturbed() {
      SameGrows(fs1);
      GrowingThen(log1, k.log, |log0|, fs0, fs1, k.fs);
    }
    assert k.log[when] == log1[when];
    r := if same then Success(reply.id) else Failure(Unpinned);
  }

  /** One turn of the walk's loop. */
  method Enter(k: Kernel, w: Route, dir: Id, i: nat, ghost start: nat, ghost fds0: seq<Id>, ghost at0: seq<nat>)
    returns (r: Result<Id, PathError>, ghost fds: seq<Id>, ghost at: seq<nat>)
    requires WellPinned(w)
    requires Walked(k.log, start, w.comps, fds0, at0, w.pin, w.depth, w.create) && start <= |k.log|
    requires i + 1 == |fds0| < |w.comps| && dir == fds0[i]
    modifies k
    ensures old(k.log) <= k.log && EndsAt(k.log, |old(k.log)|, old(k.fs), k.fs) && OnlyWalks(k.log, |old(k.log)|)
    ensures Walked(k.log, start, w.comps, fds, at, w.pin, w.depth, w.create)
    ensures fds == if r.Success? then fds0 + [r.value] else fds0
    ensures k.Undisturbed() ==>
      && Entered(old(k.fs), k.fs, dir, w.comps[i], MayMake(w, i), if r.Success? then Some(r.value) else None)
      && Growing(k.log, |old(k.log)|, old(k.fs), k.fs)
    ensures k.Undisturbed() && old(k.FreshIds()) ==> k.FreshIds()
    ensures old(k.Smooth(w.create)) && r.Failure? ==> k.fs == old(k.fs) && Stopped(k.fs, dir, w, i)
  {
    fds, at := fds0, at0;
    ghost var log0, when := k.log, 0;
    r, when := OpenChecked(k, w, dir, i);
    WalkedOn(log0, k.log, start, w.comps, fds, at, w.pin, w.depth, w.create);
    if r.Success? {
      WalkedInto(k.log, start, w.comps, fds, at, w.pin, w.depth, w.create, r.value, when);
      fds, at := fds + [r.value], at + [when];
    }
  }

  /** The lowest component that may be missing. */
  function Lowest(w: Route): nat { if w.pin.Some? then w.depth else 0 }

  /** The walk has come down `fds` in what is now `g`: the first `n + 1` of them, and if that is not all, the rest are
      directories it made itself, below a name that `f` did not have. */
  ghost predicate DescendedFrom(f: Fs, g: Fs, w: Route, fds: seq<Id>, n: nat) {
    && n < |fds| && Grows(f, g) && Chain(g, w.comps, fds) && Chain(f, w.comps, fds[..n + 1])
    && (if n + 1 == |fds| then g == f
        else w.create && Lowest(w) <= n && MissingAt(f, fds[n], w.comps[n]) && Hollow(f, g, fds[|fds| - 1]))
  }

  ghost predicate Descended(f: Fs, g: Fs, w: Route, fds: seq<Id>) {
    exists n: nat :: DescendedFrom(f, g, w, fds, n)
  }

  /** The walk has stopped where `f` does not let it go on. */
  ghost predicate Blocked(f: Fs, w: Route, fds: seq<Id>) {
    0 < |fds| < |w.comps| && Chain(f, w.comps, fds) && Stopped(f, fds[|fds| - 1], w, |fds| - 1)
  }

  lemma ChainMore(f: Fs, g: Fs, comps: seq<string>, fds: seq<Id>, child: Id)
    requires Chain(f, comps, fds) && Grows(f, g) && |fds| <= |comps|
    requires ChildDir(g, fds[|fds| - 1], comps[|fds| - 1], child)
    ensures Chain(g, comps, fds + [child])
  {
    var more := fds + [child];
    forall i | 0 <= i < |more| - 1 ensures ChildDir(g, more[i], comps[i], more[i + 1]) {
      if i + 1 < |fds| {
        ChildStays(f, g, fds[i], comps[i], fds[i + 1]);
      }
    }
  }

  lemma HollowMisses(f: Fs, g: Fs, id: Id, name: string)
    requires Hollow(f, g, id)
    ensures MissingAt(g, id, name)
  {
    assert g[id].entries == map[];
  }

  lemma DescendMore(f: Fs, g: Fs, h: Fs, w: Route, fds: seq<Id>, child: Id)
    requires Descended(f, g, w, fds) && |fds| < |w.comps|
    requires Entered(g, h, fds[|fds| - 1], w.comps[|fds| - 1], MayMake(w, |fds| - 1), Some(child))
    ensures Descended(f, h, w, fds + [child])
  {
    var n: nat :| DescendedFrom(f, g, w, fds, n);
    var more, last := fds + [child], fds[|fds| - 1];
    GrowsOn(f, g, h);
    ChainMore(g, h, w.comps, fds, child);
    if n + 1 == |fds| && h == g {
      assert more[..n + 2] == more;
      assert DescendedFrom(f, h, w, more, n + 1);
    } else {
      assert more[..n + 1] == fds[..n + 1];
      if n + 1 < |fds| {
        HollowMisses(f, g, last, w.comps[|fds| - 1]);
      }
      assert DescendedFrom(f, h, w, more, n);
    }
  }

  lemma BlockedHere(f: Fs, g: Fs, w: Route, fds: seq<Id>)
    requires Descended(f, g, w, fds) && |fds| < |w.comps| && Stopped(g, fds[|fds| - 1], w, |fds| - 1)
    ensures Blocked(f, w, fds) && g == f
  {
    var n: nat :| DescendedFrom(f, g, w, fds, n);
    if n + 1 < |fds| {
      assert false by {
        HollowMisses(f, g, fds[|fds| - 1], w.comps[|fds| - 1]);
      }
    }
    assert fds[..n + 1] == fds;
  }

  /** How far a walk has got with nobody else acting. */
  ghost predicate Went(f: Fs, g: Fs, w: Route, fds: seq<Id>, going: bool) {
    Grows(f, g) && (!w.create ==> g == f) && (going ==> Descended(f, g, w, fds))
  }

  lemma WentOn(f: Fs, g: Fs, h: Fs, w: Route, fds: seq<Id>, child: Option<Id>)
    requires Went(f, g, w, fds, true) && 0 < |fds| < |w.comps|
    requires Entered(g, h, fds[|fds| - 1], w.comps[|fds| - 1], MayMake(w, |fds| - 1), child)
    ensures Went(f, h, w, if child.Some? then fds + [child.value] else fds, child.Some?)
  {
    GrowsOn(f, g, h);
    if child.Some? {
      DescendMore(f, g, h, w, fds, child.value);
    }
  }

  lemma WalkStarts(log: seq<Event>, fs: Fs, w: Route)
    requires w.pin.Some? ==> w.depth > 0
    ensures Walked(log, |log|, w.comps, [ROOT], [], w.pin, w.depth, w.create)
    ensures w.comps != [] ==> Went(fs, fs, w, [ROOT], true)
  {
    SameGrows(fs);
    assert w.comps != [] ==> DescendedFrom(fs, fs, w, [ROOT], 0);
  }

  /** A turn of the loop, and what it adds to the turns before it. */
  method Turn(k: Kernel, w: Route, dir: Id, i: nat, ghost start: nat, ghost fs0: Fs, ghost fds0: seq<Id>,
              ghost at0: seq<nat>)
    returns (r: Result<Id, PathError>, ghost fds: seq<Id>, ghost at: seq<nat>)
    requires WellPinned(w)
    requires Walked(k.log, start, w.comps, fds0, at0, w.pin, w.depth, w.create)
    requires EndsAt(k.log, start, fs0, k.fs) && OnlyWalks(k.log, start)
    requires i + 1 == |fds0| < |w.comps| && dir == fds0[i]
    requires k.Undisturbed() ==> Went(fs0, k.fs, w, fds0, true) && Growing(k.log, start, fs0, k.fs)
    modifies k
    ensures old(k.log) <= k.log && EndsAt(k.log, start, fs0, k.fs) && OnlyWalks(k.log, start)
    ensures Walked(k.log, start, w.comps, fds, at, w.pin, w.depth, w.create)
    ensures fds == if r.Success? then fds0 + [r.value] else fds0
    ensures k.Undisturbed() ==> Went(fs0, k.fs, w, fds, r.Success?) && Growing(k.log, start, fs0, k.fs)
    ensures k.Undisturbed() && old(k.FreshIds()) ==> k.FreshIds()
    ensures old(k.Smooth(w.create)) && r.Failure? ==> k.fs == fs0 && Blocked(fs0, w, fds)
  {
    ghost var log1, fs1 := k.log, k.fs;
    r, fds, at := Enter(k, w, dir, i, start, fds0, at0);
    EndsThen(log1, k.log, start, fs0, fs1, k.fs);
    WalksThen(log1, k.log, start);
    if k.Undisturbed() {
      GrowingThen(log1, k.log, start, fs0, fs1, k.fs);
      WentOn(fs0, fs1, k.fs, w, fds0, if r.Success? then Some(r.value) else None);
      if old(k.Smooth(w.create)) && r.Failure? {
        BlockedHere(fs0, fs1, w, fds0);
      }
    }
  }

  /** The loop of the walk, from the root to the parent of the leaf. */
  method WalkToParent(k: Kernel, w: Route) returns (r: Result<Id, PathError>, ghost fds: seq<Id>, ghost at: seq<nat>)
    requires w.comps != [] && WellPinned(w)
    modifies k
    ensures old(k.log) <= k.log && EndsAt(k.log, |old(k.log)|, old(k.fs), k.fs) && OnlyWalks(k.log, |old(k.log)|)
    ensures Walked(k.log, |old(k.log)|, w.comps, fds, at, w.pin, w.depth, w.create)
    ensures r.Success? ==> |fds| == |w.comps| && r.value == fds[|w.comps| - 1]
    ensures k.Undisturbed() ==>
      Went(old(k.fs), k.fs, w, fds, r.Success?) && Growing(k.log, |old(k.log)|, old(k.fs), k.fs)
    ensures k.Undisturbed() && old(k.FreshIds()) ==> k.FreshIds()
    ensures old(k.Smooth(w.create)) && r.Failure? ==> k.fs == old(k.fs) && Blocked(k.fs, w, fds)
  {
    WalkStarts(k.log, k.fs, w);
    fds, at := [ROOT], [];
    var dir := ROOT;
    for i := 0 to |w.comps| - 1
      invariant |fds| == i + 1 && dir == fds[i]
      invariant old(k.log) <= k.log && EndsAt(k.log, |old(k.log)|, old(k.fs), k.fs) && OnlyWalks(k.log, |old(k.log)|)
      invariant Walked(k.log, |old(k.log)|, w.comps, fds, at, w.pin, w.depth, w.create)
      invariant k.Undisturbed() ==>
        Went(old(k.fs), k.fs, w, fds, true) && Growing(k.log, |old(k.log)|, old(k.fs), k.fs)
      invariant k.Undisturbed() && old(k.FreshIds()) ==> k.FreshIds()
    {
      r, fds, at := Turn(k, w, dir, i, |old(k.log)|, old(k.fs), fds, at);
      if r.Failure? {
        return;
      }
      dir := r.value;
    }
    r := Success(dir);
  }

  // ---- which paths can be walked ----

  /** The pinned path resolves to the pinned inode. */
  ghost predicate PinHolds(fs: Fs, comps: seq<string>, pin: Option<Pin>) {
    pin.Some? ==>
      PinFits(comps, pin.value) && ResolveDir(fs, comps[..|Kept(Split(pin.value.dir))|]) == Some(pin.value.id)
  }

  /** The path to the parent goes through real directories only, and through the pinned one if there is a pin. */
  ghost predicate Resolves(fs: Fs, comps: seq<string>, pin: Option<Pin>)
    requires comps != []
  {
    ResolveDir(fs, comps[..|comps| - 1]).Some? && PinHolds(fs, comps, pin)
  }

  /** The first `n` components resolve, and the next name is free: the rest can be made. */
  ghost predicate EndsFree(fs: Fs, comps: seq<string>, n: nat) {
    && n + 1 < |comps|
    && ResolveDir(fs, comps[..n]).Some? && MissingAt(fs, ResolveDir(fs, comps[..n]).value, comps[n])
  }

  /** The path to the parent resolves down to a free name at or below the pinned directory. */
  ghost predicate CanBeMade(fs: Fs, comps: seq<string>, pin: Option<Pin>) {
    && PinHolds(fs, comps, pin)
    && exists n: nat :: EndsFree(fs, comps, n) && (pin.Some? ==> |Kept(Split(pin.value.dir))| <= n)
  }

  /** The parent is there, or can be made. */
  ghost predicate Reachable(fs: Fs, comps: seq<string>, pin: Option<Pin>, create: bool)
    requires comps != []
  {
    Resolves(fs, comps, pin) || (create && CanBeMade(fs, comps, pin))
  }

  lemma ResolvesUpTo(fs: Fs, comps: seq<string>, fds: seq<Id>, n: nat)
    requires Chain(fs, comps, fds) && n < |fds|
    ensures n <= |comps| && ResolveDir(fs, comps[..n]) == Some(fds[n])
  {
    ChainResolves(fs, comps, fds[..n + 1]);
  }

  /** The pin and its depth belong to the path. */
  predicate Fitting(w: Route) {
    w.pin.Some? ==> PinFits(w.comps, w.pin.value) && w.depth == |Kept(Split(w.pin.value.dir))|
  }

  lemma ChainPins(fs: Fs, w: Route, fds: seq<Id>)
    requires Fitting(w) && Chain(fs, w.comps, fds)
    requires w.pin.Some? ==> |fds| > w.depth && fds[w.depth] == w.pin.value.id
    ensures PinHolds(fs, w.comps, w.pin)
  {
    if w.pin.Some? {
      ResolvesUpTo(fs, w.comps, fds, w.depth);
    }
  }

  lemma ChainArrives(fs: Fs, w: Route, fds: seq<Id>)
    requires w.comps != [] && Fitting(w) && Chain(fs, w.comps, fds) && |fds| == |w.comps|
    requires w.pin.Some? ==> |fds| > w.depth && fds[w.depth] == w.pin.value.id
    ensures ResolveDir(fs, w.comps[..|w.comps| - 1]) == Some(fds[|fds| - 1]) && Resolves(fs, w.comps, w.pin)
  {
    ResolvesUpTo(fs, w.comps, fds, |fds| - 1);
    ChainPins(fs, w, fds);
  }

  lemma ChainEndsFree(f: Fs, w: Route, fds: seq<Id>, n: nat)
    requires Fitting(w) && n + 1 < |w.comps| && |fds| == n + 1 && Chain(f, w.comps, fds) && Lowest(w) <= n
    requires w.pin.Some? ==> fds[w.depth] == w.pin.value.id
    requires MissingAt(f, fds[n], w.comps[n])
    ensures CanBeMade(f, w.comps, w.pin) && ResolveDir(f, w.comps[..|w.comps| - 1]).None?
  {
    DeadEnd(f, w.comps, fds, |w.comps| - 1);
    ResolvesUpTo(f, w.comps, fds, n);
    ChainPins(f, w, fds);
    assert EndsFree(f, w.comps, n);
  }

  /** A path on which a name is no real directory resolves from there on no more. */
  lemma DeadEnd(fs: Fs, comps: seq<string>, fds: seq<Id>, n: nat)
    requires Chain(fs, comps, fds) && |fds| <= n <= |comps|
    requires NoSuchDir(fs, fds[|fds| - 1], comps[|fds| - 1])
    ensures ResolveDir(fs, comps[..n]).None?
  {
    var m := |fds|;
    ChainResolves(fs, comps, fds);
    assert comps[..m][..m - 1] == comps[..m - 1] && comps[..n][..m] == comps[..m];
    assert ResolveDir(fs, comps[..m]).None?;
    PrefixUnresolved(fs, comps[..n], m);
  }

  /** A walk that arrives has gone down a path that resolved, or could be made, before it started. */
  lemma ArrivalMeans(f: Fs, g: Fs, w: Route, fds: seq<Id>)
    requires w.comps != [] && Fitting(w) && Descended(f, g, w, fds) && |fds| == |w.comps|
    requires w.pin.Some? ==> |fds| > w.depth && fds[w.depth] == w.pin.value.id
    ensures ResolveDir(g, w.comps[..|w.comps| - 1]) == Some(fds[|fds| - 1]) && Resolves(g, w.comps, w.pin)
    ensures Reachable(f, w.comps, w.pin, w.create)
    ensures g == f || (Hollow(f, g, fds[|fds| - 1]) && ResolveDir(f, w.comps[..|w.comps| - 1]).None?)
  {
    var n: nat :| DescendedFrom(f, g, w, fds, n);
    ChainArrives(g, w, fds);
    if n + 1 < |fds| {
      ChainEndsFree(f, w, fds[..n + 1], n);
    }
  }

  /** A walk that stops has met a path that neither resolves nor can be made, or a pin that does not hold. */
  lemma BlockMeans(f: Fs, w: Route, fds: seq<Id>)
    requires w.comps != [] && Fitting(w) && Blocked(f, w, fds)
    ensures !Reachable(f, w.comps, w.pin, w.create)
  {
    var m := |fds| - 1;
    if Refused(f, fds[m], w.comps[m], MayMake(w, m)) {
      DeadEnd(f, w.comps, fds, |w.comps| - 1);
      if w.create && PinHolds(f, w.comps, w.pin) {
        if w.pin.Some? && w.depth > m {
          DeadEnd(f, w.comps, fds, w.depth);
        }
        forall n: nat | EndsFree(f, w.comps, n) ensures w.pin.Some? && n < w.depth {
          NotFree(f, w, fds, n);
        }
      }
    } else {
      ChainResolves(f, w.comps, fds);
      assert w.comps[..m + 1][..m] == w.comps[..m];
    }
  }

  /** A path that is refused at `m` has a free name only above the pin. */
  lemma NotFree(f: Fs, w: Route, fds: seq<Id>, n: nat)
    requires w.create && Blocked(f, w, fds) && EndsFree(f, w.comps, n)
    requires Refused(f, fds[|fds| - 1], w.comps[|fds| - 1], MayMake(w, |fds| - 1))
    ensures w.pin.Some? && n < w.depth
  {
    var m := |fds| - 1;
    if n > m {
      DeadEnd(f, w.comps, fds, n);
    } else {
      ResolvesUpTo(f, w.comps, fds, n);
      if n < m {
        assert ChildDir(f, fds[n], w.comps[n], fds[n + 1]);
      }
    }
  }

  /** How a walk went: history that the contracts below speak of. */
  datatype Trail = Trail(comps: seq<string>, fds: seq<Id>, at: seq<nat>, depth: nat)

  /** The walk to the parent of `comps` since `start` kept its promises, whatever other processes did. */
  ghost predicate Followed(log: seq<Event>, start: nat, t: Trail, pin: Option<Pin>, create: bool) {
    OnlyWalks(log, start) && Walked(log, start, t.comps, t.fds, t.at, pin, t.depth, create)
  }

  /** It got to the parent, past the pinned directory if there is one. */
  ghost predicate Arrived(t: Trail, pin: Option<Pin>, parent: Id) {
    && 0 < |t.fds| == |t.comps| && parent == t.fds[|t.fds| - 1]
    && (pin.Some? ==> PinFits(t.comps, pin.value) && t.depth == |Kept(Split(pin.value.dir))|)
  }

  /** A walk that arrives at `dir` has changed nothing, or has come to a directory that was not there, and that is
      empty. */
  ghost predicate Landing(f: Fs, g: Fs, comps: seq<string>, dir: Id)
    requires comps != []
  {
    g == f || (Hollow(f, g, dir) && ResolveDir(f, comps[..|comps| - 1]).None?)
  }

  /** What a walk did with nobody else acting. */
  ghost predicate WalkedAlone(f: Fs, g: Fs, comps: seq<string>, pin: Option<Pin>, create: bool,
                              r: Result<Id, PathError>)
    requires comps != []
  {
    && Grows(f, g) && (!create ==> g == f)
    && (r.Success? ==>
        && Landing(f, g, comps, r.value)
        && Resolves(g, comps, pin) && ResolveDir(g, comps[..|comps| - 1]) == Some(r.value)
        && Reachable(f, comps, pin, create))
  }

  lemma WentMeans(log: seq<Event>, start: nat, f: Fs, g: Fs, w: Route, fds: seq<Id>, at: seq<nat>,
                 r: Result<Id, PathError>)
    requires w.comps != [] && Fitting(w) && Went(f, g, w, fds, r.Success?)
    requires Walked(log, start, w.comps, fds, at, w.pin, w.depth, w.create)
    requires r.Success? ==> |fds| == |w.comps| && r.value == fds[|w.comps| - 1]
    ensures WalkedAlone(f, g, w.comps, w.pin, w.create, r)
  {
    if r.Success? {
      ArrivalMeans(f, g, w, fds);
    }
  }

  /** The route to the parent of `comps`; there is none only if the pin is no strict ancestor. */
  method Plan(comps: seq<string>, pin: Option<Pin>, create: bool) returns (r: Result<Route, PathError>)
    requires forall c :: c in comps ==> Proper(c)
    ensures r.Success? ==> Fitting(r.value) && r.value == Route(comps, pin, r.value.depth, create)
    ensures r.Success? && pin.Some? ==> r.value.depth > 0
    ensures r.Failure? ==> forall fs :: !PinHolds(fs, comps, pin)
  {
    if pin.None? {
      return Success(Route(comps, pin, 0, create));
    }
    var pd := PinnedDepth(comps, pin.value);
    r := if pd.Success? then Success(Route(comps, pin, pd.value, create)) else Failure(pd.error);
  }

  /** The walk along a route that fits. */
  method WalkRoute(k: Kernel, w: Route) returns (r: Result<Id, PathError>, ghost t: Trail)
    requires w.comps != [] && WellPinned(w) && Fitting(w)
    modifies k
    ensures old(k.log) <= k.log && EndsAt(k.log, |old(k.log)|, old(k.fs), k.fs) && t.comps == w.comps
    ensures Followed(k.log, |old(k.log)|, t, w.pin, w.create)
    ensures r.Success? ==> Arrived(t, w.pin, r.value)
    ensures k.Undisturbed() ==> WalkedAlone(old(k.fs), k.fs, w.comps, w.pin, w.create, r)
    ensures k.Undisturbed() ==> Growing(k.log, |old(k.log)|, old(k.fs), k.fs)
    ensures k.Undisturbed() && old(k.FreshIds()) ==> k.FreshIds()
    ensures old(k.Smooth(w.create)) && r.Failure? ==> k.fs == old(k.fs) && !Reachable(k.fs, w.comps, w.pin, w.create)
  {
    ghost var fds, at;
    r, fds, at := WalkToParent(k, w);
    t := Trail(w.comps, fds, at, w.depth);
    if k.Undisturbed() {
      WentMeans(k.log, |old(k.log)|, old(k.fs), k.fs, w, fds, at, r);
    }
    if old(k.Smooth(w.create)) && r.Failure? {
      BlockMeans(k.fs, w, fds);
    }
  }

  /** The parent of `comps`. The pinned descriptor joins the trail only once its identity has been checked. */
  method OpenParentWith(k: Kernel, comps: seq<string>, pin: Option<Pin>, create: bool)
    returns (r: Result<Id, PathError>, ghost t: Trail)
    requires comps != [] && forall c :: c in comps ==> Proper(c)
    modifies k
    ensures old(k.log) <= k.log && EndsAt(k.log, |old(k.log)|, old(k.fs), k.fs) && t.comps == comps
    // whatever the other processes do:
    ensures Followed(k.log, |old(k.log)|, t, pin, create)
    ensures r.Success? ==> Arrived(t, pin, r.value)
    // on a file system nobody else touches:
    ensures k.Undisturbed() ==> WalkedAlone(old(k.fs), k.fs, comps, pin, create, r)
    ensures k.Undisturbed() ==> Growing(k.log, |old(k.log)|, old(k.fs), k.fs)
    ensures k.Undisturbed() && old(k.FreshIds()) ==> k.FreshIds()
    // and if nothing fails either:
    ensures old(k.Smooth(create)) ==>
      && (r.Success? <==> Reachable(old(k.fs), comps, pin, create))
      && (r.Failure? ==> k.fs == old(k.fs))
  {
    t := Trail(comps, [ROOT], [], |comps|);
    WalkStarts(k.log, k.fs, Route(comps, pin, |comps|, create));
    var route := Plan(comps, pin, create);
    if route.Failure? {
      return Failure(route.error), t;
    }
    r, t := WalkRoute(k, route.value);
  }
}
