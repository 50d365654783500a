/** `write_impl`, `rename_noreplace` and `link_then_unlink`: a file appears under its name whole or not
    at all, whatever fails and wherever the process dies. The log of our own system calls lists every
    state a crash could leave behind. */
module AtomicWrite {
  import opened Basics
  import opened Kernels

  /** One write: the directory, the temporary name, the target name, the data, and whether it is exclusive. */
  datatype Job = Job(dir: Id, tmp: string, leaf: string, data: Bytes, noReplace: bool)

  /** From one name to another. */
  datatype Move = Move(oldDir: Id, oldName: string, newDir: Id, newName: string)

  function MoveOf(j: Job): Move { Move(j.dir, j.tmp, j.dir, j.leaf) }

  predicate Apart(m: Move) { m.oldDir != m.newDir || m.oldName != m.newName }

  /** The inode that is being put in place, and its contents. */
  datatype Payload = Payload(id: Id, data: Bytes)

  /** A stretch of our calls, with the file systems around it. */
  datatype Span = Span(es: seq<Event>, before: Fs, after: Fs)

  /** What a reader of a name finds: file contents, or some other object by its identity. */
  datatype View = Absent | Contents(data: Bytes) | Object(id: Id)

  function Shows(fs: Fs, dir: Id, name: string): View {
    match Bound(fs, dir, name)
    case None => Absent
    case Some(id) => if id in fs && fs[id].File? then Contents(fs[id].data) else Object(id)
  }

  // ---- what one call can do to a name ----

  /** Every entry of the log really is what the kernel does for that call. */
  ghost predicate Served(log: seq<Event>) {
    forall i :: 0 <= i < |log| ==> ServedBy(log[i])
  }

  ghost predicate ServedBy(e: Event) {
    exists ch :: ServedWith(e, ch)
  }

  ghost predicate ServedWith(e: Event, ch: Chance) {
    Outcome(e.reply, e.after) == Serve(e.call, e.before, ch)
  }

  /** The call was answered without a fault. */
  ghost predicate FaultFree(e: Event) {
    exists ch: Chance :: ch.fault.None? && ServedWith(e, ch)
  }

  /** The calls that a write makes. */
  predicate OurCall(call: Syscall, j: Job) {
    match call
    case CreateExcl(d, n) => d == j.dir && n == j.tmp
    case Write(_, _) => true
    case Sync(_) => true
    case Rename(d, a, e, b) => !j.noReplace && d == e == j.dir && a == j.tmp && b == j.leaf
    case RenameNoReplace(d, a, e, b) => j.noReplace && d == e == j.dir && a == j.tmp && b == j.leaf
    case LinkAt(d, a, e, b) => j.noReplace && d == e == j.dir && a == j.tmp && b == j.leaf
    case Unlink(d, n) => d == j.dir && (n == j.tmp || (j.noReplace && n == j.leaf))
    case _ => false
  }

  ghost predicate OurCalls(es: seq<Event>, j: Job) {
    forall i :: 0 <= i < |es| ==> OurCall(es[i].call, j)
  }

  /** Call `i` takes back our own link: it follows our successful `linkat` to the new name and the failed
      attempt to drop the old one. */
  predicate IsRollback(es: seq<Event>, i: nat, m: Move) {
    && 2 <= i < |es|
    && es[i - 2].call == LinkAt(m.oldDir, m.oldName, m.newDir, m.newName) && es[i - 2].reply.Ok?
    && es[i - 1].call == Unlink(m.oldDir, m.oldName) && es[i - 1].reply.Err?
    && es[i].call == Unlink(m.newDir, m.newName)
  }

  /** The new name is unlinked only to take back our own link. */
  ghost predicate OnlyRollbacks(es: seq<Event>, m: Move) {
    forall i :: 0 <= i < |es| && es[i].call == Unlink(m.newDir, m.newName) ==> IsRollback(es, i, m)
  }

  /** What is bound to the target before a call is still bound afterwards, unless the call is a rollback. */
  ghost predicate NothingReplaced(es: seq<Event>, j: Job) {
    forall i :: 0 <= i < |es| && Bound(es[i].before, j.dir, j.leaf).Some? ==>
      Bound(es[i].after, j.dir, j.leaf) == Bound(es[i].before, j.dir, j.leaf) || IsRollback(es, i, MoveOf(j))
  }

  lemma CallReplacesNothing(e: Event, j: Job)
    requires ServedBy(e) && OurCall(e.call, j) && j.noReplace && j.tmp != j.leaf
    requires Bound(e.before, j.dir, j.leaf).Some?
    ensures Bound(e.after, j.dir, j.leaf) == Bound(e.before, j.dir, j.leaf) || e.call == Unlink(j.dir, j.leaf)
  {
  }

  /** No call of an exclusive write but the rollback of its own link changes what the target is bound to. */
  lemma NeverReplaces(es: seq<Event>, j: Job)
    requires Served(es) && OurCalls(es, j) && OnlyRollbacks(es, MoveOf(j)) && j.noReplace && j.tmp != j.leaf
    ensures NothingReplaced(es, j)
  {
    forall i | 0 <= i < |es| && Bound(es[i].before, j.dir, j.leaf).Some?
      ensures Bound(es[i].after, j.dir, j.leaf) == Bound(es[i].before, j.dir, j.leaf) || IsRollback(es, i, MoveOf(j))
    {
      CallReplacesNothing(es[i], j);
    }
  }

  // ---- the temporary file ----

  /** Nothing but `dir`/`tmp` names `id`. */
  predicate Solo(fs: Fs, dir: Id, tmp: string, id: Id) {
    forall d :: d in fs && fs[d].Dir? ==>
      forall n :: n in fs[d].entries && fs[d].entries[n] == id ==> d == dir && n == tmp
  }

  /** The temporary file exists, is ours alone and holds the payload. */
  predicate TmpIs(fs: Fs, dir: Id, tmp: string, p: Payload) {
    Bound(fs, dir, tmp) == Some(p.id) && p.id in fs && fs[p.id] == File(p.data) && Solo(fs, dir, tmp, p.id)
  }

  /** The other processes leave our temporary file alone; the rest of the file system is theirs. */
  ghost predicate RespectTmp(k: Kernel, dir: Id, tmp: string) {
    forall n: nat, fs: Fs, p: Payload {:trigger TmpIs(k.others(n, fs), dir, tmp, p)} ::
      TmpIs(fs, dir, tmp, p) ==> TmpIs(k.others(n, fs), dir, tmp, p)
  }

  /** At this step the target keeps what it held, or comes to hold the complete data, or (the rollback
      of an exclusive write) goes back to absent. */
  predicate TargetStep(e: Event, dir: Id, leaf: string, data: Bytes) {
    || Shows(e.after, dir, leaf) == Shows(e.before, dir, leaf)
    || Shows(e.after, dir, leaf) == Contents(data)
    || (e.call == Unlink(dir, leaf) && Shows(e.after, dir, leaf) == Absent)
  }

  ghost predicate TargetSteps(es: seq<Event>, dir: Id, leaf: string, data: Bytes) {
    forall i :: 0 <= i < |es| ==> TargetStep(es[i], dir, leaf, data)
  }

  /** Every state a crash could leave has the target as it was, or complete. */
  ghost predicate CrashSafe(es: seq<Event>, j: Job, was: View) {
    forall i :: 0 <= i < |es| ==>
      Shows(es[i].after, j.dir, j.leaf) == was || Shows(es[i].after, j.dir, j.leaf) == Contents(j.data)
  }

  // ---- the effect of each call ----

  lemma CreateEffect(e: Event, j: Job)
    requires ServedBy(e) && e.call == CreateExcl(j.dir, j.tmp) && j.tmp != j.leaf
    ensures Shows(e.after, j.dir, j.leaf) == Shows(e.before, j.dir, j.leaf)
    ensures e.reply.Ok? ==> TmpIs(e.after, j.dir, j.tmp, Payload(e.reply.id, [])) && Bound(e.before, j.dir, j.tmp).None?
    ensures e.reply.Err? ==> e.after == e.before
  {
  }

  lemma WriteEffect(e: Event, j: Job, done: Payload, bytes: Bytes)
    requires ServedBy(e) && e.call == Write(done.id, bytes) && j.tmp != j.leaf && TmpIs(e.before, j.dir, j.tmp, done)
    ensures Shows(e.after, j.dir, j.leaf) == Shows(e.before, j.dir, j.leaf)
    ensures e.reply.Ok? ==>
      e.reply.count <= |bytes| && TmpIs(e.after, j.dir, j.tmp, Payload(done.id, done.data + bytes[..e.reply.count]))
    ensures e.reply.Err? ==> e.after == e.before
  {
  }

  lemma InstallEffect(e: Event, m: Move, p: Payload)
    requires ServedBy(e) && Apart(m) && TmpIs(e.before, m.oldDir, m.oldName, p)
    requires
      || e.call == Rename(m.oldDir, m.oldName, m.newDir, m.newName)
      || e.call == RenameNoReplace(m.oldDir, m.oldName, m.newDir, m.newName)
    ensures e.reply.Ok? ==>
      Shows(e.after, m.newDir, m.newName) == Contents(p.data) && Bound(e.after, m.oldDir, m.oldName).None?
    ensures e.reply.Ok? && e.call.RenameNoReplace? ==> Bound(e.before, m.newDir, m.newName).None?
    ensures e.reply.Err? ==> e.after == e.before
  {
  }

  lemma LinkEffect(e: Event, m: Move)
    requires ServedBy(e) && e.call == LinkAt(m.oldDir, m.oldName, m.newDir, m.newName)
    ensures e.reply.Ok? ==>
      && Bound(e.before, m.newDir, m.newName).None?
      && Bound(e.after, m.newDir, m.newName) == Bound(e.after, m.oldDir, m.oldName) == Some(e.reply.id)
      && Bound(e.before, m.oldDir, m.oldName) == Some(e.reply.id)
      && Shows(e.after, m.newDir, m.newName) == Shows(e.after, m.oldDir, m.oldName)
      && (Shows(e.before, m.oldDir, m.oldName).Contents? ==>
          Shows(e.after, m.oldDir, m.oldName) == Shows(e.before, m.oldDir, m.oldName))
    ensures e.reply.Err? ==> e.after == e.before
  {
  }

  lemma UnlinkEffect(e: Event, dir: Id, name: string, otherDir: Id, other: string)
    requires ServedBy(e) && e.call == Unlink(dir, name) && (dir != otherDir || name != other)
    ensures Shows(e.after, otherDir, other) == Shows(e.before, otherDir, other)
    ensures Bound(e.after, otherDir, other) == Bound(e.before, otherDir, other)
    ensures e.reply.Ok? ==> Bound(e.before, dir, name) == Some(e.reply.id) && Bound(e.after, dir, name).None?
    ensures e.reply.Err? ==> e.after == e.before
  {
  }

  // ---- when a call succeeds ----

  /** Nobody else acts, nothing fails, and every write takes something. */
  ghost predicate Willing(k: Kernel) {
    k.Undisturbed() && k.NoFaults() && forall n: nat :: k.chance(n).accepts > 0
  }

  predicate DirAt(fs: Fs, dir: Id, name: string) {
    Holds(fs, dir, name).Some? && Holds(fs, dir, name).value.Dir?
  }

  /** Nothing is in the way of the new file: no entry at all of an exclusive write, no directory of another one. */
  predicate Free(fs: Fs, j: Job) {
    if j.noReplace then Bound(fs, j.dir, j.leaf).None? else !DirAt(fs, j.dir, j.leaf)
  }

  /** The directory is one, the temporary name is not taken, and nothing is in the way. */
  predicate Writable(fs: Fs, j: Job) {
    IsDir(fs, j.dir) && Bound(fs, j.dir, j.tmp).None? && Free(fs, j)
  }

  lemma CreateAnswers(e: Event, ch: Chance, dir: Id, name: string)
    requires ServedWith(e, ch) && e.call == CreateExcl(dir, name) && ch.fault.None?
    ensures e.reply.Ok? <==>
      IsDir(e.before, dir) && Bound(e.before, dir, name).None? && Unreferenced(e.before, ch.newId)
  {
  }

  lemma WriteAnswers(e: Event, ch: Chance, p: Payload, bytes: Bytes)
    requires ServedWith(e, ch) && e.call == Write(p.id, bytes) && ch.fault.None? && ch.accepts > 0 && bytes != []
    requires p.id in e.before && e.before[p.id] == File(p.data)
    ensures e.reply.Ok? && e.reply.count > 0
  {
  }

  lemma RenameAnswers(e: Event, ch: Chance, j: Job, p: Payload)
    requires ServedWith(e, ch) && e.call == Rename(j.dir, j.tmp, j.dir, j.leaf) && ch.fault.None? && !j.noReplace
    requires TmpIs(e.before, j.dir, j.tmp, p)
    ensures e.reply.Ok? <==> Free(e.before, j)
  {
  }

  lemma MoveAnswers(e: Event, ch: Chance, m: Move, p: Payload)
    requires ServedWith(e, ch) && ch.fault.None? && TmpIs(e.before, m.oldDir, m.oldName, p) && IsDir(e.before, m.newDir)
    requires
      || e.call == RenameNoReplace(m.oldDir, m.oldName, m.newDir, m.newName)
      || e.call == LinkAt(m.oldDir, m.oldName, m.newDir, m.newName)
    ensures e.reply.Ok? <==> Bound(e.before, m.newDir, m.newName).None?
    ensures e.call.LinkAt? ==> Shows(e.after, m.oldDir, m.oldName) == Contents(p.data)
  {
  }

  lemma UnlinkAnswers(e: Event, ch: Chance, dir: Id, name: string)
    requires ServedWith(e, ch) && e.call == Unlink(dir, name) && ch.fault.None?
    requires Shows(e.before, dir, name).Contents?
    ensures e.reply.Ok?
  {
  }

  /** Work on the temporary file does not get in the way, nor out of it. */
  lemma FreeStays(e: Event, j: Job, p: Payload)
    requires ServedBy(e) && j.tmp != j.leaf
    requires
      || e.call == CreateExcl(j.dir, j.tmp)
      || (e.call.Write? && e.call.fd == p.id && TmpIs(e.before, j.dir, j.tmp, p))
      || e.call.Sync?
      || e.call == Unlink(j.dir, j.tmp)
    ensures Free(e.after, j) <==> Free(e.before, j)
  {
  }

  /** A system call, with its entry in the log. */
  method Call(k: Kernel, call: Syscall) returns (reply: Reply, ghost e: Event)
    modifies k
    ensures k.clock == old(k.clock) + 1
    ensures e == Event(call, k.others(old(k.clock), old(k.fs)), reply, k.fs)
    ensures ServedBy(e) && ServedWith(e, k.chance(old(k.clock))) && (k.NoFaults() ==> FaultFree(e))
    ensures k.log == old(k.log) + [e]
  {
    ghost var before, ch := k.others(k.clock, k.fs), k.chance(k.clock);
    reply := k.Do(call);
    e := Event(call, before, reply, k.fs);
    assert ServedWith(e, ch);
  }

  /** Nobody else acted from `fs0` on: each call found what the one before had left. */
  ghost predicate Still(es: seq<Event>, fs0: Fs) {
    && (es != [] ==> es[0].before == fs0)
    && forall i :: 0 <= i < |es| - 1 ==> es[i + 1].before == es[i].after
  }

  /** The call that put the complete data under the target name. */
  ghost predicate Installed(es: seq<Event>, m: Move, data: Bytes, noReplace: bool) {
    exists i :: 0 <= i < |es| && Installs(es[i], m, data, noReplace)
  }

  predicate Installs(e: Event, m: Move, data: Bytes, noReplace: bool) {
    && (e.call.Rename? || e.call.RenameNoReplace? || e.call.LinkAt?)
    && e.reply.Ok?
    && Shows(e.after, m.newDir, m.newName) == Contents(data)
    && (noReplace ==> Bound(e.before, m.newDir, m.newName).None?)
  }

  /** The target was unlinked again, or that was tried. */
  predicate RollsBack(es: seq<Event>, m: Move) {
    exists i :: 0 <= i < |es| && es[i].call == Unlink(m.newDir, m.newName)
  }

  /** An unlink of the target failed. */
  predicate RollbackFailed(es: seq<Event>, m: Move) {
    exists i :: 0 <= i < |es| && es[i].call == Unlink(m.newDir, m.newName) && es[i].reply.Err?
  }

  // ---- link_then_unlink and rename_noreplace ----

  /** The calls `link_then_unlink` makes, its result and the state it leaves. */
  ghost predicate LinkThenUnlinkDid(es: seq<Event>, m: Move, after: Fs, r: Reply) {
    && Served(es)
    && 1 <= |es| <= 3 && es[|es| - 1].after == after
    && es[0].call == LinkAt(m.oldDir, m.oldName, m.newDir, m.newName)
    && (|es| > 1 <==> es[0].reply.Ok?)
    && (|es| > 1 ==> es[1].call == Unlink(m.oldDir, m.oldName))
    && (|es| > 2 <==> es[0].reply.Ok? && es[1].reply.Err?)
    && (|es| > 2 ==> es[2].call == Unlink(m.newDir, m.newName))
    && (r.Ok? <==> |es| == 2)
    && (|es| == 1 ==> r == es[0].reply) && (|es| == 3 ==> r == es[1].reply)
  }

  /** The file is still ours, with its data, whenever we try to put it in place. */
  ghost predicate Ready(es: seq<Event>, m: Move, p: Payload) {
    forall i :: 0 <= i < |es| && (es[i].call.LinkAt? || es[i].call.Rename? || es[i].call.RenameNoReplace?) ==>
      TmpIs(es[i].before, m.oldDir, m.oldName, p)
  }

  /** The file is there to be moved. */
  predicate Movable(fs: Fs, m: Move, p: Payload) {
    TmpIs(fs, m.oldDir, m.oldName, p) && IsDir(fs, m.newDir)
  }

  /** What happens after the link: the old name is dropped or, failing that, the new one. */
  ghost predicate DropOrUndoDid(es: seq<Event>, m: Move, after: Fs, r: Reply) {
    && Served(es)
    && 1 <= |es| <= 2 && es[|es| - 1].after == after
    && es[0].call == Unlink(m.oldDir, m.oldName) && r == es[0].reply
    && (|es| == 2 <==> r.Err?)
    && (|es| == 2 ==> es[1].call == Unlink(m.newDir, m.newName))
  }

  method DropOrUndo(k: Kernel, m: Move) returns (r: Reply, ghost es: seq<Event>)
    modifies k
    ensures k.log == old(k.log) + es
    ensures DropOrUndoDid(es, m, k.fs, r)
    ensures k.Undisturbed() ==> Still(es, old(k.fs))
    ensures Willing(k) && Shows(old(k.fs), m.oldDir, m.oldName).Contents? ==> r.Ok?
  {
    ghost var fs0, ch := k.fs, k.chance(k.clock);
    ghost var e;
    r, e := Call(k, Unlink(m.oldDir, m.oldName));
    es := [e];
    if Willing(k) && Shows(fs0, m.oldDir, m.oldName).Contents? {
      UnlinkAnswers(e, ch, m.oldDir, m.oldName);
    }
    if r.Err? {
      var _, e2 := Call(k, Unlink(m.newDir, m.newName));
      es := [e, e2];
    }
  }

  lemma LinkThen(e: Event, more: seq<Event>, m: Move, fs0: Fs, after: Fs, dropped: Reply, p: Payload)
    requires ServedBy(e) && e.call == LinkAt(m.oldDir, m.oldName, m.newDir, m.newName) && e.reply.Ok?
    requires DropOrUndoDid(more, m, after, dropped)
    ensures LinkThenUnlinkDid([e] + more, m, after, if dropped.Ok? then e.reply else dropped)
    ensures e.before == fs0 && Still(more, e.after) ==> Still([e] + more, fs0)
    ensures TmpIs(e.before, m.oldDir, m.oldName, p) ==> Ready([e] + more, m, p)
  {
    var es := [e] + more;
    assert forall i :: 1 <= i < |es| ==> es[i] == more[i - 1];
  }

  /** The three errors that say the file system lacks the atomic operation. */
  predicate Unsupported(r: Reply): (b: bool)
    ensures b <==> r.Err? && IsUnsupported(Some(r.error))
  {
    r == Err(INVAL) || r == Err(NOSYS) || r == Err(NOTSUP)
  }

  predicate IsUnsupported(fault: Option<Errno>) {
    fault == Some(INVAL) || fault == Some(NOSYS) || fault == Some(NOTSUP)
  }

  /** The file system has the atomic operation: no call fails for want of it. */
  ghost predicate Supports(k: Kernel) {
    forall n: nat :: !IsUnsupported(k.chance(n).fault)
  }

  /** What a move keeps, from `fs0` on: `Ready` against processes that leave the old name alone; the atomic rename is
      all there is where it is supported; and when nothing gets in the way it succeeds exactly if the new name is
      free. */
  ghost predicate MoveHeld(k: Kernel, es: seq<Event>, fs0: Fs, m: Move, native: bool, r: Reply, p: Payload) {
    && (k.Undisturbed() ==> Still(es, fs0))
    && (RespectTmp(k, m.oldDir, m.oldName) && TmpIs(fs0, m.oldDir, m.oldName, p) ==> Ready(es, m, p))
    && (native && Supports(k) ==> es != [] && !Unsupported(es[0].reply))
    && (Willing(k) && Movable(fs0, m, p) ==> (r.Ok? <==> Bound(fs0, m.newDir, m.newName).None?))
  }

  /** `linkat`, then drop the old name; if that fails, take the new link back and report failure. */
  method LinkThenUnlink(k: Kernel, m: Move, ghost p: Payload) returns (r: Reply, ghost es: seq<Event>)
    modifies k
    ensures k.log == old(k.log) + es
    ensures LinkThenUnlinkDid(es, m, k.fs, r)
    ensures MoveHeld(k, es, old(k.fs), m, false, r, p)
  {
    ghost var fs0, ch := k.fs, k.chance(k.clock);
    ghost var e, more;
    r, e := Call(k, LinkAt(m.oldDir, m.oldName, m.newDir, m.newName));
    es := [e];
    if Willing(k) && Movable(fs0, m, p) {
      MoveAnswers(e, ch, m, p);
    }
    if r.Ok? {
      var dropped;
      dropped, more := DropOrUndo(k, m);
      LinkThen(e, more, m, fs0, k.fs, dropped, p);
      es := es + more;
      r := if dropped.Ok? then r else dropped;
    }
  }

  lemma LinkStep(e: Event, m: Move, p: Payload)
    requires ServedBy(e) && e.call == LinkAt(m.oldDir, m.oldName, m.newDir, m.newName)
    requires TmpIs(e.before, m.oldDir, m.oldName, p)
    ensures TargetStep(e, m.newDir, m.newName, p.data)
    ensures e.reply.Ok? ==> Installs(e, m, p.data, true)
  {
    LinkEffect(e, m);
  }

  lemma UnlinkStep(e: Event, dir: Id, name: string, targetDir: Id, target: string, data: Bytes)
    requires ServedBy(e) && e.call == Unlink(dir, name)
    ensures TargetStep(e, targetDir, target, data)
  {
    if dir != targetDir || name != target {
      UnlinkEffect(e, dir, name, targetDir, target);
    }
  }

  lemma FailureChangesNothing(e: Event)
    requires ServedBy(e) && e.reply.Err?
    ensures e.after == e.before
  {
  }

  /** On its way a link-and-unlink leaves the target as it was, complete, or (rolled back) absent. */
  lemma LinkThenUnlinkTarget(es: seq<Event>, m: Move, after: Fs, r: Reply, p: Payload)
    requires LinkThenUnlinkDid(es, m, after, r) && Ready(es, m, p)
    ensures TargetSteps(es, m.newDir, m.newName, p.data)
    ensures r.Ok? ==> Installed(es, m, p.data, true)
  {
    forall i | 0 <= i < |es| ensures TargetStep(es[i], m.newDir, m.newName, p.data) {
      MoveStep(es[i], m, p);
    }
    if r.Ok? {
      LinkStep(es[0], m, p);
    }
  }

  lemma MoveStep(e: Event, m: Move, p: Payload)
    requires ServedBy(e)
    requires
      || e.call == LinkAt(m.oldDir, m.oldName, m.newDir, m.newName)
      || e.call == Unlink(m.oldDir, m.oldName)
      || e.call == Unlink(m.newDir, m.newName)
    requires e.call.LinkAt? ==> TmpIs(e.before, m.oldDir, m.oldName, p)
    ensures TargetStep(e, m.newDir, m.newName, p.data)
  {
    match e.call
    case LinkAt(_, _, _, _) => LinkStep(e, m, p);
    case Unlink(d, n) => UnlinkStep(e, d, n, m.newDir, m.newName, p.data);
  }

  /** Undisturbed, the payload is under at least one of its two names after every step; success means
      under the new one only; an error keeps the old name, and after a successful rollback the
      destination is absent. */
  lemma LinkThenUnlinkKeepsPayload(es: seq<Event>, fs0: Fs, m: Move, after: Fs, r: Reply)
    requires Apart(m) && LinkThenUnlinkDid(es, m, after, r) && Still(es, fs0)
    requires Bound(fs0, m.oldDir, m.oldName).Some?
    ensures forall i :: 0 <= i < |es| ==> UnderOne(es[i].after, m, Bound(fs0, m.oldDir, m.oldName))
    ensures r.Ok? ==>
      && Bound(after, m.oldDir, m.oldName).None?
      && Bound(after, m.newDir, m.newName) == Bound(fs0, m.oldDir, m.oldName)
    ensures r.Err? ==> Bound(after, m.oldDir, m.oldName) == Bound(fs0, m.oldDir, m.oldName)
    ensures r.Ok? || |es| > 1 ==> Bound(fs0, m.newDir, m.newName).None?
    ensures r.Err? && |es| == 1 ==> after == fs0
    ensures r.Err? && |es| == 3 && es[2].reply.Ok? ==> Bound(after, m.newDir, m.newName).None?
  {
    LinkEffect(es[0], m);
    if |es| > 1 {
      assert es[0 + 1].before == es[0].after;
      UnlinkEffect(es[1], m.oldDir, m.oldName, m.newDir, m.newName);
    }
    if |es| > 2 {
      assert es[1 + 1].before == es[1].after;
      UnlinkEffect(es[2], m.newDir, m.newName, m.oldDir, m.oldName);
    }
  }

  predicate UnderOne(fs: Fs, m: Move, id: Option<Id>) {
    Bound(fs, m.oldDir, m.oldName) == id || Bound(fs, m.newDir, m.newName) == id
  }

  // ---- what a rollback removes ----

  /** A rollback that succeeds removes our own link exactly if the name is bound as our link left it: it
      removes somebody else's entry exactly if somebody has rebound the name since. */
  lemma RollbackIsOursExactly(es: seq<Event>, i: nat, m: Move)
    requires Served(es) && IsRollback(es, i, m) && es[i].reply.Ok?
    ensures Bound(es[i].before, m.newDir, m.newName) == Some(es[i].reply.id)
    ensures Bound(es[i].after, m.newDir, m.newName).None?
    ensures Bound(es[i - 2].after, m.newDir, m.newName) == Some(es[i - 2].reply.id)
    ensures es[i].reply.id == es[i - 2].reply.id <==>
      Bound(es[i].before, m.newDir, m.newName) == Bound(es[i - 2].after, m.newDir, m.newName)
  {
    LinkEffect(es[i - 2], m);
    UnlinkEffect(es[i], m.newDir, m.newName, m.newDir, m.newName + "~");
  }

  /** With nobody else acting it is always our own. */
  lemma RollbackIsOursAlone(es: seq<Event>, fs0: Fs, i: nat, m: Move)
    requires Served(es) && Still(es, fs0) && IsRollback(es, i, m) && es[i].reply.Ok?
    ensures es[i].reply.id == es[i - 2].reply.id
  {
    FailureChangesNothing(es[i - 1]);
    var a, b := i - 2, i - 1;
    assert es[a + 1].before == es[a].after && es[b + 1].before == es[b].after;
    RollbackIsOursExactly(es, i, m);
  }

  /** Every rollback that succeeds removes what the write had linked. */
  ghost predicate OwnRollbacks(es: seq<Event>, m: Move) {
    forall i: nat :: IsRollback(es, i, m) && es[i].reply.Ok? ==> es[i].reply.id == es[i - 2].reply.id
  }

  lemma RollbacksAreOurs(es: seq<Event>, fs0: Fs, m: Move)
    requires Served(es) && Still(es, fs0)
    ensures OwnRollbacks(es, m)
  {
    forall i: nat | IsRollback(es, i, m) && es[i].reply.Ok? ensures es[i].reply.id == es[i - 2].reply.id {
      RollbackIsOursAlone(es, fs0, i, m);
    }
  }

  /** It can be somebody else's: another process replaces the new name between our link and our rollback. */
  lemma RollbackCanRemoveAnothersFile(m: Move, ours: Id, theirs: Id, dir: Id)
    returns (es: seq<Event>, r: Reply)
    requires m == Move(dir, "t", dir, "x") && dir != ours && dir != theirs && ours != theirs
    ensures |es| == 3 && LinkThenUnlinkDid(es, m, es[2].after, r) && IsRollback(es, 2, m)
    ensures Bound(es[2].before, dir, "x") == Some(theirs) != Some(es[0].reply.id)
    ensures Bound(es[2].after, dir, "x").None?
  {
    var fs0: Fs := map[dir := Dir(map["t" := ours]), ours := File([]), theirs := File([1])];
    var ch, fails := Chance(None, ours, 0), Chance(Some(OTHER), ours, 0);
    var link, drop, undo := LinkAt(dir, "t", dir, "x"), Unlink(dir, "t"), Unlink(dir, "x");
    var out0 := Serve(link, fs0, ch);
    var fs1 := Bind(out0.fs, dir, "x", theirs);
    var out1 := Serve(drop, fs1, fails);
    var out2 := Serve(undo, fs1, ch);
    es := [Event(link, fs0, out0.reply, out0.fs),
           Event(drop, fs1, out1.reply, out1.fs),
           Event(undo, fs1, out2.reply, out2.fs)];
    r := out1.reply;
    assert ServedWith(es[0], ch) && ServedWith(es[1], fails) && ServedWith(es[2], ch);
  }

  // ---- rename_noreplace ----

  lemma Supported(e: Event, ch: Chance, m: Move)
    requires ServedWith(e, ch) && e.call == RenameNoReplace(m.oldDir, m.oldName, m.newDir, m.newName)
    requires !IsUnsupported(ch.fault)
    ensures !Unsupported(e.reply)
  {
  }

  /** The calls of `rename_noreplace`: where there is such an operation, that, and a link-and-unlink exactly if
      it is not supported; elsewhere a link-and-unlink. */
  ghost predicate MoveDid(es: seq<Event>, m: Move, native: bool, after: Fs, r: Reply) {
    if !native then LinkThenUnlinkDid(es, m, after, r)
    else
      && es != [] && ServedBy(es[0])
      && es[0].call == RenameNoReplace(m.oldDir, m.oldName, m.newDir, m.newName)
      && (if Unsupported(es[0].reply) then LinkThenUnlinkDid(es[1..], m, after, r)
          else es == [es[0]] && es[0].after == after && r == es[0].reply)
  }

  lemma AtomicAnswers(k: Kernel, e: Event, ch: Chance, fs0: Fs, m: Move, p: Payload)
    requires ServedWith(e, ch) && e.call == RenameNoReplace(m.oldDir, m.oldName, m.newDir, m.newName)
    requires k.Undisturbed() ==> e.before == fs0
    requires (Supports(k) ==> !IsUnsupported(ch.fault)) && (k.NoFaults() ==> ch.fault.None?)
    ensures Supports(k) ==> !Unsupported(e.reply)
    ensures Willing(k) && Movable(fs0, m, p) ==>
      !Unsupported(e.reply) && (e.reply.Ok? <==> Bound(fs0, m.newDir, m.newName).None?)
  {
    if Supports(k) || Willing(k) {
      Supported(e, ch, m);
    }
    if Willing(k) && Movable(fs0, m, p) {
      MoveAnswers(e, ch, m, p);
    }
  }

  /** The atomic rename, tried when the file system was `fs0`. */
  ghost predicate Tried(k: Kernel, e: Event, fs0: Fs, m: Move, p: Payload) {
    && e.call == RenameNoReplace(m.oldDir, m.oldName, m.newDir, m.newName) && ServedBy(e)
    && (k.Undisturbed() ==> e.before == fs0)
    && (RespectTmp(k, m.oldDir, m.oldName) && TmpIs(fs0, m.oldDir, m.oldName, p) ==>
        TmpIs(e.before, m.oldDir, m.oldName, p))
    && (Supports(k) ==> !Unsupported(e.reply))
    && (Willing(k) && Movable(fs0, m, p) ==>
        !Unsupported(e.reply) && (e.reply.Ok? <==> Bound(fs0, m.newDir, m.newName).None?))
  }

  method TryAtomic(k: Kernel, m: Move, ghost p: Payload) returns (r: Reply, ghost e: Event)
    modifies k
    ensures k.log == old(k.log) + [e] && r == e.reply && k.fs == e.after
    ensures Tried(k, e, old(k.fs), m, p)
  {
    ghost var fs0, ch := k.fs, k.chance(k.clock);
    r, e := Call(k, RenameNoReplace(m.oldDir, m.oldName, m.newDir, m.newName));
    AtomicAnswers(k, e, ch, fs0, m, p);
  }

  lemma AtomicAlone(k: Kernel, e: Event, fs0: Fs, m: Move, p: Payload)
    requires Tried(k, e, fs0, m, p) && !Unsupported(e.reply)
    ensures MoveDid([e], m, true, e.after, e.reply) && MoveHeld(k, [e], fs0, m, true, e.reply, p)
  {
  }

  lemma AtomicThen(k: Kernel, e: Event, more: seq<Event>, fs0: Fs, m: Move, after: Fs, r: Reply, p: Payload)
    requires Tried(k, e, fs0, m, p) && Unsupported(e.reply)
    requires LinkThenUnlinkDid(more, m, after, r) && MoveHeld(k, more, e.after, m, false, r, p)
    ensures MoveDid([e] + more, m, true, after, r) && MoveHeld(k, [e] + more, fs0, m, true, r, p)
  {
    var es := [e] + more;
    FailureChangesNothing(e);
    assert es[1..] == more;
    assert forall i :: 1 <= i < |es| ==> es[i] == more[i - 1];
    if RespectTmp(k, m.oldDir, m.oldName) && TmpIs(fs0, m.oldDir, m.oldName, p) {
      assert TmpIs(e.after, m.oldDir, m.oldName, p);
    }
  }

  method MoveNoReplace(k: Kernel, m: Move, native: bool, ghost p: Payload) returns (r: Reply, ghost es: seq<Event>)
    modifies k
    ensures k.log == old(k.log) + es
    ensures MoveDid(es, m, native, k.fs, r)
    ensures MoveHeld(k, es, old(k.fs), m, native, r, p)
  {
    if !native {
      r, es := LinkThenUnlink(k, m, p);
      return;
    }
    ghost var fs0 := k.fs;
    ghost var e, more;
    r, e := TryAtomic(k, m, p);
    es := [e];
    if !Unsupported(r) {
      AtomicAlone(k, e, fs0, m, p);
    } else {
      r, more := LinkThenUnlink(k, m, p);
      AtomicThen(k, e, more, fs0, m, k.fs, r, p);
      es := es + more;
    }
  }

  /** The part of a move after an unsupported rename is a link-and-unlink of its own. */
  lemma Fallback(es: seq<Event>, fs0: Fs, m: Move, p: Payload)
    requires es != [] && ServedBy(es[0]) && es[0].reply.Err?
    ensures Still(es, fs0) ==> Still(es[1..], fs0)
    ensures Ready(es, m, p) ==> Ready(es[1..], m, p)
    ensures forall i :: 1 <= i < |es| ==> es[i] == es[1..][i - 1]
  {
    FailureChangesNothing(es[0]);
    var more := es[1..];
    if Still(es, fs0) && more != [] {
      assert es[0 + 1].before == es[0].after;
      forall i | 0 <= i < |more| - 1 ensures more[i + 1].before == more[i].after {
        var j := i + 1;
        assert es[j + 1].before == es[j].after;
      }
    }
    if Ready(es, m, p) {
      assert forall i :: 0 <= i < |more| ==> more[i] == es[i + 1];
    }
  }

  lemma MoveTarget(es: seq<Event>, m: Move, native: bool, after: Fs, r: Reply, p: Payload)
    requires Apart(m) && MoveDid(es, m, native, after, r) && Ready(es, m, p)
    ensures TargetSteps(es, m.newDir, m.newName, p.data)
    ensures r.Ok? ==> Installed(es, m, p.data, true)
  {
    if !native {
      LinkThenUnlinkTarget(es, m, after, r, p);
    } else {
      InstallEffect(es[0], m, p);
      if Unsupported(es[0].reply) {
        var more := es[1..];
        Fallback(es, after, m, p);
        LinkThenUnlinkTarget(more, m, after, r, p);
        if r.Ok? {
          var i :| 0 <= i < |more| && Installs(more[i], m, p.data, true);
          assert Installs(es[i + 1], m, p.data, true);
        }
      } else if r.Ok? {
        assert Installs(es[0], m, p.data, true);
      }
    }
  }

  /** How a move may end with nobody else acting. */
  ghost predicate MovedAlone(es: seq<Event>, fs0: Fs, m: Move, after: Fs, r: Reply, p: Payload) {
    && (r.Ok? ==>
        && Bound(fs0, m.newDir, m.newName).None? && Bound(after, m.oldDir, m.oldName).None?
        && Shows(after, m.newDir, m.newName) == Contents(p.data))
    && (r.Err? ==>
        && Bound(after, m.oldDir, m.oldName) == Some(p.id)
        && (Shows(after, m.newDir, m.newName) == Shows(fs0, m.newDir, m.newName) || RollbackFailed(es, m)))
    && (RollsBack(es, m) ==> Bound(fs0, m.newDir, m.newName).None?)
  }

  /** Undisturbed, success means the destination was absent and is now complete, the old name gone; an
      error keeps the old name, and the destination unless a rollback itself failed. */
  lemma MoveKeepsPayload(es: seq<Event>, fs0: Fs, m: Move, native: bool, after: Fs, r: Reply, p: Payload)
    requires Apart(m) && MoveDid(es, m, native, after, r) && Still(es, fs0) && TmpIs(fs0, m.oldDir, m.oldName, p)
    ensures MovedAlone(es, fs0, m, after, r, p)
  {
    if !native {
      LinkedPayload(es, fs0, m, after, r, p);
    } else {
      InstallEffect(es[0], m, p);
      if Unsupported(es[0].reply) {
        var more := es[1..];
        Fallback(es, fs0, m, p);
        LinkedPayload(more, fs0, m, after, r, p);
        if RollbackFailed(more, m) {
          var i :| 0 <= i < |more| && more[i].call == Unlink(m.newDir, m.newName) && more[i].reply.Err?;
          assert es[i + 1].call == Unlink(m.newDir, m.newName);
        }
        if RollsBack(es, m) {
          var i :| 0 <= i < |es| && es[i].call == Unlink(m.newDir, m.newName);
          assert more[i - 1].call == Unlink(m.newDir, m.newName);
        }
      }
    }
  }

  lemma LinkedPayload(es: seq<Event>, fs0: Fs, m: Move, after: Fs, r: Reply, p: Payload)
    requires Apart(m) && LinkThenUnlinkDid(es, m, after, r) && Still(es, fs0) && TmpIs(fs0, m.oldDir, m.oldName, p)
    ensures MovedAlone(es, fs0, m, after, r, p)
  {
    LinkThenUnlinkKeepsPayload(es, fs0, m, after, r);
    LinkEffect(es[0], m);
    if r.Ok? {
      assert es[0 + 1].before == es[0].after;
      UnlinkEffect(es[1], m.oldDir, m.oldName, m.newDir, m.newName);
    }
  }

  lemma MoveOnlyRollsBack(es: seq<Event>, m: Move, native: bool, after: Fs, r: Reply)
    requires Apart(m) && MoveDid(es, m, native, after, r)
    ensures OnlyRollbacks(es, m)
  {
    if native && Unsupported(es[0].reply) {
      var more := es[1..];
      assert forall i :: 1 <= i < |es| ==> es[i] == more[i - 1];
    }
  }

  // ---- write_impl ----

  /** Nobody else acted during the span. */
  ghost predicate Alone(s: Span) {
    Still(s.es, s.before) && s.after == if s.es == [] then s.before else s.es[|s.es| - 1].after
  }

  /** A stretch of the write: our calls only, none of which leaves the target anything but as it was,
      complete, or rolled back after our own link. */
  ghost predicate Phase(k: Kernel, s: Span, j: Job) {
    && Served(s.es) && OurCalls(s.es, j) && OnlyRollbacks(s.es, MoveOf(j))
    && (RespectTmp(k, j.dir, j.tmp) ==> TargetSteps(s.es, j.dir, j.leaf, j.data))
    && (k.Undisturbed() ==> Alone(s))
  }

  /** `a`, then `b`. */
  function Then(a: Span, b: Span): Span { Span(a.es + b.es, a.before, b.after) }

  lemma ConcatFinds(a: seq<Event>, b: seq<Event>, j: Job)
    ensures RollsBack(a + b, MoveOf(j)) ==> RollsBack(a, MoveOf(j)) || RollsBack(b, MoveOf(j))
    ensures RollbackFailed(a, MoveOf(j)) || RollbackFailed(b, MoveOf(j)) ==> RollbackFailed(a + b, MoveOf(j))
    ensures Installed(a, MoveOf(j), j.data, j.noReplace) || Installed(b, MoveOf(j), j.data, j.noReplace) ==>
      Installed(a + b, MoveOf(j), j.data, j.noReplace)
  {
    var es, m := a + b, MoveOf(j);
    assert forall i :: 0 <= i < |a| ==> es[i] == a[i];
    assert forall i :: 0 <= i < |b| ==> es[|a| + i] == b[i];
    if RollsBack(es, m) {
      var i :| 0 <= i < |es| && es[i].call == Unlink(m.newDir, m.newName);
      assert i >= |a| ==> b[i - |a|].call == Unlink(m.newDir, m.newName);
    }
    if RollbackFailed(b, m) {
      var i :| 0 <= i < |b| && b[i].call == Unlink(m.newDir, m.newName) && b[i].reply.Err?;
      assert es[|a| + i].call == Unlink(m.newDir, m.newName);
    }
    if Installed(a, m, j.data, j.noReplace) {
      var i :| 0 <= i < |a| && Installs(a[i], m, j.data, j.noReplace);
      assert Installs(es[i], m, j.data, j.noReplace);
    }
    if Installed(b, m, j.data, j.noReplace) {
      var i :| 0 <= i < |b| && Installs(b[i], m, j.data, j.noReplace);
      assert Installs(es[|a| + i], m, j.data, j.noReplace);
    }
  }

  lemma ConcatRollbacks(a: seq<Event>, b: seq<Event>, m: Move)
    requires OnlyRollbacks(a, m) && OnlyRollbacks(b, m)
    ensures OnlyRollbacks(a + b, m)
  {
    var es := a + b;
    forall i | 0 <= i < |es| && es[i].call == Unlink(m.newDir, m.newName) ensures IsRollback(es, i, m) {
      if i < |a| {
        assert IsRollback(a, i, m);
      } else {
        assert IsRollback(b, i - |a|, m);
      }
    }
  }

  lemma PhaseThen(k: Kernel, a: Span, b: Span, j: Job)
    requires Phase(k, a, j) && Phase(k, b, j) && a.after == b.before
    ensures Phase(k, Then(a, b), j)
  {
    var es := a.es + b.es;
    ConcatRollbacks(a.es, b.es, MoveOf(j));
    assert forall i :: 0 <= i < |es| ==> es[i] == if i < |a.es| then a.es[i] else b.es[i - |a.es|];
    if k.Undisturbed() {
      forall i | 0 <= i < |es| - 1 ensures es[i + 1].before == es[i].after {
        if i + 1 < |a.es| {
          assert a.es[i + 1].before == a.es[i].after;
        } else if i >= |a.es| {
          assert b.es[i - |a.es| + 1].before == b.es[i - |a.es|].after;
        }
      }
    }
  }

  lemma WroteAtMost(e: Event)
    requires ServedBy(e) && e.call.Write? && e.reply.Ok?
    ensures e.reply.count <= |e.call.bytes|
  {
  }

  lemma NoDisturbanceRespectsTmp(k: Kernel, dir: Id, tmp: string)
    requires k.Undisturbed()
    ensures RespectTmp(k, dir, tmp)
  {
  }

  /** A stretch that leaves the target alone. */
  ghost predicate TargetAlone(k: Kernel, s: Span, j: Job) {
    && !RollsBack(s.es, MoveOf(j))
    && (k.Undisturbed() ==>
        && Shows(s.after, j.dir, j.leaf) == Shows(s.before, j.dir, j.leaf)
        && (Free(s.after, j) <==> Free(s.before, j)))
  }

  /** A stretch of filling the temporary file. */
  ghost predicate Filling(k: Kernel, s: Span, j: Job) {
    Phase(k, s, j) && TargetAlone(k, s, j)
  }

  lemma FillingThen(k: Kernel, a: Span, b: Span, j: Job)
    requires Filling(k, a, j) && Filling(k, b, j) && a.after == b.before
    ensures Filling(k, Then(a, b), j)
  {
    PhaseThen(k, a, b, j);
    ConcatFinds(a.es, b.es, j);
  }

  lemma WriteFills(k: Kernel, e: Event, fs0: Fs, j: Job, p: Payload, bytes: Bytes)
    requires ServedBy(e) && e.call == Write(p.id, bytes) && j.tmp != j.leaf
    requires RespectTmp(k, j.dir, j.tmp) ==> TmpIs(e.before, j.dir, j.tmp, p)
    requires k.Undisturbed() ==> e.before == fs0
    ensures Filling(k, Span([e], fs0, e.after), j)
  {
    if k.Undisturbed() {
      NoDisturbanceRespectsTmp(k, j.dir, j.tmp);
      FreeStays(e, j, p);
    }
    if RespectTmp(k, j.dir, j.tmp) {
      WriteEffect(e, j, p, bytes);
    }
  }

  // ---- in what order: create, write, sync, and only then put in place ----

  predicate Installing(call: Syscall) { call.Rename? || call.RenameNoReplace? || call.LinkAt? }

  predicate IsSync(e: Event, fd: Id) { e.call == Sync(fd) && e.reply.Ok? }

  ghost predicate FillsOnly(es: seq<Event>, fd: Id) {
    forall i :: 0 <= i < |es| ==> (es[i].call.Write? || es[i].call.Sync?) && es[i].call.fd == fd
  }

  ghost predicate PutsOnly(es: seq<Event>) {
    forall i :: 0 <= i < |es| ==> Installing(es[i].call) || es[i].call.Unlink?
  }

  /** Call `i` follows a successful sync of `fd`, after which nothing is written. */
  ghost predicate AfterSync(es: seq<Event>, i: nat, fd: Id) {
    exists h :: 0 <= h < i && h < |es| && IsSync(es[h], fd) && forall w :: h < w < |es| ==> !es[w].call.Write?
  }

  ghost predicate SyncedPut(es: seq<Event>, fd: Id) {
    && (forall i :: 0 <= i < |es| ==> !es[i].call.CreateExcl?)
    && (forall i :: 0 <= i < |es| && (es[i].call.Write? || es[i].call.Sync?) ==> es[i].call.fd == fd)
    && (forall i :: 0 <= i < |es| && Installing(es[i].call) ==> AfterSync(es, i, fd))
  }

  /** The first call creates the temporary file, and no other call does; all that is written goes to it; and it is put
      in place only after a sync of it that succeeded, with nothing written since. */
  ghost predicate SyncedFirst(es: seq<Event>) {
    && es != [] && es[0].call.CreateExcl?
    && (es[0].reply.Err? ==> |es| == 1)
    && (es[0].reply.Ok? ==>
        && (forall i :: 1 <= i < |es| ==> !es[i].call.CreateExcl?)
        && (forall i :: 1 <= i < |es| && (es[i].call.Write? || es[i].call.Sync?) ==> es[i].call.fd == es[0].reply.id)
        && (forall i :: 1 <= i < |es| && Installing(es[i].call) ==> AfterSync(es, i, es[0].reply.id)))
  }

  /** The last call removes the temporary file. */
  ghost predicate EndsDropped(k: Kernel, es: seq<Event>, j: Job) {
    && es != [] && es[|es| - 1].call == Unlink(j.dir, j.tmp)
    && (k.NoFaults() ==> FaultFree(es[|es| - 1]))
  }

  /** Unless there never was a temporary file, the last call removes it. */
  ghost predicate CleansUp(k: Kernel, es: seq<Event>, j: Job) {
    es != [] && (es[0].reply.Err? || EndsDropped(k, es, j))
  }

  lemma SyncThenPut(fill: seq<Event>, put: seq<Event>, fd: Id, ok: bool)
    requires FillsOnly(fill, fd) && PutsOnly(put)
    requires if ok then fill != [] && IsSync(fill[|fill| - 1], fd)
             else forall i :: 0 <= i < |put| ==> !Installing(put[i].call)
    ensures SyncedPut(fill + put, fd)
  {
    var es := fill + put;
    assert forall i :: 0 <= i < |es| ==> es[i] == if i < |fill| then fill[i] else put[i - |fill|];
    forall i | 0 <= i < |es| && Installing(es[i].call) ensures AfterSync(es, i, fd) {
      assert i >= |fill| && es[i] == put[i - |fill|];
      var h := |fill| - 1;
      assert IsSync(es[h], fd);
    }
  }

  lemma CreateThenPut(e: Event, more: seq<Event>)
    requires e.call.CreateExcl? && e.reply.Ok? && SyncedPut(more, e.reply.id)
    ensures SyncedFirst([e] + more)
  {
    var es := [e] + more;
    assert forall i :: 1 <= i < |es| ==> es[i] == more[i - 1];
    forall i | 1 <= i < |es| && Installing(es[i].call) ensures AfterSync(es, i, e.reply.id) {
      assert AfterSync(more, i - 1, e.reply.id);
      var h :| 0 <= h < i - 1 && IsSync(more[h], e.reply.id) && forall w :: h < w < |more| ==> !more[w].call.Write?;
      assert IsSync(es[h + 1], e.reply.id);
      forall w | h + 1 < w < |es| ensures !es[w].call.Write? {
        assert es[w] == more[w - 1];
      }
    }
  }

  lemma MovePutsOnly(es: seq<Event>, m: Move, native: bool, after: Fs, r: Reply)
    requires MoveDid(es, m, native, after, r)
    ensures PutsOnly(es)
  {
    if native && Unsupported(es[0].reply) {
      var more := es[1..];
      assert forall i :: 1 <= i < |es| ==> es[i] == more[i - 1];
    }
  }

  /** One write; 0 stands for an error, too. */
  method WriteSome(k: Kernel, bytes: Bytes, fd: Id, ghost j: Job, ghost p: Payload) returns (n: nat, ghost e: Event)
    requires j.tmp != j.leaf && p.id == fd && bytes != []
    requires RespectTmp(k, j.dir, j.tmp) ==> TmpIs(k.fs, j.dir, j.tmp, p)
    modifies k
    ensures k.log == old(k.log) + [e] && n <= |bytes| && e.call == Write(fd, bytes)
    ensures Filling(k, Span([e], old(k.fs), k.fs), j)
    ensures RespectTmp(k, j.dir, j.tmp) && n > 0 ==> TmpIs(k.fs, j.dir, j.tmp, Payload(fd, p.data + bytes[..n]))
    ensures Willing(k) ==> n > 0
  {
    ghost var fs0, ch := k.fs, k.chance(k.clock);
    var reply;
    reply, e := Call(k, Write(fd, bytes));
    assert RespectTmp(k, j.dir, j.tmp) ==> TmpIs(e.before, j.dir, j.tmp, p);
    WriteFills(k, e, fs0, j, p, bytes);
    if RespectTmp(k, j.dir, j.tmp) {
      WriteEffect(e, j, p, bytes);
    }
    if Willing(k) {
      NoDisturbanceRespectsTmp(k, j.dir, j.tmp);
      WriteAnswers(e, ch, p, bytes);
    }
    if reply.Err? {
      return 0, e;
    }
    WroteAtMost(e);
    n := reply.count;
  }

  /** `write_all`: as many writes as it takes. */
  method WriteAll(k: Kernel, fd: Id, data: Bytes, ghost j: Job) returns (ok: bool, ghost es: seq<Event>)
    requires j.tmp != j.leaf
    requires RespectTmp(k, j.dir, j.tmp) ==> TmpIs(k.fs, j.dir, j.tmp, Payload(fd, []))
    modifies k
    ensures k.log == old(k.log) + es
    ensures Filling(k, Span(es, old(k.fs), k.fs), j)
    ensures RespectTmp(k, j.dir, j.tmp) && ok ==> TmpIs(k.fs, j.dir, j.tmp, Payload(fd, data))
    ensures Willing(k) ==> ok
    ensures FillsOnly(es, fd)
  {
    es := [];
    var done := 0;
    while done < |data|
      invariant done <= |data|
      invariant k.log == old(k.log) + es
      invariant Filling(k, Span(es, old(k.fs), k.fs), j) && FillsOnly(es, fd)
      invariant RespectTmp(k, j.dir, j.tmp) ==> TmpIs(k.fs, j.dir, j.tmp, Payload(fd, data[..done]))
    {
      ghost var fs1 := k.fs;
      var n; ghost var e;
      n, e := WriteSome(k, data[done..], fd, j, Payload(fd, data[..done]));
      FillingThen(k, Span(es, old(k.fs), fs1), Span([e], fs1, k.fs), j);
      es := es + [e];
      if n == 0 {
        return false, es;
      }
      assert data[..done] + data[done..][..n] == data[..done + n];
      done := done + n;
    }
    ok := true;
    assert data[..|data|] == data;
  }

  lemma {:induction false} CrashStates(es: seq<Event>, fs0: Fs, j: Job)
    requires Still(es, fs0) && TargetSteps(es, j.dir, j.leaf, j.data)
    requires RollsBack(es, MoveOf(j)) ==> Shows(fs0, j.dir, j.leaf) == Absent
    ensures CrashSafe(es, j, Shows(fs0, j.dir, j.leaf))
  {
    if es != [] {
      var most, n := es[..|es| - 1], |es| - 1;
      assert Still(most, fs0) by {
        forall i | 0 <= i < |most| - 1 ensures most[i + 1].before == most[i].after {
          assert es[i + 1].before == es[i].after;
        }
      }
      if RollsBack(most, MoveOf(j)) {
        var i :| 0 <= i < |most| && most[i].call == Unlink(j.dir, j.leaf);
        assert es[i].call == Unlink(j.dir, j.leaf);
      }
      CrashStates(most, fs0, j);
      assert TargetStep(es[n], j.dir, j.leaf, j.data);
      if n > 0 {
        assert es[n - 1 + 1].before == es[n - 1].after;
        assert es[n - 1] == most[n - 1];
      }
      forall i | 0 <= i < n
        ensures
          || Shows(es[i].after, j.dir, j.leaf) == Shows(fs0, j.dir, j.leaf)
          || Shows(es[i].after, j.dir, j.leaf) == Contents(j.data)
      {
        assert es[i] == most[i];
      }
    }
  }

  /** Fill the temporary file and sync it. */
  method FillTmp(k: Kernel, fd: Id, data: Bytes, ghost j: Job) returns (ok: bool, ghost es: seq<Event>)
    requires j.tmp != j.leaf
    requires RespectTmp(k, j.dir, j.tmp) ==> TmpIs(k.fs, j.dir, j.tmp, Payload(fd, []))
    modifies k
    ensures k.log == old(k.log) + es
    ensures Filling(k, Span(es, old(k.fs), k.fs), j)
    ensures RespectTmp(k, j.dir, j.tmp) && ok ==> TmpIs(k.fs, j.dir, j.tmp, Payload(fd, data))
    ensures Willing(k) ==> ok
    ensures FillsOnly(es, fd) && (ok ==> es != [] && IsSync(es[|es| - 1], fd))
  {
    ok, es := WriteAll(k, fd, data, j);
    if !ok {
      return;
    }
    ghost var fs1, ch := k.fs, k.chance(k.clock);
    var synced, e := Call(k, Sync(fd));
    SyncChangesNothing(e, ch);
    assert RespectTmp(k, j.dir, j.tmp) ==> TmpIs(e.before, j.dir, j.tmp, Payload(fd, data));
    FillingThen(k, Span(es, old(k.fs), fs1), Span([e], fs1, k.fs), j);
    ok, es := synced.Ok?, es + [e];
  }

  lemma SyncChangesNothing(e: Event, ch: Chance)
    requires ServedWith(e, ch) && e.call.Sync?
    ensures e.after == e.before && (ch.fault.None? ==> e.reply.Ok?)
  {
  }

  /** A replacing write has nothing to roll back, nor has an exclusive one where the atomic rename is supported. */
  ghost predicate NoRollback(k: Kernel, j: Job, native: bool) {
    !j.noReplace || (native && Supports(k))
  }

  /** How a stretch that ends the write may have gone: `r` is what the write returns. */
  ghost predicate Landed(k: Kernel, s: Span, j: Job, native: bool, r: Reply) {
    && Phase(k, s, j)
    && (NoRollback(k, j, native) ==> !RollsBack(s.es, MoveOf(j)))
    && (RespectTmp(k, j.dir, j.tmp) && r.Ok? ==> Installed(s.es, MoveOf(j), j.data, j.noReplace))
    && (k.Undisturbed() && r.Ok? ==>
        && Shows(s.after, j.dir, j.leaf) == Contents(j.data) && Bound(s.after, j.dir, j.tmp).None?
        && (j.noReplace ==> Shows(s.before, j.dir, j.leaf) == Absent))
    && (k.Undisturbed() && r.Err? ==>
        || Shows(s.after, j.dir, j.leaf) == Shows(s.before, j.dir, j.leaf)
        || RollbackFailed(s.es, MoveOf(j)))
    && (k.Undisturbed() && RollsBack(s.es, MoveOf(j)) ==> Shows(s.before, j.dir, j.leaf) == Absent)
  }

  lemma GaveUp(k: Kernel, s: Span, j: Job, native: bool, r: Reply)
    requires Filling(k, s, j) && r.Err?
    ensures Landed(k, s, j, native, r)
  {
  }

  lemma LandedAfter(k: Kernel, a: Span, b: Span, j: Job, native: bool, r: Reply)
    requires Filling(k, a, j) && Landed(k, b, j, native, r) && a.after == b.before
    ensures Landed(k, Then(a, b), j, native, r)
  {
    PhaseThen(k, a, b, j);
    ConcatFinds(a.es, b.es, j);
  }

  lemma LandedThenDrop(k: Kernel, a: Span, b: Span, j: Job, native: bool, r: Reply)
    requires Landed(k, a, j, native, r) && r.Err? && Filling(k, b, j) && a.after == b.before
    ensures Landed(k, Then(a, b), j, native, r)
  {
    PhaseThen(k, a, b, j);
    ConcatFinds(a.es, b.es, j);
  }

  lemma RenameLands(k: Kernel, e: Event, fs0: Fs, j: Job, native: bool, p: Payload)
    requires ServedBy(e) && e.call == Rename(j.dir, j.tmp, j.dir, j.leaf) && !j.noReplace && j.tmp != j.leaf
    requires p.data == j.data && (RespectTmp(k, j.dir, j.tmp) ==> TmpIs(e.before, j.dir, j.tmp, p))
    requires k.Undisturbed() ==> e.before == fs0
    ensures Landed(k, Span([e], fs0, e.after), j, native, e.reply)
  {
    if k.Undisturbed() {
      NoDisturbanceRespectsTmp(k, j.dir, j.tmp);
    }
    if RespectTmp(k, j.dir, j.tmp) {
      InstallEffect(e, MoveOf(j), p);
      assert e.reply.Ok? ==> Installs([e][0], MoveOf(j), j.data, j.noReplace);
    }
  }

  lemma MoveIsOurs(es: seq<Event>, j: Job, native: bool, after: Fs, r: Reply)
    requires j.noReplace && MoveDid(es, MoveOf(j), native, after, r)
    ensures Served(es) && OurCalls(es, j)
    ensures es != [] && es[|es| - 1].after == after
  {
    if native && Unsupported(es[0].reply) {
      var more := es[1..];
      assert forall i :: 1 <= i < |es| ==> es[i] == more[i - 1];
    }
  }

  lemma MoveLands(k: Kernel, s: Span, j: Job, native: bool, r: Reply, p: Payload)
    requires j.noReplace && j.tmp != j.leaf && p.data == j.data && MoveDid(s.es, MoveOf(j), native, s.after, r)
    requires k.Undisturbed() ==> Still(s.es, s.before) && TmpIs(s.before, j.dir, j.tmp, p)
    requires RespectTmp(k, j.dir, j.tmp) ==> Ready(s.es, MoveOf(j), p)
    requires native && Supports(k) ==> !Unsupported(s.es[0].reply)
    ensures Landed(k, s, j, native, r)
  {
    var m := MoveOf(j);
    MoveIsOurs(s.es, j, native, s.after, r);
    MoveOnlyRollsBack(s.es, m, native, s.after, r);
    if k.Undisturbed() {
      NoDisturbanceRespectsTmp(k, j.dir, j.tmp);
      MoveKeepsPayload(s.es, s.before, m, native, s.after, r, p);
    }
    if RespectTmp(k, j.dir, j.tmp) {
      MoveTarget(s.es, m, native, s.after, r, p);
    }
  }

  /** The final rename, replacing or not. */
  method PutInPlace(k: Kernel, j: Job, native: bool, ghost p: Payload) returns (r: Reply, ghost es: seq<Event>)
    requires j.tmp != j.leaf && p.data == j.data
    requires RespectTmp(k, j.dir, j.tmp) ==> TmpIs(k.fs, j.dir, j.tmp, p)
    modifies k
    ensures k.log == old(k.log) + es
    ensures Landed(k, Span(es, old(k.fs), k.fs), j, native, r)
    ensures Willing(k) ==> (r.Ok? <==> Free(old(k.fs), j))
    ensures PutsOnly(es)
  {
    ghost var fs0, ch := k.fs, k.chance(k.clock);
    if k.Undisturbed() {
      NoDisturbanceRespectsTmp(k, j.dir, j.tmp);
    }
    if j.noReplace {
      r, es := MoveNoReplace(k, MoveOf(j), native, p);
      MoveLands(k, Span(es, fs0, k.fs), j, native, r, p);
      MovePutsOnly(es, MoveOf(j), native, k.fs, r);
    } else {
      var reply, e := Call(k, Rename(j.dir, j.tmp, j.dir, j.leaf));
      assert RespectTmp(k, j.dir, j.tmp) ==> TmpIs(e.before, j.dir, j.tmp, p);
      RenameLands(k, e, fs0, j, native, p);
      if Willing(k) {
        RenameAnswers(e, ch, j, p);
      }
      r, es := reply, [e];
    }
  }

  /** Best-effort removal of the temporary file after a failure. */
  method DropTmp(k: Kernel, j: Job) returns (ghost es: seq<Event>)
    requires j.tmp != j.leaf
    modifies k
    ensures k.log == old(k.log) + es
    ensures Filling(k, Span(es, old(k.fs), k.fs), j)
    ensures |es| == 1 && EndsDropped(k, es, j) && PutsOnly(es)
  {
    var _, e := Call(k, Unlink(j.dir, j.tmp));
    UnlinkEffect(e, j.dir, j.tmp, j.dir, j.leaf);
    FreeStays(e, j, Payload(ROOT, []));
    es := [e];
  }

  method PutInPlaceOrDrop(k: Kernel, j: Job, native: bool, ghost p: Payload) returns (r: Reply, ghost es: seq<Event>)
    requires j.tmp != j.leaf && p.data == j.data
    requires RespectTmp(k, j.dir, j.tmp) ==> TmpIs(k.fs, j.dir, j.tmp, p)
    modifies k
    ensures k.log == old(k.log) + es
    ensures Landed(k, Span(es, old(k.fs), k.fs), j, native, r)
    ensures Willing(k) ==> (r.Ok? <==> Free(old(k.fs), j))
    ensures PutsOnly(es) && (r.Err? ==> EndsDropped(k, es, j))
  {
    ghost var fs0 := k.fs;
    r, es := PutInPlace(k, j, native, p);
    if r.Err? {
      ghost var fs1 := k.fs;
      ghost var ds := DropTmp(k, j);
      LandedThenDrop(k, Span(es, fs0, fs1), Span(ds, fs1, k.fs), j, native, r);
      es := es + ds;
    }
  }

  /** What a write may have done; `r` is what it returned. */
  ghost predicate Wrote(k: Kernel, s: Span, j: Job, native: bool, r: Reply) {
    && s.es != [] && Served(s.es) && OurCalls(s.es, j)
    // against any other processes:
    && OnlyRollbacks(s.es, MoveOf(j))
    && (j.noReplace ==> NothingReplaced(s.es, j))
    && (NoRollback(k, j, native) ==> !RollsBack(s.es, MoveOf(j)))
    && SyncedFirst(s.es)
    && (r.Err? ==> CleansUp(k, s.es, j))
    // against any that leave the temporary file alone:
    && (RespectTmp(k, j.dir, j.tmp) ==> TargetSteps(s.es, j.dir, j.leaf, j.data))
    && (RespectTmp(k, j.dir, j.tmp) && r.Ok? ==> Installed(s.es, MoveOf(j), j.data, j.noReplace))
    // and with nobody else acting:
    && (k.Undisturbed() ==>
        Alone(s) && CrashSafe(s.es, j, Shows(s.before, j.dir, j.leaf)) && OwnRollbacks(s.es, MoveOf(j)))
    && (k.Undisturbed() && r.Ok? ==>
        && Shows(s.after, j.dir, j.leaf) == Contents(j.data) && Bound(s.after, j.dir, j.tmp).None?
        && (j.noReplace ==> Shows(s.before, j.dir, j.leaf) == Absent))
    && (k.Undisturbed() && r.Err? ==>
        || Shows(s.after, j.dir, j.leaf) == Shows(s.before, j.dir, j.leaf)
        || RollbackFailed(s.es, MoveOf(j)))
    && (k.Undisturbed() && r.Err? ==> TmpAsBefore(k, s, j))
  }

  /** A failed write leaves the temporary name as it was, unless its removal failed; and that takes a fault. */
  ghost predicate TmpAsBefore(k: Kernel, s: Span, j: Job) {
    Bound(s.after, j.dir, j.tmp) == Bound(s.before, j.dir, j.tmp) || (TmpDropFailed(s.es, j) && !k.NoFaults())
  }

  predicate TmpDropFailed(es: seq<Event>, j: Job) {
    es != [] && es[|es| - 1].call == Unlink(j.dir, j.tmp) && es[|es| - 1].reply.Err?
  }

  /** What we do makes no directory of the temporary name. */
  lemma NoDirMade(e: Event, j: Job)
    requires ServedBy(e) && OurCall(e.call, j) && j.tmp != j.leaf && !DirAt(e.before, j.dir, j.tmp)
    ensures !DirAt(e.after, j.dir, j.tmp)
  {
  }

  lemma {:induction false} NoDirAtTmp(es: seq<Event>, fs0: Fs, j: Job, i: nat)
    requires Served(es) && OurCalls(es, j) && Still(es, fs0) && j.tmp != j.leaf && i < |es|
    requires !DirAt(fs0, j.dir, j.tmp)
    ensures !DirAt(es[i].before, j.dir, j.tmp)
  {
    if i > 0 {
      NoDirAtTmp(es, fs0, j, i - 1);
      NoDirMade(es[i - 1], j);
      assert es[i - 1 + 1].before == es[i - 1].after;
    }
  }

  lemma DropLeavesNone(e: Event, j: Job)
    requires ServedBy(e) && e.call == Unlink(j.dir, j.tmp) && !DirAt(e.before, j.dir, j.tmp)
    ensures e.reply.Ok? ==> Bound(e.after, j.dir, j.tmp).None?
    ensures FaultFree(e) ==> Bound(e.after, j.dir, j.tmp).None?
  {
  }

  lemma CreatedWhereNone(e: Event, j: Job)
    requires ServedBy(e) && e.call == CreateExcl(j.dir, j.tmp)
    ensures e.reply.Ok? ==> Bound(e.before, j.dir, j.tmp).None?
    ensures e.reply.Err? ==> e.after == e.before
  {
  }

  lemma CleanedUp(k: Kernel, s: Span, j: Job)
    requires k.Undisturbed() && s.es != [] && Served(s.es) && OurCalls(s.es, j) && Alone(s) && j.tmp != j.leaf
    requires SyncedFirst(s.es) && CleansUp(k, s.es, j)
    ensures TmpAsBefore(k, s, j)
  {
    var n := |s.es| - 1;
    CreatedWhereNone(s.es[0], j);
    if s.es[0].reply.Ok? {
      NoDirAtTmp(s.es, s.before, j, n);
      DropLeavesNone(s.es[n], j);
    }
  }

  /** A fresh temporary file, filled and synced, then renamed onto the target, or moved there without
      replacing. `j.dir` is the parent the walk returned. */
  method WriteImpl(k: Kernel, j: Job, native: bool) returns (r: Reply, ghost es: seq<Event>)
    requires j.tmp != j.leaf  // temporary names are not file names anyone asks for
    modifies k
    ensures k.log == old(k.log) + es
    ensures Wrote(k, Span(es, old(k.fs), k.fs), j, native, r)
    ensures Willing(k) && Unreferenced(old(k.fs), k.chance(old(k.clock)).newId) ==>
      (r.Ok? <==> Writable(old(k.fs), j))
    ensures es[0].before == k.others(old(k.clock), old(k.fs))
  {
    ghost var fs0 := k.fs;
    r, es := WriteSteps(k, j, native);
    if k.Undisturbed() {
      NoDisturbanceRespectsTmp(k, j.dir, j.tmp);
      CrashStates(es, fs0, j);
      RollbacksAreOurs(es, fs0, MoveOf(j));
      if r.Err? {
        CleanedUp(k, Span(es, fs0, k.fs), j);
      }
    }
    if j.noReplace {
      NeverReplaces(es, j);
    }
  }

  lemma CreateFills(k: Kernel, e: Event, ch: Chance, fs0: Fs, j: Job)
    requires ServedBy(e) && ServedWith(e, ch) && e.call == CreateExcl(j.dir, j.tmp) && j.tmp != j.leaf
    requires k.Undisturbed() ==> e.before == fs0
    requires k.NoFaults() ==> ch.fault.None?
    ensures Filling(k, Span([e], fs0, e.after), j)
    ensures e.reply.Ok? ==> TmpIs(e.after, j.dir, j.tmp, Payload(e.reply.id, []))
    ensures Willing(k) && Unreferenced(fs0, ch.newId) ==>
      (e.reply.Ok? <==> IsDir(fs0, j.dir) && Bound(fs0, j.dir, j.tmp).None?)
  {
    CreateEffect(e, j);
    FreeStays(e, j, Payload(ROOT, []));
    if Willing(k) {
      CreateAnswers(e, ch, j.dir, j.tmp);
    }
  }

  method WriteSteps(k: Kernel, j: Job, native: bool) returns (r: Reply, ghost es: seq<Event>)
    requires j.tmp != j.leaf
    modifies k
    ensures k.log == old(k.log) + es
    ensures es != [] && es[0].before == k.others(old(k.clock), old(k.fs))
    ensures Landed(k, Span(es, old(k.fs), k.fs), j, native, r)
    ensures Willing(k) && Unreferenced(old(k.fs), k.chance(old(k.clock)).newId) ==>
      (r.Ok? <==> Writable(old(k.fs), j))
    ensures SyncedFirst(es) && (r.Err? ==> CleansUp(k, es, j))
  {
    ghost var fs0, ch := k.fs, k.chance(k.clock);
    var created, e0 := Call(k, CreateExcl(j.dir, j.tmp));
    CreateFills(k, e0, ch, fs0, j);
    r, es := created, [e0];
    ghost var fs1 := k.fs;
    if created.Err? {
      GaveUp(k, Span(es, fs0, fs1), j, native, r);
      return;
    }
    ghost var more;
    r, more := FillAndPut(k, j, native, created.id);
    LandedAfter(k, Span(es, fs0, fs1), Span(more, fs1, k.fs), j, native, r);
    CreateThenPut(e0, more);
    es := es + more;
  }

  /** After the filling: put the file in place or, if it could not be filled, drop it. */
  method PutIfFilled(k: Kernel, j: Job, native: bool, fd: Id, filled: bool) returns (r: Reply, ghost es: seq<Event>)
    requires j.tmp != j.leaf
    requires filled && RespectTmp(k, j.dir, j.tmp) ==> TmpIs(k.fs, j.dir, j.tmp, Payload(fd, j.data))
    modifies k
    ensures k.log == old(k.log) + es
    ensures Landed(k, Span(es, old(k.fs), k.fs), j, native, r)
    ensures Willing(k) && filled ==> (r.Ok? <==> Free(old(k.fs), j))
    ensures PutsOnly(es) && (r.Err? ==> EndsDropped(k, es, j))
    ensures !filled ==> forall i :: 0 <= i < |es| ==> !Installing(es[i].call)
  {
    if filled {
      r, es := PutInPlaceOrDrop(k, j, native, Payload(fd, j.data));
    } else {
      ghost var fs0 := k.fs;
      r := Err(OTHER);
      es := DropTmp(k, j);
      GaveUp(k, Span(es, fs0, k.fs), j, native, r);
    }
  }

  method FillAndPut(k: Kernel, j: Job, native: bool, fd: Id) returns (r: Reply, ghost es: seq<Event>)
    requires j.tmp != j.leaf
    requires RespectTmp(k, j.dir, j.tmp) ==> TmpIs(k.fs, j.dir, j.tmp, Payload(fd, []))
    modifies k
    ensures k.log == old(k.log) + es
    ensures Landed(k, Span(es, old(k.fs), k.fs), j, native, r)
    ensures Willing(k) ==> (r.Ok? <==> Free(old(k.fs), j))
    ensures SyncedPut(es, fd) && (r.Err? ==> EndsDropped(k, es, j))
  {
    ghost var fs0 := k.fs;
    var wrote;
    wrote, es := FillTmp(k, fd, j.data, j);
    ghost var fs1 := k.fs;
    ghost var more;
    r, more := PutIfFilled(k, j, native, fd, wrote);
    LandedAfter(k, Span(es, fs0, fs1), Span(more, fs1, k.fs), j, native, r);
    SyncThenPut(es, more, fd, wrote);
    es := es + more;
  }
}
