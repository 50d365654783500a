/** The part of a POSIX file system that the safe I/O primitives use: inodes, directories as
    name-to-inode maps, and system calls that are atomic one by one. Other processes may change the
    file system in any way before each call, and any call may fail. */
module Kernels {
  import opened Basics

  /** The identity that `fstat` reports. */
  datatype Id = Id(dev: nat, ino: nat)

  datatype Inode = Dir(entries: map<string, Id>) | File(data: Bytes) | Symlink(target: string)

  type Fs = map<Id, Inode>

  datatype Errno = NOENT | EXIST | NOTDIR | LOOP | ISDIR | INVAL | NOSYS | NOTSUP | OTHER

  /** `id` is the inode a descriptor refers to, `count` a number of bytes. */
  datatype Reply = Ok(id: Id, count: nat) | Err(error: Errno)

  datatype Syscall =
    | OpenDir(dir: Id, name: string)  // openat(O_DIRECTORY | O_NOFOLLOW)
    | Mkdir(dir: Id, name: string)
    | Fstat(fd: Id)
    | CreateExcl(dir: Id, name: string)  // openat(O_CREAT | O_EXCL | O_NOFOLLOW)
    | Write(fd: Id, bytes: Bytes)
    | Sync(fd: Id)
    | Rename(oldDir: Id, old_: string, newDir: Id, new_: string)
    | RenameNoReplace(oldDir: Id, old_: string, newDir: Id, new_: string)
    | LinkAt(oldDir: Id, old_: string, newDir: Id, new_: string)
    | Unlink(dir: Id, name: string)

  /** What the kernel is free to decide: a failure, a new inode's number, how much a write takes. */
  datatype Chance = Chance(fault: Option<Errno>, newId: Id, accepts: nat)

  datatype Outcome = Outcome(reply: Reply, fs: Fs)

  datatype Event = Event(call: Syscall, before: Fs, reply: Reply, after: Fs)

  const ROOT := Id(0, 2)

  predicate IsDir(fs: Fs, d: Id) {
    d in fs && fs[d].Dir?
  }

  function Bound(fs: Fs, dir: Id, name: string): Option<Id> {
    if IsDir(fs, dir) && name in fs[dir].entries then Some(fs[dir].entries[name]) else None
  }

  /** What is behind a name. */
  function Holds(fs: Fs, dir: Id, name: string): Option<Inode> {
    match Bound(fs, dir, name)
    case None => None
    case Some(id) => if id in fs then Some(fs[id]) else None
  }

  /** `child` is a real directory and an entry `name` of `dir`. */
  predicate ChildDir(fs: Fs, dir: Id, name: string, child: Id) {
    Bound(fs, dir, name) == Some(child) && IsDir(fs, child)
  }

  predicate Unreferenced(fs: Fs, id: Id) {
    id !in fs && forall d :: d in fs && fs[d].Dir? ==> id !in fs[d].entries.Values
  }

  function Bind(fs: Fs, dir: Id, name: string, id: Id): Fs
    requires IsDir(fs, dir)
  {
    fs[dir := Dir(fs[dir].entries[name := id])]
  }

  function Unbind(fs: Fs, dir: Id, name: string): Fs
    requires IsDir(fs, dir)
  {
    fs[dir := Dir(fs[dir].entries - {name})]
  }

  /** The effect of one system call on an undisturbed file system. */
  function Serve(call: Syscall, fs: Fs, ch: Chance): Outcome {
    if ch.fault.Some? then Outcome(Err(ch.fault.value), fs)
    else
      match call
      case OpenDir(dir, name) =>
        var r := match Holds(fs, dir, name)
          case None => Err(NOENT)
          case Some(Symlink(_)) => Err(LOOP)
          case Some(File(_)) => Err(NOTDIR)
          case Some(Dir(_)) => Ok(Bound(fs, dir, name).value, 0);
        Outcome(r, fs)
      case Mkdir(dir, name) =>
        if !IsDir(fs, dir) then Outcome(Err(NOENT), fs)
        else if Bound(fs, dir, name).Some? then Outcome(Err(EXIST), fs)
        else if !Unreferenced(fs, ch.newId) then Outcome(Err(OTHER), fs)
        else Outcome(Ok(ch.newId, 0), Bind(fs[ch.newId := Dir(map[])], dir, name, ch.newId))
      case Fstat(fd) => Outcome(Ok(fd, 0), fs)
      case CreateExcl(dir, name) =>
        if !IsDir(fs, dir) then Outcome(Err(NOENT), fs)
        else if Bound(fs, dir, name).Some? then Outcome(Err(EXIST), fs)
        else if !Unreferenced(fs, ch.newId) then Outcome(Err(OTHER), fs)
        else Outcome(Ok(ch.newId, 0), Bind(fs[ch.newId := File([])], dir, name, ch.newId))
      case Write(fd, bytes) =>
        if !(fd in fs && fs[fd].File?) then Outcome(Err(OTHER), fs)
        else
          var n := if ch.accepts < |bytes| then ch.accepts else |bytes|;
          Outcome(Ok(fd, n), fs[fd := File(fs[fd].data + bytes[..n])])
      case Sync(fd) => Outcome(Ok(fd, 0), fs)
      case Rename(oldDir, old_, newDir, new_) =>
        if Bound(fs, oldDir, old_).None? || !IsDir(fs, newDir) then Outcome(Err(NOENT), fs)
        else if Bound(fs, newDir, new_) == Bound(fs, oldDir, old_) then
          Outcome(Ok(Bound(fs, oldDir, old_).value, 0), fs)
        else if Holds(fs, newDir, new_).Some? && Holds(fs, newDir, new_).value.Dir? then Outcome(Err(ISDIR), fs)
        else
          var id := Bound(fs, oldDir, old_).value;
          Outcome(Ok(id, 0), Bind(Unbind(fs, oldDir, old_), newDir, new_, id))
      case RenameNoReplace(oldDir, old_, newDir, new_) =>
        if Bound(fs, oldDir, old_).None? || !IsDir(fs, newDir) then Outcome(Err(NOENT), fs)
        else if Bound(fs, newDir, new_).Some? then Outcome(Err(EXIST), fs)
        else
          var id := Bound(fs, oldDir, old_).value;
          Outcome(Ok(id, 0), Bind(Unbind(fs, oldDir, old_), newDir, new_, id))
      case LinkAt(oldDir, old_, newDir, new_) =>
        if Bound(fs, oldDir, old_).None? || !IsDir(fs, newDir) then Outcome(Err(NOENT), fs)
        else if Bound(fs, newDir, new_).Some? then Outcome(Err(EXIST), fs)
        else
          var id := Bound(fs, oldDir, old_).value;
          Outcome(Ok(id, 0), Bind(fs, newDir, new_, id))
      case Unlink(dir, name) =>
        if Bound(fs, dir, name).None? then Outcome(Err(NOENT), fs)
        else if Holds(fs, dir, name).Some? && Holds(fs, dir, name).value.Dir? then Outcome(Err(ISDIR), fs)
        else Outcome(Ok(Bound(fs, dir, name).value, 0), Unbind(fs, dir, name))
  }

  /** Since `start`, when the file system was `fs0`, our calls have left it as `fs`. */
  ghost predicate EndsAt(log: seq<Event>, start: nat, fs0: Fs, fs: Fs) {
    start <= |log| && fs == if |log| == start then fs0 else log[|log| - 1].after
  }

  lemma EndsThen(a: seq<Event>, b: seq<Event>, start: nat, fs0: Fs, fs1: Fs, fs2: Fs)
    requires EndsAt(a, start, fs0, fs1) && a <= b && EndsAt(b, |a|, fs1, fs2)
    ensures EndsAt(b, start, fs0, fs2)
  {
  }

  /** `others(k, fs)` is what the other processes make of `fs` before our call number `k`. */
  class Kernel {
    var fs: Fs
    var clock: nat
    ghost var log: seq<Event>  // our own calls
    const others: (nat, Fs) -> Fs
    const chance: nat -> Chance

    constructor (fs0: Fs, others: (nat, Fs) -> Fs, chance: nat -> Chance)
      ensures fs == fs0 && clock == 0 && log == []
      ensures this.others == others && this.chance == chance
    {
      fs, clock, log := fs0, 0, [];
      this.others, this.chance := others, chance;
    }

    method Do(call: Syscall) returns (reply: Reply)
      modifies this
      ensures clock == old(clock) + 1
      ensures var before := others(old(clock), old(fs));
        && Outcome(reply, fs) == Serve(call, before, chance(old(clock)))
        && log == old(log) + [Event(call, before, reply, fs)]
    {
      var before := others(clock, fs);
      var out := Serve(call, before, chance(clock));
      log := log + [Event(call, before, out.reply, out.fs)];
      fs, clock := out.fs, clock + 1;
      reply := out.reply;
    }

    /** Nobody else touches the file system (our own calls may still fail). */
    ghost predicate Undisturbed() {
      forall n: nat, f: Fs :: others(n, f) == f
    }

    ghost predicate NoFaults() {
      forall n: nat :: chance(n).fault.None?
    }

    /** Every inode number still to be given out is new. */
    ghost predicate FreshIds()
      reads this
    {
      && (forall n: nat :: clock <= n ==> Unreferenced(fs, chance(n).newId))
      && (forall m: nat, n: nat :: clock <= m < n ==> chance(m).newId != chance(n).newId)
    }

    /** Nobody else acts and nothing fails; where directories may be made, there are numbers for them. */
    ghost predicate Smooth(create: bool)
      reads this
    {
      Undisturbed() && NoFaults() && (create ==> FreshIds())
    }
  }
}
