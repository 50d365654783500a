/** The safe write from a path string on: check the path, walk to the parent without following links,
    then write there. */
module SafeFiles {
  import opened Basics
  import opened Kernels
  import opened PathWalk
  import opened AtomicWrite

  predicate WellFormed(abs: string) { ".." !in Split(abs) && Kept(Split(abs)) != [] }

  /** The parent of `abs`, reached through real directories only. */
  function ParentOf(fs: Fs, abs: string): Option<Id>
    requires WellFormed(abs)
  {
    var comps := Kept(Split(abs));
    ResolveDir(fs, comps[..|comps| - 1])
  }

  function Leaf(abs: string): string {
    var comps := Kept(Split(abs));
    if comps == [] then "" else comps[|comps| - 1]
  }

  /** `components` and `open_parent_with`. */
  /** The leaf and the parent of a joined path are what it was joined from. */
  lemma LeafOfJoin(fs: Fs, dir: seq<string>, name: string)
    requires Proper(name) && forall c :: c in dir ==> Proper(c)
    ensures var abs := Join(dir + [name]);
      WellFormed(abs) && Leaf(abs) == name && ParentOf(fs, abs) == ResolveDir(fs, dir)
  {
    ComponentsOfJoin(dir + [name]);
    assert (dir + [name])[..|dir|] == dir;
  }

  method WalkTo(k: Kernel, abs: string, pin: Option<Pin>, create: bool)
    returns (r: Result<Id, PathError>, ghost t: Trail)
    modifies k
    ensures old(k.log) <= k.log && EndsAt(k.log, |old(k.log)|, old(k.fs), k.fs)
    ensures t.comps == Kept(Split(abs))
    ensures !WellFormed(abs) ==> r.Failure? && k.log == old(k.log) && k.fs == old(k.fs)
    ensures WellFormed(abs) ==> Followed(k.log, |old(k.log)|, t, pin, create)
    ensures r.Success? ==> WellFormed(abs) && Arrived(t, pin, r.value)
    ensures k.Undisturbed() && WellFormed(abs) ==> WalkedAlone(old(k.fs), k.fs, t.comps, pin, create, r)
    ensures k.Undisturbed() ==> Growing(k.log, |old(k.log)|, old(k.fs), k.fs)
    ensures k.Undisturbed() && old(k.FreshIds()) ==> k.FreshIds()
    ensures old(k.Smooth(create)) ==> (r.Success? <==> WellFormed(abs) && Reachable(old(k.fs), t.comps, pin, create))
    ensures old(k.Smooth(create)) && r.Failure? ==> k.fs == old(k.fs)
  {
    t := Trail(Kept(Split(abs)), [], [], 0);
    var comps := Components(abs);
    if comps.Failure? {
      return Failure(comps.error), t;
    }
    r, t := OpenParentWith(k, comps.value, pin, create);
  }

  /** How a whole safe write went: `walked` is the log when the walk had ended and `fs` the file system it
      left, `es` are the calls after it, made in `parent`. */
  datatype History = History(trail: Trail, walked: seq<Event>, fs: Fs, es: seq<Event>, parent: Id)

  /** The write in the directory the walk arrived at, from the file system the walk left. */
  ghost predicate WroteThere(k: Kernel, h: History, j: Job, native: bool, after: Fs, success: bool) {
    && h.es != [] && (exists clock :: h.es[0].before == k.others(clock, h.fs))
    && exists w: Reply :: (w.Ok? <==> success) && Wrote(k, Span(h.es, h.fs, after), j, native, w)
  }

  /** `write_impl` from the open parent on. */
  method WriteIn(k: Kernel, j: Job, native: bool, ghost h0: History)
    returns (r: Result<(), PathError>, ghost h: History)
    requires j.tmp != j.leaf && h0.fs == k.fs && h0.walked == k.log
    modifies k
    ensures h == h0.(es := h.es, parent := j.dir) && k.log == h.walked + h.es
    ensures WroteThere(k, h, j, native, k.fs, r.Success?)
    ensures Willing(k) && old(k.FreshIds()) ==> (r.Success? <==> Writable(h.fs, j))
  {
    ghost var clock := k.clock;
    var w; ghost var es;
    w, es := WriteImpl(k, j, native);
    h := h0.(es := es, parent := j.dir);
    assert h.es[0].before == k.others(clock, h.fs);
    r := if w.Ok? then Success(()) else Failure(Denied);
  }

  /** With nobody else acting: after every step the target is as it was before the whole call, or complete; an
      exclusive write that succeeds found it absent; one that fails leaves it unless its rollback failed, and leaves
      no temporary file unless its removal failed. */
  ghost predicate OldOrNew(k: Kernel, h: History, j: Job, before: Fs, after: Fs, success: bool) {
    && CrashSafe(h.es, j, Shows(before, j.dir, j.leaf))
    && (success ==>
        && Shows(after, j.dir, j.leaf) == Contents(j.data)
        && (j.noReplace ==> Shows(before, j.dir, j.leaf) == Absent))
    && (!success ==>
        || Shows(after, j.dir, j.leaf) == Shows(before, j.dir, j.leaf)
        || RollbackFailed(h.es, MoveOf(j)))
    && (!success ==> TmpAsBefore(k, Span(h.es, before, after), j))
  }

  /** In a directory the walk has made the target was absent before the call and still is when the write starts. */
  /** At each of the walk's own steps, too, the target shows what it showed before. */
  ghost predicate TargetUntouched(walked: seq<Event>, start: nat, j: Job, before: Fs) {
    forall i :: start <= i < |walked| ==> Shows(walked[i].after, j.dir, j.leaf) == Shows(before, j.dir, j.leaf)
  }

  lemma WalkKeepsTarget(walked: seq<Event>, start: nat, j: Job, f: Fs, g: Fs, comps: seq<string>)
    requires Growing(walked, start, f, g) && comps != [] && Landing(f, g, comps, j.dir)
    ensures TargetUntouched(walked, start, j, f)
  {
    forall i | start <= i < |walked| ensures Shows(walked[i].after, j.dir, j.leaf) == Shows(f, j.dir, j.leaf) {
      var m := walked[i].after;
      if g == f {
        SqueezedFs(f, m);
      } else if j.dir in m {
        assert Outlives(m[j.dir], g[j.dir]) && g[j.dir].entries == map[];
        assert m[j.dir].Dir? && m[j.dir].entries == map[];
      }
    }
  }

  lemma SqueezedFs(f: Fs, m: Fs)
    requires Grows(f, m) && Grows(m, f)
    ensures m == f
  {
    forall id | id in f ensures id in m && m[id] == f[id] {
      assert Outlives(f[id], m[id]) && Outlives(m[id], f[id]);
      if f[id].Dir? {
        assert f[id].entries == m[id].entries;
      }
    }
  }

  /** With nobody else acting: where the target is, and what became of it. */
  ghost predicate WrittenAlone(k: Kernel, h: History, start: nat, j: Job, abs: string, before: Fs, after: Fs,
                               success: bool)
    requires WellFormed(abs)
  {
    && TargetUntouched(h.walked, start, j, before)
    && ParentOf(h.fs, abs) == Some(h.parent)
    && ParentOf(before, abs) == (if h.fs == before then Some(h.parent) else None)
    && OldOrNew(k, h, j, before, after, success)
  }

  lemma AloneOldOrNew(k: Kernel, h: History, j: Job, native: bool, before: Fs, comps: seq<string>, after: Fs,
                      success: bool)
    requires k.Undisturbed() && WroteThere(k, h, j, native, after, success)
    requires comps != [] && Landing(before, h.fs, comps, j.dir)
    ensures OldOrNew(k, h, j, before, after, success)
  {
    if h.fs != before {
      assert h.fs[j.dir].entries == map[];
    }
    assert Shows(before, j.dir, j.leaf) == Shows(h.fs, j.dir, j.leaf);
    assert Bound(before, j.dir, j.tmp) == Bound(h.fs, j.dir, j.tmp);
  }

  /** The parent can be reached, and if it is already there, the file can be written in it. */
  ghost predicate CanWrite(fs: Fs, abs: string, tmp: string, data: Bytes, noReplace: bool, pin: Option<Pin>,
                           create: bool) {
    && WellFormed(abs)
    && Reachable(fs, Kept(Split(abs)), pin, create)
    && (ParentOf(fs, abs).Some? ==> Writable(fs, Job(ParentOf(fs, abs).value, tmp, Leaf(abs), data, noReplace)))
  }

  lemma LandedWritable(f: Fs, g: Fs, abs: string, j: Job)
    requires WellFormed(abs) && Landing(f, g, Kept(Split(abs)), j.dir) && ParentOf(g, abs) == Some(j.dir)
    ensures ParentOf(f, abs) == if g == f then Some(j.dir) else None
    ensures Writable(g, j) <==> (ParentOf(f, abs).Some? ==> Writable(f, j))
  {
    if g != f {
      assert g[j.dir].entries == map[];
    }
  }

  lemma FileMeans(k: Kernel, h: History, start: nat, j: Job, native: bool, abs: string, pin: Option<Pin>, create: bool,
                  before: Fs, after: Fs, success: bool)
    requires k.Undisturbed() && WroteThere(k, h, j, native, after, success)
    requires WellFormed(abs) && h.parent == j.dir && j.leaf == Leaf(abs)
    requires WalkedAlone(before, h.fs, Kept(Split(abs)), pin, create, Success(j.dir))
    requires Growing(h.walked, start, before, h.fs)
    ensures WrittenAlone(k, h, start, j, abs, before, after, success)
    ensures Writable(h.fs, j) <==> CanWrite(before, abs, j.tmp, j.data, j.noReplace, pin, create)
  {
    AloneOldOrNew(k, h, j, native, before, Kept(Split(abs)), after, success);
    WalkKeepsTarget(h.walked, start, j, before, h.fs, Kept(Split(abs)));
    LandedWritable(before, h.fs, abs, j);
  }

  /** `write_atomic` and `write_exclusive`. A refused path, or a walk that fails, makes no call of the
      write; otherwise the write happens, with all its guarantees, in the directory the walk arrived at. */
  method WriteFile(k: Kernel, abs: string, data: Bytes, noReplace: bool, pin: Option<Pin>, create: bool,
                   tmp: string, native: bool)
    returns (r: Result<(), PathError>, ghost h: History)
    requires tmp != Leaf(abs)
    modifies k
    ensures old(k.log) <= h.walked && k.log == h.walked + h.es && h.trail.comps == Kept(Split(abs))
    ensures !WellFormed(abs) ==> r.Failure? && k.log == old(k.log) && k.fs == old(k.fs)
    // the walk, whatever other processes do, and the file system it leaves:
    ensures WellFormed(abs) ==> Followed(h.walked, |old(k.log)|, h.trail, pin, create)
    ensures EndsAt(h.walked, |old(k.log)|, old(k.fs), h.fs)
    ensures h.es == [] ==> r.Failure? && k.fs == h.fs
    // the write, which starts from there:
    ensures h.es != [] ==>
      && WellFormed(abs) && Arrived(h.trail, pin, h.parent)
      && WroteThere(k, h, Job(h.parent, tmp, Leaf(abs), data, noReplace), native, k.fs, r.Success?)
    // with nobody else acting:
    ensures k.Undisturbed() ==> Grows(old(k.fs), h.fs) && (!create ==> h.fs == old(k.fs))
    ensures k.Undisturbed() && h.es != [] ==>
      var j := Job(h.parent, tmp, Leaf(abs), data, noReplace);
      WrittenAlone(k, h, |old(k.log)|, j, abs, old(k.fs), k.fs, r.Success?)
    // and if nothing fails either:
    ensures old(k.Smooth(create)) ==>
      (h.es != [] <==> WellFormed(abs) && Reachable(old(k.fs), h.trail.comps, pin, create))
    ensures Willing(k) && old(k.FreshIds()) ==>
      (r.Success? <==> CanWrite(old(k.fs), abs, tmp, data, noReplace, pin, create))
  {
    var parent; ghost var t;
    ghost var fs0 := k.fs;
    SameGrows(fs0);
    parent, t := WalkTo(k, abs, pin, create);
    h := History(t, k.log, k.fs, [], ROOT);
    assert k.log + [] == k.log;
    if parent.Failure? {
      return Failure(parent.error), h;
    }
    var j := Job(parent.value, tmp, Leaf(abs), data, noReplace);
    r, h := WriteIn(k, j, native, h);
    if k.Undisturbed() {
      FileMeans(k, h, |old(k.log)|, j, native, abs, pin, create, fs0, k.fs, r.Success?);
    }
  }
}
