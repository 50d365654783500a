/** Publishing a vectors file and its ids file: two renames that can only be seen in an order that never
    pairs new vectors with old ids. */
module WriteVectors {
  import opened Basics

  type Files = map<string, Bytes>

  function Get(files: Files, path: string): Option<Bytes> {
    if path in files then Some(files[path]) else None
  }

  // ---- paths ----

  /** The last position of `c` in `p`, -1 if there is none. */
  function RFind(p: string, c: char): (i: int)
    ensures -1 <= i < |p| && (i >= 0 ==> p[i] == c) && forall j :: i < j < |p| ==> p[j] != c
  {
    if p == [] then -1 else if p[|p| - 1] == c then |p| - 1 else RFind(p[..|p| - 1], c)
  }

  /** `os.path.splitext`: the last dot of the file name, unless only dots come before it. */
  function SplitExt(p: string): (r: (string, string))
    ensures r.0 + r.1 == p && (r.1 == "" || r.1[0] == '.')
  {
    var sep, dot := RFind(p, '/'), RFind(p, '.');
    if dot > sep && exists k :: sep < k < dot && p[k] != '.' then (p[..dot], p[dot..]) else (p, "")
  }

  function IdsPath(out: string): string { SplitExt(out).0 + "-ids.json" }

  function Partial(path: string): string { path + ".partial" }

  /** Nothing, or a path that ends in a slash. */
  predicate IsDirPart(dir: string) { dir == "" || dir[|dir| - 1] == '/' }

  /** Dots occur only at the start. */
  predicate LeadingDotsOnly(name: string) {
    forall i, k :: 0 <= i < k < |name| && name[k] == '.' ==> name[i] == '.'
  }

  /** A last extension is replaced: what follows the last dot of the file name, if something other than dots comes
      before it there. */
  lemma IdsPathReplacesExtension(dir: string, stem: string, ext: string)
    requires IsDirPart(dir) && '/' !in stem && '/' !in ext && '.' !in ext && exists c :: c in stem && c != '.'
    ensures IdsPath(dir + stem + "." + ext) == dir + stem + "-ids.json"
  {
    var p := dir + stem + "." + ext;
    assert p[|dir + stem|] == '.' && p[..|dir + stem|] == dir + stem;
    assert forall i :: |dir + stem| < i < |p| ==> p[i] == ext[i - |dir + stem| - 1];
    assert forall i :: |dir| <= i < |dir + stem| ==> p[i] == stem[i - |dir|];
    assert dir != "" ==> p[|dir| - 1] == '/';
    var c :| c in stem && c != '.';
    var k :| 0 <= k < |stem| && stem[k] == c;
    assert p[|dir| + k] == c;
  }

  /** A file name without an extension is kept whole. */
  lemma IdsPathWithoutExtension(dir: string, name: string)
    requires IsDirPart(dir) && '/' !in name && LeadingDotsOnly(name)
    ensures IdsPath(dir + name) == dir + name + "-ids.json"
  {
    var p := dir + name;
    assert forall i :: |dir| <= i < |p| ==> p[i] == name[i - |dir|];
    assert dir != "" ==> p[|dir| - 1] == '/';
    var dot := RFind(p, '.');
    if dot > RFind(p, '/') {
      forall k | |dir| <= k < dot ensures p[k] == '.' {
        assert name[dot - |dir|] == '.';
      }
    }
  }

  /** No output path collides with another. */
  lemma PathsDiffer(out: string)
    ensures IdsPath(out) != out
    ensures Partial(out) != out && Partial(out) != IdsPath(out)
    ensures Partial(IdsPath(out)) != out && Partial(IdsPath(out)) != IdsPath(out)
    ensures Partial(IdsPath(out)) != Partial(out)
  {
    var root, ext := SplitExt(out).0, SplitExt(out).1;
    var ids := IdsPath(out);
    SameRoot(root, ext, "-ids.json");
    SameRoot(root, ext, "-ids.json.partial");
    assert Partial(ids) == root + "-ids.json.partial";
    assert Partial(out)[|out| + 7] == 'l' && ids[|ids| - 1] == 'n';
    assert Partial(ids)[..|ids|] == ids;
    assert Partial(out)[..|out|] == out;
  }

  lemma SameRoot(root: string, ext: string, tail: string)
    requires tail != "" && tail[0] != '.' && (ext == "" || ext[0] == '.')
    ensures root + ext != root + tail
  {
    assert (root + tail)[|root|] == tail[0];
    assert ext != "" ==> (root + ext)[|root|] == ext[0];
  }

  // ---- the disk ----

  /** One file system. `fault` says which operations fail; a failing write may still leave some of its
      bytes behind. `seen` is every state since the start: a crash leaves one of them. */
  class Disk {
    var files: Files
    const fault: nat -> bool
    const kept: nat -> nat
    var ops: nat
    ghost var seen: seq<Files>

    constructor (files: Files, fault: nat -> bool, kept: nat -> nat)
      ensures this.files == files && this.fault == fault && this.kept == kept && ops == 0 && seen == [files]
    {
      this.files, this.fault, this.kept, ops, seen := files, fault, kept, 0, [files];
    }

    method Create(path: string) returns (ok: bool)
      modifies this
      ensures ok == !fault(old(ops)) && ops == old(ops) + 1 && seen == old(seen) + [files]
      ensures files == if ok then old(files)[path := []] else old(files)
    {
      ok := !fault(ops);
      ops := ops + 1;
      if ok {
        files := files[path := []];
      }
      seen := seen + [files];
    }

    method Append(path: string, data: Bytes) returns (ok: bool)
      requires path in files
      modifies this
      ensures ok == !fault(old(ops)) && ops == old(ops) + 1 && seen == old(seen) + [files]
      ensures ok ==> files == old(files)[path := old(files)[path] + data]
      ensures path in files && files == old(files)[path := files[path]]
    {
      ok := !fault(ops);
      assert data[..|data|] == data;
      var n := if ok || |data| < kept(ops) then |data| else kept(ops);
      ops := ops + 1;
      files := files[path := files[path] + data[..n]];
      seen := seen + [files];
    }

    method Remove(path: string) returns (ok: bool)
      modifies this
      ensures ok == !fault(old(ops)) && ops == old(ops) + 1 && seen == old(seen) + [files]
      ensures files == if ok then old(files) - {path} else old(files)
    {
      ok := !fault(ops);
      ops := ops + 1;
      if ok {
        files := files - {path};
      }
      seen := seen + [files];
    }

    method Replace(source: string, target: string) returns (ok: bool)
      requires source in files && source != target
      modifies this
      ensures ok == !fault(old(ops)) && ops == old(ops) + 1 && seen == old(seen) + [files]
      ensures files == if ok then (old(files) - {source})[target := old(files)[source]] else old(files)
    {
      ok := !fault(ops);
      ops := ops + 1;
      if ok {
        files := (files - {source})[target := files[source]];
      }
      seen := seen + [files];
    }
  }

  // ---- what is to be written ----

  /** What the shard iterator yields: a blob, or an exception of its own. */
  datatype Item = Blob(data: Bytes) | Raises

  /** One call: its four paths, what the shards send, and what the ids are written as. */
  datatype Job = Job(
    out: string,
    idsPath: string,
    partial: string,
    partialIds: string,
    items: seq<Item>,
    sizes: seq<nat>,
    ids: seq<string>,
    dim: nat,
    json: Bytes)

  function MakeJob(out: string, items: seq<Item>, sizes: seq<nat>, ids: seq<string>, dim: nat,
                   json: seq<string> -> Bytes): Job
  {
    var idsPath := IdsPath(out);
    Job(out, idsPath, Partial(out), Partial(idsPath), items, sizes, ids, dim, json(ids))
  }

  ghost predicate Apart(j: Job) {
    && j.idsPath != j.out
    && j.partial != j.out && j.partial != j.idsPath
    && j.partialIds != j.out && j.partialIds != j.idsPath && j.partialIds != j.partial
  }

  function Sum(ns: seq<nat>): nat {
    if ns == [] then 0 else Sum(ns[..|ns| - 1]) + ns[|ns| - 1]
  }

  function Concat(items: seq<Item>): Bytes {
    if items == [] then []
    else
      var last := items[|items| - 1];
      Concat(items[..|items| - 1]) + (if last.Blob? then last.data else [])
  }

  /** Item `i` is what shard `i` should have sent. */
  predicate GoodItem(j: Job, i: nat)
    requires i < |j.items|
  {
    i < |j.sizes| && j.items[i].Blob? && |j.items[i].data| == j.sizes[i] * j.dim * 4
  }

  /** Every shard that comes is one that was sent, and has its size. */
  ghost predicate AllGood(j: Job) {
    forall i :: 0 <= i < |j.items| ==> GoodItem(j, i)
  }

  ghost predicate GoodJob(j: Job) {
    && |j.ids| == Sum(j.sizes)
    && AllGood(j)
    && |j.items| <= |j.sizes|
    && Sum(j.sizes[..|j.items|]) == Sum(j.sizes)
  }

  lemma Distribute(a: nat, b: nat, d: nat)
    ensures (a + b) * d * 4 == a * d * 4 + b * d * 4
  {
  }

  lemma {:induction false} ConcatSize(j: Job, n: nat)
    requires n <= |j.items| && n <= |j.sizes| && forall i :: 0 <= i < n ==> GoodItem(j, i)
    ensures |Concat(j.items[..n])| == Sum(j.sizes[..n]) * j.dim * 4
  {
    if n > 0 {
      ConcatSize(j, n - 1);
      assert j.items[..n][..n - 1] == j.items[..n - 1];
      assert j.sizes[..n][..n - 1] == j.sizes[..n - 1];
      assert GoodItem(j, n - 1);
      Distribute(Sum(j.sizes[..n - 1]), j.sizes[n - 1], j.dim);
    }
  }

  // ---- what can be seen ----

  datatype Stage = Untouched | IdsDropped | VectorsIn | Published

  /** The pair (vectors, ids) at each stage, given the files at the start. */
  ghost predicate At(files: Files, f0: Files, j: Job, stage: Stage) {
    var vectors, ids := Get(files, j.out), Get(files, j.idsPath);
    match stage
    case Untouched => vectors == Get(f0, j.out) && ids == Get(f0, j.idsPath)
    case IdsDropped => vectors == Get(f0, j.out) && ids == None
    case VectorsIn => vectors == Some(Concat(j.items)) && ids == None
    case Published => vectors == Some(Concat(j.items)) && ids == Some(j.json)
  }

  /** Old/old, old/absent, new/absent or new/new: new vectors never sit beside old ids. */
  ghost predicate Paired(files: Files, f0: Files, j: Job) {
    exists stage: Stage :: At(files, f0, j, stage)
  }

  function Rank(stage: Stage): nat {
    match stage
    case Untouched => 0
    case IdsDropped => 1
    case VectorsIn => 2
    case Published => 3
  }

  /** What was shown from state `from` on: `stages[i - from]` at state `i`, and never an earlier stage again. */
  ghost predicate Shown(seen: seq<Files>, from: nat, f0: Files, j: Job, stages: seq<Stage>) {
    && from + |stages| == |seen|
    && (forall i :: from <= i < |seen| ==> At(seen[i], f0, j, stages[i - from]))
    && (forall a, b :: 0 <= a < b < |stages| ==> Rank(stages[a]) <= Rank(stages[b]))
  }

  /** The stages shown come in their order and have not gone past `stage`. */
  ghost predicate Progress(seen: seq<Files>, from: nat, f0: Files, j: Job, stage: Stage) {
    exists stages :: Shown(seen, from, f0, j, stages) && forall x :: x in stages ==> Rank(x) <= Rank(stage)
  }

  lemma OneMoreState(seen: seq<Files>, files: Files, from: nat, f0: Files, j: Job, stage: Stage, next: Stage)
    requires Progress(seen, from, f0, j, stage) && At(files, f0, j, next) && Rank(stage) <= Rank(next)
    ensures Progress(seen + [files], from, f0, j, next)
  {
    var stages :| Shown(seen, from, f0, j, stages) && forall x :: x in stages ==> Rank(x) <= Rank(stage);
    assert Shown(seen + [files], from, f0, j, stages + [next]);
  }

  lemma GoOn(seen: seq<Files>, from: nat, f0: Files, j: Job, stage: Stage, next: Stage)
    requires Progress(seen, from, f0, j, stage) && Rank(stage) <= Rank(next)
    ensures Progress(seen, from, f0, j, next)
  {
    var stages :| Shown(seen, from, f0, j, stages) && forall x :: x in stages ==> Rank(x) <= Rank(stage);
  }

  /** So every state shown is a proper pair. */
  lemma ProgressIsPaired(seen: seq<Files>, from: nat, f0: Files, j: Job, stage: Stage)
    requires Progress(seen, from, f0, j, stage)
    ensures forall i :: from <= i < |seen| ==> Paired(seen[i], f0, j)
  {
    var stages :| Shown(seen, from, f0, j, stages) && forall x :: x in stages ==> Rank(x) <= Rank(stage);
  }

  /** A run that has reached `stage`, one stage after the other. */
  ghost predicate Running(files: Files, seen: seq<Files>, from: nat, f0: Files, j: Job, stage: Stage) {
    Apart(j) && At(files, f0, j, stage) && Progress(seen, from, f0, j, stage)
  }

  ghost predicate SameElsewhere(a: Files, b: Files, path: string) {
    forall p: string :: p != path ==> Get(a, p) == Get(b, p)
  }

  /** Work on a `.partial` file is not seen in the pair. */
  lemma TouchPartial(files: Files, files': Files, seen: seq<Files>, from: nat, f0: Files, j: Job, stage: Stage,
                     path: string)
    requires Running(files, seen, from, f0, j, stage) && SameElsewhere(files, files', path)
    requires path == j.partial || path == j.partialIds
    ensures Running(files', seen + [files'], from, f0, j, stage)
  {
    OneMoreState(seen, files', from, f0, j, stage, stage);
  }

  datatype Outcome = Done(n: nat) | Raised

  // ---- the steps ----

  /** The first `i` shards are in the partial vectors file, `n` vectors in all. */
  ghost predicate Sharded(files: Files, j: Job, i: nat, n: nat) {
    && i <= |j.items| && i <= |j.sizes|
    && Get(files, j.partial) == Some(Concat(j.items[..i]))
    && n == Sum(j.sizes[..i])
    && forall k :: 0 <= k < i ==> GoodItem(j, k)
  }

  lemma ShardOne(files: Files, j: Job, i: nat, n: nat)
    requires Sharded(files, j, i, n) && i < |j.items| && GoodItem(j, i)
    ensures var p := j.partial; Sharded(files[p := files[p] + j.items[i].data], j, i + 1, n + j.sizes[i])
  {
    assert j.items[..i + 1][..i] == j.items[..i];
    assert j.sizes[..i + 1][..i] == j.sizes[..i];
  }

  /** The shards, checked one by one, into the partial vectors file. */
  method WriteShards(disk: Disk, j: Job, ghost from: nat, ghost f0: Files) returns (ok: bool, n: nat)
    requires Running(disk.files, disk.seen, from, f0, j, Untouched)
    modifies disk
    ensures Running(disk.files, disk.seen, from, f0, j, Untouched) && old(disk.ops) <= disk.ops
    ensures ok <==> AllGood(j) && NoFault(disk.fault, old(disk.ops), disk.ops)
    ensures ok ==> Sharded(disk.files, j, |j.items|, n)
  {
    var partial := j.partial;
    n := 0;
    ok := CreatePartial(disk, j, partial, from, f0);
    if !ok {
      return;
    }
    for i := 0 to |j.items|
      invariant Running(disk.files, disk.seen, from, f0, j, Untouched) && Sharded(disk.files, j, i, n)
      invariant old(disk.ops) <= disk.ops && NoFault(disk.fault, old(disk.ops), disk.ops)
    {
      if i >= |j.sizes| || !j.items[i].Blob? {
        assert !GoodItem(j, i);
        return false, n;
      }
      var want := j.sizes[i] * j.dim * 4;
      if |j.items[i].data| != want {
        assert !GoodItem(j, i);
        return false, n;
      }
      ShardOne(disk.files, j, i, n);
      ok := AppendPartial(disk, j, partial, j.items[i].data, from, f0);
      if !ok {
        return;
      }
      n := n + j.sizes[i];
    }
    ok := true;
  }

  method CreatePartial(disk: Disk, j: Job, path: string, ghost from: nat, ghost f0: Files) returns (ok: bool)
    requires Running(disk.files, disk.seen, from, f0, j, Untouched)
    requires path == j.partial || path == j.partialIds
    modifies disk
    ensures Running(disk.files, disk.seen, from, f0, j, Untouched)
    ensures ok == !disk.fault(old(disk.ops)) && disk.ops == old(disk.ops) + 1
    ensures disk.files == if ok then old(disk.files)[path := []] else old(disk.files)
  {
    ghost var before, seen := disk.files, disk.seen;
    ok := disk.Create(path);
    TouchPartial(before, disk.files, seen, from, f0, j, Untouched, path);
  }

  method AppendPartial(disk: Disk, j: Job, path: string, data: Bytes, ghost from: nat, ghost f0: Files)
    returns (ok: bool)
    requires Running(disk.files, disk.seen, from, f0, j, Untouched) && path in disk.files
    requires path == j.partial || path == j.partialIds
    modifies disk
    ensures Running(disk.files, disk.seen, from, f0, j, Untouched)
    ensures ok == !disk.fault(old(disk.ops)) && disk.ops == old(disk.ops) + 1
    ensures ok ==> disk.files == old(disk.files)[path := old(disk.files)[path] + data]
    ensures SameElsewhere(old(disk.files), disk.files, path)
  {
    ghost var before, seen := disk.files, disk.seen;
    ok := disk.Append(path, data);
    TouchPartial(before, disk.files, seen, from, f0, j, Untouched, path);
  }

  method WriteIds(disk: Disk, j: Job, ghost from: nat, ghost f0: Files) returns (ok: bool)
    requires Running(disk.files, disk.seen, from, f0, j, Untouched)
    modifies disk
    ensures Running(disk.files, disk.seen, from, f0, j, Untouched) && old(disk.ops) <= disk.ops
    ensures ok <==> NoFault(disk.fault, old(disk.ops), disk.ops)
    ensures ok ==> Get(disk.files, j.partialIds) == Some(j.json)
    ensures Get(disk.files, j.partial) == Get(old(disk.files), j.partial)
  {
    var path := j.partialIds;
    ok := CreatePartial(disk, j, path, from, f0);
    if !ok {
      return;
    }
    assert [] + j.json == j.json;
    ok := AppendPartial(disk, j, path, j.json, from, f0);
  }

  /** Both partial files are complete. */
  ghost predicate Ready(files: Files, j: Job) {
    && Get(files, j.partial) == Some(Concat(j.items))
    && Get(files, j.partialIds) == Some(j.json)
  }

  function Moved(files: Files, source: string, target: string): Files
    requires source in files
  {
    (files - {source})[target := files[source]]
  }

  lemma DropIds(files: Files, seen: seq<Files>, from: nat, f0: Files, j: Job)
    requires Running(files, seen, from, f0, j, Untouched) && Ready(files, j)
    ensures var f := files - {j.idsPath}; Running(f, seen + [f], from, f0, j, IdsDropped) && Ready(f, j)
    ensures j.idsPath !in files ==> Running(files, seen, from, f0, j, IdsDropped)
  {
    var f := files - {j.idsPath};
    OneMoreState(seen, f, from, f0, j, Untouched, IdsDropped);
    GoOn(seen, from, f0, j, Untouched, IdsDropped);
  }

  lemma MoveVectors(files: Files, seen: seq<Files>, from: nat, f0: Files, j: Job)
    requires Running(files, seen, from, f0, j, IdsDropped) && Ready(files, j)
    ensures var f := Moved(files, j.partial, j.out);
      && Running(f, seen + [f], from, f0, j, VectorsIn) && j.partial !in f
      && Get(f, j.partialIds) == Some(j.json)
  {
    var f := Moved(files, j.partial, j.out);
    OneMoreState(seen, f, from, f0, j, IdsDropped, VectorsIn);
  }

  lemma MoveIds(files: Files, seen: seq<Files>, from: nat, f0: Files, j: Job)
    requires Running(files, seen, from, f0, j, VectorsIn) && j.partial !in files
    requires Get(files, j.partialIds) == Some(j.json)
    ensures var f := Moved(files, j.partialIds, j.idsPath);
      && Running(f, seen + [f], from, f0, j, Published)
      && j.partial !in f && j.partialIds !in f
  {
    var f := Moved(files, j.partialIds, j.idsPath);
    OneMoreState(seen, f, from, f0, j, VectorsIn, Published);
  }

  method Rename(disk: Disk, j: Job, source: string, target: string, ghost from: nat, ghost f0: Files,
                ghost stage: Stage, ghost next: Stage)
    returns (ok: bool)
    requires source in disk.files && source != target && Running(disk.files, disk.seen, from, f0, j, stage)
    requires var f := Moved(disk.files, source, target); Running(f, disk.seen + [f], from, f0, j, next)
    modifies disk
    ensures Running(disk.files, disk.seen, from, f0, j, if ok then next else stage)
    ensures disk.files == if ok then Moved(old(disk.files), source, target) else old(disk.files)
    ensures ok == !disk.fault(old(disk.ops)) && disk.ops == old(disk.ops) + 1
  {
    OneMoreState(disk.seen, disk.files, from, f0, j, stage, stage);
    ok := disk.Replace(source, target);
  }

  method DropOldIds(disk: Disk, j: Job, ghost from: nat, ghost f0: Files) returns (ok: bool)
    requires Running(disk.files, disk.seen, from, f0, j, Untouched) && Ready(disk.files, j)
    modifies disk
    ensures Running(disk.files, disk.seen, from, f0, j, if ok then IdsDropped else Untouched)
    ensures ok ==> Ready(disk.files, j)
    ensures old(disk.ops) <= disk.ops && (ok <==> NoFault(disk.fault, old(disk.ops), disk.ops))
  {
    DropIds(disk.files, disk.seen, from, f0, j);
    ok := true;
    if j.idsPath in disk.files {
      OneMoreState(disk.seen, disk.files, from, f0, j, Untouched, Untouched);
      ok := disk.Remove(j.idsPath);
    }
  }

  /** Drop the old ids, put the vectors in place, put the ids in place. */
  method Publish(disk: Disk, j: Job, ghost from: nat, ghost f0: Files) returns (ok: bool, ghost stage: Stage)
    requires Running(disk.files, disk.seen, from, f0, j, Untouched) && Ready(disk.files, j)
    modifies disk
    ensures Running(disk.files, disk.seen, from, f0, j, stage) && old(disk.ops) <= disk.ops
    ensures ok <==> NoFault(disk.fault, old(disk.ops), disk.ops)
    ensures ok <==> stage == Published
    ensures ok ==> j.partial !in disk.files && j.partialIds !in disk.files
  {
    var ids := j.idsPath;
    ok := DropOldIds(disk, j, from, f0);
    stage := if ok then IdsDropped else Untouched;
    if !ok {
      return;
    }
    MoveVectors(disk.files, disk.seen, from, f0, j);
    ok := Rename(disk, j, j.partial, j.out, from, f0, IdsDropped, VectorsIn);
    if !ok {
      return;
    }
    stage := VectorsIn;
    MoveIds(disk.files, disk.seen, from, f0, j);
    ok := Rename(disk, j, j.partialIds, ids, from, f0, VectorsIn, Published);
    if ok {
      stage := Published;
    }
  }

  method RemoveLeftover(disk: Disk, j: Job, path: string, ghost from: nat, ghost f0: Files, ghost stage: Stage)
    returns (ok: bool)
    requires Running(disk.files, disk.seen, from, f0, j, stage)
    requires path == j.partial || path == j.partialIds
    modifies disk
    ensures Running(disk.files, disk.seen, from, f0, j, stage) && old(disk.ops) <= disk.ops
    ensures ok <==> NoFault(disk.fault, old(disk.ops), disk.ops)
    ensures ok ==> disk.files == old(disk.files) - {path}
    ensures !ok ==> disk.files == old(disk.files)
  {
    ok := true;
    if path in disk.files {
      ghost var before, seen := disk.files, disk.seen;
      ok := disk.Remove(path);
      TouchPartial(before, disk.files, seen, from, f0, j, stage, path);
    } else {
      assert disk.files == disk.files - {path};
    }
  }

  /** The run inside the `try`. */
  method TryWrite(disk: Disk, j: Job, ghost from: nat, ghost f0: Files) returns (ok: bool, n: nat, ghost stage: Stage)
    requires |j.ids| == Sum(j.sizes) && Running(disk.files, disk.seen, from, f0, j, Untouched)
    modifies disk
    ensures Running(disk.files, disk.seen, from, f0, j, stage) && old(disk.ops) <= disk.ops
    ensures ok <==> GoodJob(j) && NoFault(disk.fault, old(disk.ops), disk.ops)
    ensures ok <==> stage == Published
    ensures stage == Untouched || (GoodJob(j) && (stage == Published || !NoFault(disk.fault, old(disk.ops), disk.ops)))
    ensures ok ==> n == |j.ids| && j.partial !in disk.files && j.partialIds !in disk.files
  {
    stage := Untouched;
    ok, n := WriteShards(disk, j, from, f0);
    if !ok {
      return;
    }
    assert j.items[..|j.items|] == j.items;
    if n != Sum(j.sizes) {
      return false, n, Untouched;
    }
    ok := WriteIds(disk, j, from, f0);
    if !ok {
      return;
    }
    ok, stage := Publish(disk, j, from, f0);
  }

  /** Whatever fails, and wherever the run stops: every state shown is a proper pair, and the pairs come in their
      order, up to `stage`. The run completes exactly when the job is good and nothing fails; then both files are
      the new ones, with one id for each row. Otherwise the vectors and ids are not both new, and if no operation
      failed they are untouched. */
  method WriteVectors(disk: Disk, out: string, items: seq<Item>, sizes: seq<nat>, ids: seq<string>, dim: nat,
                      json: seq<string> -> Bytes)
    returns (r: Outcome, ghost j: Job, ghost stage: Stage)
    modifies disk
    ensures j == MakeJob(out, items, sizes, ids, dim, json)
    ensures old(disk.ops) <= disk.ops && At(disk.files, old(disk.files), j, stage)
    ensures Progress(disk.seen, |old(disk.seen)|, old(disk.files), j, stage)
    ensures forall i :: |old(disk.seen)| <= i < |disk.seen| ==> Paired(disk.seen[i], old(disk.files), j)
    ensures r.Done? <==> GoodJob(j) && NoFault(disk.fault, old(disk.ops), disk.ops)
    ensures (r.Done? <==> stage == Published) && (r.Done? ==> r.n == |j.ids|)
    ensures r.Done? ==> |Concat(j.items)| == |j.ids| * j.dim * 4
    ensures r.Raised? && NoFault(disk.fault, old(disk.ops), disk.ops) ==> stage == Untouched
    ensures NoFault(disk.fault, old(disk.ops), disk.ops) && |j.ids| == Sum(j.sizes) ==>
      j.partial !in disk.files && j.partialIds !in disk.files
  {
    j, stage := MakeJob(out, items, sizes, ids, dim, json), Untouched;
    ghost var from, f0 := |disk.seen|, disk.files;
    assert Shown(disk.seen, from, f0, j, []);
    if |ids| != Sum(sizes) {
      return Raised, j, stage;
    }
    PathsDiffer(out);
    var job := MakeJob(out, items, sizes, ids, dim, json);
    var ok, n;
    ok, n, stage := TryWrite(disk, job, from, f0);
    if !ok {
      ok := RemoveLeftover(disk, job, job.partial, from, f0, stage);
      if ok {
        ok := RemoveLeftover(disk, job, job.partialIds, from, f0, stage);
      }
      ProgressIsPaired(disk.seen, from, f0, j, stage);
      return Raised, j, stage;
    }
    assert j.items[..|j.items|] == j.items;
    ConcatSize(j, |j.items|);
    ProgressIsPaired(disk.seen, from, f0, j, stage);
    r := Done(n);
  }
}
