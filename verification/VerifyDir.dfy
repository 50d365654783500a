/** `verifyModelDir` / `isVerified`: what it means for a model directory to be "verified".

    A directory is a finite tree. A symbolic link carries the node it resolves to, so that the model
    can say where a path lookup that follows links ends up. `sha` stands for SHA-256. */
module VerifyDir {
  import opened Basics

  type Path = seq<string>

  datatype Node =
    | RegularFile(bytes: Bytes)
    | Directory(readable: bool, entries: seq<DirEntry>)
    | Symlink(resolved: Option<Node>)
    | Special  // FIFO, socket or device

  datatype DirEntry = DirEntry(name: string, node: Node)

  datatype Pin = Pin(path: Path, sizeBytes: nat, sha256: string)

  datatype FileVerifyResult = FileVerifyResult(path: Path, ok: bool)

  /** What `listRelativeEntries` records for one leaf. */
  datatype Listed = Listed(rel: Path, symlink: bool)

  const IGNORED_OS_JUNK_BASENAMES: set<string> := {".DS_Store", "Thumbs.db", "desktop.ini"}

  predicate IsIgnoredOsJunk(rel: Path) {
    rel != [] && rel[|rel| - 1] in IGNORED_OS_JUNK_BASENAMES
  }

  // ---- path lookup ----

  function Find(es: seq<DirEntry>, name: string): (r: Option<Node>)
    ensures r.Some? ==> exists i :: 0 <= i < |es| && es[i] == DirEntry(name, r.value)
    ensures r.None? ==> forall i :: 0 <= i < |es| ==> es[i].name != name
  {
    if es == [] then None
    else if es[0].name == name then
      assert es[0] == DirEntry(name, es[0].node);
      Some(es[0].node)
    else
      var r := Find(es[1..], name);
      assert r.Some? ==> exists i :: 0 <= i < |es| && es[i] == DirEntry(name, r.value) by {
        if r.Some? {
          var i :| 0 <= i < |es[1..]| && es[1..][i] == DirEntry(name, r.value);
          assert es[i + 1] == DirEntry(name, r.value);
        }
      }
      r
  }

  /** Follow symbolic links until something else is reached. */
  function Resolve(n: Node): Option<Node> {
    match n
    case Symlink(None) => None
    case Symlink(Some(m)) => Resolve(m)
    case _ => Some(n)
  }

  /** `lstat` of `path` below `n`: intermediate links are followed, the last component is not. */
  function Lstat(n: Node, path: Path): Option<Node>
    decreases |path|
  {
    if path == [] then Some(n)
    else if !n.Directory? then None
    else
      match Find(n.entries, path[0])
      case None => None
      case Some(m) =>
        if |path| == 1 then Some(m)
        else
          match Resolve(m)
          case None => None
          case Some(d) => Lstat(d, path[1..])
  }

  /** The node at `path` reached through real directories only. */
  function NoFollow(n: Node, path: Path): Option<Node>
    decreases |path|
  {
    if path == [] then Some(n)
    else if !n.Directory? then None
    else
      match Find(n.entries, path[0])
      case None => None
      case Some(m) => NoFollow(m, path[1..])
  }

  // ---- the recursive listing ----

  function Listing(n: Node, sub: Path): seq<Listed>
    decreases n, 1
  {
    if n.Directory? && n.readable then ListEntries(n.entries, sub) else []
  }

  function ListEntries(es: seq<DirEntry>, sub: Path): seq<Listed>
    decreases es, 0
  {
    if es == [] then [] else ListOne(es[0], sub) + ListEntries(es[1..], sub)
  }

  function ListOne(e: DirEntry, sub: Path): seq<Listed>
    decreases e, 2
  {
    match e.node
    case Symlink(_) => [Listed(sub + [e.name], true)]
    case Directory(_, _) => Listing(e.node, sub + [e.name])
    case _ => [Listed(sub + [e.name], false)]
  }

  /** `walk(sub)` of `listRelativeEntries`: pushes onto `out` as it goes. */
  method Walk(n: Node, sub: Path, out0: seq<Listed>) returns (out: seq<Listed>)
    ensures out == out0 + Listing(n, sub)
    decreases n
  {
    out := out0;
    if !(n.Directory? && n.readable) {
      return;
    }
    var i := 0;
    assert n.entries[0..] == n.entries;
    while i < |n.entries|
      invariant 0 <= i <= |n.entries|
      invariant out + ListEntries(n.entries[i..], sub) == out0 + ListEntries(n.entries, sub)
    {
      var e := n.entries[i];
      ghost var before := out;
      if e.node.Symlink? {
        out := out + [Listed(sub + [e.name], true)];
      } else if e.node.Directory? {
        out := Walk(e.node, sub + [e.name], out);
      } else {
        out := out + [Listed(sub + [e.name], false)];
      }
      assert out == before + ListOne(e, sub);
      ListNext(before, n.entries, i, sub);
      i := i + 1;
    }
  }

  lemma ListNext(out: seq<Listed>, es: seq<DirEntry>, i: nat, sub: Path)
    requires i < |es|
    ensures out + ListEntries(es[i..], sub) == out + ListOne(es[i], sub) + ListEntries(es[i + 1..], sub)
  {
    assert es[i..][1..] == es[i + 1..];
  }

  // ---- verifyModelDir and isVerified ----

  predicate FileOk(st: Option<Node>, f: Pin, sha: Bytes -> string) {
    st.Some? && st.value.RegularFile? && |st.value.bytes| == f.sizeBytes && sha(st.value.bytes) == f.sha256
  }

  predicate Unexpected(x: Listed, pins: seq<Pin>) {
    x.rel !in PinnedPaths(pins) && !(!x.symlink && IsIgnoredOsJunk(x.rel))
  }

  function PinnedPaths(pins: seq<Pin>): set<Path> {
    set f | f in pins :: f.path
  }

  /** One result per pinned file, in pin order. */
  function PinResults(root: Option<Node>, pins: seq<Pin>, sha: Bytes -> string): (r: seq<FileVerifyResult>)
    ensures |r| == |pins|
  {
    seq(|pins|, i requires 0 <= i < |pins| =>
      FileVerifyResult(pins[i].path, FileOk(LstatIn(root, pins[i].path), pins[i], sha)))
  }

  /** One failed result per unexpected entry, in listing order. */
  function ExtraResults(present: seq<Listed>, pins: seq<Pin>): seq<FileVerifyResult> {
    if present == [] then []
    else if Unexpected(present[0], pins) then
      [FileVerifyResult(present[0].rel, false)] + ExtraResults(present[1..], pins)
    else
      ExtraResults(present[1..], pins)
  }

  method CheckPinned(root: Option<Node>, pins: seq<Pin>, sha: Bytes -> string)
    returns (results: seq<FileVerifyResult>)
    ensures results == PinResults(root, pins, sha)
  {
    results := [];
    for i := 0 to |pins|
      invariant |results| == i
      invariant forall k :: 0 <= k < i ==>
        results[k] == FileVerifyResult(pins[k].path, FileOk(LstatIn(root, pins[k].path), pins[k], sha))
    {
      var f := pins[i];
      var st := LstatIn(root, f.path);
      if st.None? || !st.value.RegularFile? {
        results := results + [FileVerifyResult(f.path, false)];
        continue;
      }
      if |st.value.bytes| != f.sizeBytes {
        results := results + [FileVerifyResult(f.path, false)];
        continue;
      }
      if sha(st.value.bytes) != f.sha256 {
        results := results + [FileVerifyResult(f.path, false)];
        continue;
      }
      results := results + [FileVerifyResult(f.path, true)];
    }
  }

  /** `root` is what the directory name is bound to; both loops follow it if it is a link. */
  method VerifyModelDir(root: Option<Node>, pins: seq<Pin>, sha: Bytes -> string)
    returns (results: seq<FileVerifyResult>)
    ensures results == PinResults(root, pins, sha) + ExtraResults(ListingIn(root), pins)
  {
    var expected := PinnedPaths(pins);
    results := CheckPinned(root, pins, sha);
    var present := [];
    if root.Some? && Resolve(root.value).Some? {
      present := Walk(Resolve(root.value).value, [], []);
    }
    assert present == ListingIn(root);
    var i := 0;
    assert present[0..] == present;
    while i < |present|
      invariant 0 <= i <= |present|
      invariant results + ExtraResults(present[i..], pins)
        == PinResults(root, pins, sha) + ExtraResults(present, pins)
    {
      var x := present[i];
      assert present[i..][1..] == present[i + 1..];
      i := i + 1;
      if x.rel in expected || (!x.symlink && IsIgnoredOsJunk(x.rel)) {
        continue;
      }
      results := results + [FileVerifyResult(x.rel, false)];
    }
  }

  function LstatIn(root: Option<Node>, path: Path): Option<Node> {
    if root.None? then None
    else match Resolve(root.value)
      case None => None
      case Some(d) => Lstat(d, path)
  }

  function ListingIn(root: Option<Node>): seq<Listed> {
    if root.None? then []
    else match Resolve(root.value)
      case None => []
      case Some(d) => Listing(d, [])
  }

  /** The condition the two loops together test. */
  ghost predicate Accepts(root: Option<Node>, pins: seq<Pin>, sha: Bytes -> string) {
    && pins != []
    && (forall f :: f in pins ==> FileOk(LstatIn(root, f.path), f, sha))
    && (forall x :: x in ListingIn(root) ==> !Unexpected(x, pins))
  }

  ghost predicate AllOk(results: seq<FileVerifyResult>) {
    forall i :: 0 <= i < |results| ==> results[i].ok
  }

  lemma {:induction false} ExtraResultsOk(present: seq<Listed>, pins: seq<Pin>)
    ensures AllOk(ExtraResults(present, pins)) <==> forall x :: x in present ==> !Unexpected(x, pins)
    ensures AllOk(ExtraResults(present, pins)) ==> ExtraResults(present, pins) == []
  {
    if present != [] {
      ExtraResultsOk(present[1..], pins);
      var tail := ExtraResults(present[1..], pins);
      if Unexpected(present[0], pins) {
        assert !ExtraResults(present, pins)[0].ok;
      } else {
        assert ExtraResults(present, pins) == tail;
      }
      assert forall x :: x in present <==> x == present[0] || x in present[1..];
    }
  }

  lemma AllOkConcat(a: seq<FileVerifyResult>, b: seq<FileVerifyResult>)
    ensures AllOk(a + b) <==> AllOk(a) && AllOk(b)
  {
    assert forall k :: 0 <= k < |b| ==> b[k] == (a + b)[|a| + k];
    assert forall k :: 0 <= k < |a| ==> a[k] == (a + b)[k];
  }

  lemma PinResultsOk(root: Option<Node>, pins: seq<Pin>, sha: Bytes -> string)
    ensures AllOk(PinResults(root, pins, sha)) <==> forall f :: f in pins ==> FileOk(LstatIn(root, f.path), f, sha)
  {
    var head := PinResults(root, pins, sha);
    assert forall k :: 0 <= k < |pins| ==> head[k].ok == FileOk(LstatIn(root, pins[k].path), pins[k], sha);
  }

  method IsVerified(root: Option<Node>, pins: seq<Pin>, sha: Bytes -> string) returns (ok: bool)
    ensures ok <==> Accepts(root, pins, sha)
  {
    var results := VerifyModelDir(root, pins, sha);
    ok := |results| > 0;
    for i := 0 to |results|
      invariant ok <==> |results| > 0 && AllOk(results[..i])
    {
      assert results[..i + 1] == results[..i] + [results[i]];
      AllOkConcat(results[..i], [results[i]]);
      ok := ok && results[i].ok;
    }
    assert results[..|results|] == results;
    AllOkConcat(PinResults(root, pins, sha), ExtraResults(ListingIn(root), pins));
    PinResultsOk(root, pins, sha);
    ExtraResultsOk(ListingIn(root), pins);
  }

  // ---- what verification means, without either loop ----

  datatype Leaf = FileLeaf(bytes: Bytes) | LinkLeaf | SpecialLeaf

  /** A directory flattened to its leaves, by relative path. */
  type Tree = map<Path, Leaf>

  ghost predicate PinsGood(t: Tree, pins: seq<Pin>, sha: Bytes -> string) {
    forall f :: f in pins ==>
      && f.path in t
      && t[f.path].FileLeaf?
      && |t[f.path].bytes| == f.sizeBytes
      && sha(t[f.path].bytes) == f.sha256
  }

  /** Nothing beside the pinned files but non-symlink entries with a junk basename. */
  ghost predicate NothingExtra(t: Tree, pins: seq<Pin>) {
    forall p :: p in t && p !in PinnedPaths(pins) ==> !t[p].LinkLeaf? && IsIgnoredOsJunk(p)
  }

  ghost predicate Verified(t: Tree, pins: seq<Pin>, sha: Bytes -> string) {
    pins != [] && PinsGood(t, pins, sha) && NothingExtra(t, pins)
  }

  ghost predicate DistinctNames(es: seq<DirEntry>) {
    forall i, j :: 0 <= i < j < |es| ==> es[i].name != es[j].name
  }

  /** Names are unique within a directory and every directory can be read. */
  ghost predicate Listable(n: Node)
    decreases n
  {
    n.Directory? ==>
      && n.readable
      && DistinctNames(n.entries)
      && forall i :: 0 <= i < |n.entries| ==> Listable(n.entries[i].node)
  }

  function LeafOf(n: Node): Leaf
    requires !n.Directory?
  {
    match n
    case RegularFile(b) => FileLeaf(b)
    case Symlink(_) => LinkLeaf
    case Special => SpecialLeaf
  }

  ghost predicate IsLeaf(n: Node, p: Path) {
    p != [] && NoFollow(n, p).Some? && !NoFollow(n, p).value.Directory?
  }

  /** The leaves of `n`: exactly the non-directories reached through real directories. */
  ghost function Leaves(n: Node): (t: Tree)
    requires Listable(n)
    ensures forall p :: p in t <==> IsLeaf(n, p)
    ensures forall p :: p in t ==> IsLeaf(n, p) && t[p] == LeafOf(NoFollow(n, p).value)
  {
    var paths := set x | x in Listing(n, []) :: x.rel;
    assert forall p :: p in paths <==> IsLeaf(n, p) by {
      forall p | p in paths ensures IsLeaf(n, p) {
        var x :| x in Listing(n, []) && x.rel == p;
        var q := ListedSound(n, [], x);
        assert p == q;
      }
      forall p | IsLeaf(n, p) ensures p in paths {
        ListedComplete(n, [], p);
        assert [] + p == p;
      }
    }
    map p | p in paths :: LeafOf(NoFollow(n, p).value)
  }

  lemma {:induction false} EntriesListed(es: seq<DirEntry>, sub: Path, i: nat)
    requires i < |es|
    ensures forall x :: x in ListOne(es[i], sub) ==> x in ListEntries(es, sub)
  {
    if i > 0 {
      assert es[1..][i - 1] == es[i];
      EntriesListed(es[1..], sub, i - 1);
    }
  }

  lemma {:induction false} ListedEntry(es: seq<DirEntry>, sub: Path, x: Listed) returns (i: nat)
    requires x in ListEntries(es, sub)
    ensures i < |es| && x in ListOne(es[i], sub)
  {
    if x in ListOne(es[0], sub) {
      i := 0;
    } else {
      i := ListedEntry(es[1..], sub, x);
      i := i + 1;
    }
  }

  lemma FindDistinct(es: seq<DirEntry>, i: nat)
    requires DistinctNames(es) && i < |es|
    ensures Find(es, es[i].name) == Some(es[i].node)
  {
    var r := Find(es, es[i].name);
    var j :| 0 <= j < |es| && es[j] == DirEntry(es[i].name, r.value);
    assert i == j;
  }

  lemma {:induction false} ListedSound(n: Node, sub: Path, x: Listed) returns (q: Path)
    requires Listable(n) && x in Listing(n, sub)
    ensures x.rel == sub + q && IsLeaf(n, q) && x.symlink == NoFollow(n, q).value.Symlink?
    decreases n
  {
    var i := ListedEntry(n.entries, sub, x);
    var e := n.entries[i];
    FindDistinct(n.entries, i);
    if e.node.Directory? {
      var q' := ListedSound(e.node, sub + [e.name], x);
      q := [e.name] + q';
      assert q[1..] == q';
    } else {
      q := [e.name];
      assert NoFollow(n, q) == NoFollow(e.node, q[1..]) == Some(e.node);
    }
  }

  lemma {:induction false} ListedComplete(n: Node, sub: Path, q: Path)
    requires Listable(n) && IsLeaf(n, q)
    ensures Listed(sub + q, NoFollow(n, q).value.Symlink?) in Listing(n, sub)
    decreases |q|
  {
    var m := Find(n.entries, q[0]).value;
    var i :| 0 <= i < |n.entries| && n.entries[i] == DirEntry(q[0], m);
    EntriesListed(n.entries, sub, i);
    if |q| == 1 {
      assert q[1..] == [];
      assert NoFollow(m, q[1..]) == Some(m);
    }
    if m.Directory? {
      ListedComplete(m, sub + [q[0]], q[1..]);
      assert sub + q == sub + [q[0]] + q[1..];
    } else {
      assert |q| > 1 ==> NoFollow(m, q[1..]).None?;
      assert sub + q == sub + [q[0]];
    }
  }

  /** A lookup that differs from the no-follow one passes through a link that the listing records. */
  lemma {:induction false} FirstLink(n: Node, path: Path) returns (q: Path)
    requires Lstat(n, path) != NoFollow(n, path)
    ensures IsLeaf(n, q) && NoFollow(n, q).value.Symlink? && Lstat(n, q) == NoFollow(n, q)
    ensures NoFollow(n, path).None?
    decreases |path|
  {
    var m := Find(n.entries, path[0]).value;
    var rest := path[1..];
    assert rest == [] ==> NoFollow(m, rest) == Some(m);
    if m.Symlink? {
      q := [path[0]];
      assert NoFollow(n, q) == NoFollow(m, q[1..]) == Some(m);
    } else {
      var q' := FirstLink(m, path[1..]);
      q := [path[0]] + q';
      assert q[1..] == q';
    }
  }

  lemma NoLinkAccepted(d: Node, pins: seq<Pin>, sha: Bytes -> string, q: Path)
    requires Listable(d) && d.Directory? && Accepts(Some(d), pins, sha)
    requires IsLeaf(d, q) && Lstat(d, q) == NoFollow(d, q)
    ensures !NoFollow(d, q).value.Symlink?
  {
    ListedComplete(d, [], q);
    assert [] + q == q;
    assert !Unexpected(Listed(q, NoFollow(d, q).value.Symlink?), pins);
    if q in PinnedPaths(pins) {
      var g :| g in pins && g.path == q;
      assert FileOk(LstatIn(Some(d), g.path), g, sha);
    }
  }

  /** The directory passes exactly when its leaves are the pinned files, each with the pinned size
      and hash, plus non-symlink junk: in particular no pinned file is reached through a link. */
  lemma VerifiedIffLeaves(d: Node, pins: seq<Pin>, sha: Bytes -> string)
    requires Listable(d) && d.Directory?
    requires forall f :: f in pins ==> f.path != []
    ensures Accepts(Some(d), pins, sha) <==> Verified(Leaves(d), pins, sha)
  {
    if Accepts(Some(d), pins, sha) {
      forall f | f in pins ensures Lstat(d, f.path) == NoFollow(d, f.path) {
        if Lstat(d, f.path) != NoFollow(d, f.path) {
          var q := FirstLink(d, f.path);
          NoLinkAccepted(d, pins, sha, q);
          assert false;
        }
      }
      assert PinsGood(Leaves(d), pins, sha) by {
        forall f | f in pins
          ensures f.path in Leaves(d) && Leaves(d)[f.path].FileLeaf?
          ensures |Leaves(d)[f.path].bytes| == f.sizeBytes && sha(Leaves(d)[f.path].bytes) == f.sha256
        {
          assert FileOk(LstatIn(Some(d), f.path), f, sha);
          assert IsLeaf(d, f.path);
        }
      }
      forall p | p in Leaves(d) && p !in PinnedPaths(pins)
        ensures !Leaves(d)[p].LinkLeaf? && IsIgnoredOsJunk(p)
      {
        assert IsLeaf(d, p);
        ListedComplete(d, [], p);
        assert [] + p == p;
        assert !Unexpected(Listed(p, NoFollow(d, p).value.Symlink?), pins);
      }
    }
    if Verified(Leaves(d), pins, sha) {
      forall f | f in pins ensures FileOk(LstatIn(Some(d), f.path), f, sha) {
        assert f.path in Leaves(d);
        if Lstat(d, f.path) != NoFollow(d, f.path) {
          var q := FirstLink(d, f.path);
          assert false;
        }
      }
      forall x | x in ListingIn(Some(d)) ensures !Unexpected(x, pins) {
        var q := ListedSound(d, [], x);
        assert x.rel == q;
        assert q in Leaves(d);
      }
    }
  }

  /** What is at the root: unlike any other link of the tree, one there is followed. */
  function Behind(root: Option<Node>): Option<Node> {
    if root.None? then None else Resolve(root.value)
  }

  /** The check is that of the directory behind the root, and there must be one. */
  lemma AcceptsBehind(root: Option<Node>, pins: seq<Pin>, sha: Bytes -> string)
    requires forall f :: f in pins ==> f.path != []
    ensures Accepts(root, pins, sha) <==>
      && Behind(root).Some? && Behind(root).value.Directory?
      && Accepts(Some(Behind(root).value), pins, sha)
  {
    if pins != [] {
      var f := pins[0];
      assert f in pins && f.path != [];
      assert Behind(root).None? || !Behind(root).value.Directory? ==> !FileOk(LstatIn(root, f.path), f, sha);
    }
  }

  /** Whatever is at the root: the check passes exactly when that is a directory, or a link that leads to one, with
      the right leaves. */
  lemma VerifiedAtRoot(root: Option<Node>, pins: seq<Pin>, sha: Bytes -> string)
    requires Behind(root).Some? ==> Listable(Behind(root).value)
    requires forall f :: f in pins ==> f.path != []
    ensures Accepts(root, pins, sha) <==>
      Behind(root).Some? && Behind(root).value.Directory? && Verified(Leaves(Behind(root).value), pins, sha)
  {
    AcceptsBehind(root, pins, sha);
    if Behind(root).Some? && Behind(root).value.Directory? {
      VerifiedIffLeaves(Behind(root).value, pins, sha);
    }
  }

  lemma ListTwo(a: DirEntry, b: DirEntry)
    ensures Listing(Directory(true, [a, b]), []) == ListOne(a, []) + ListOne(b, [])
  {
    assert [a, b][1..] == [b];
    assert ListEntries([b], []) == ListOne(b, []) + ListEntries([b][1..], []);
  }

  /** The junk rule tests "not a symlink", not "a regular file": a FIFO named `.DS_Store` passes. */
  /** What counts as junk is decided by the last name alone, at any depth. */
  lemma JunkByBasename(dir: Path, name: string)
    ensures IsIgnoredOsJunk(dir + [name]) <==> name == ".DS_Store" || name == "Thumbs.db" || name == "desktop.ini"
    ensures !IsIgnoredOsJunk([])
  {
    assert (dir + [name])[|dir|] == name;
  }

  /** `links` symbolic links, the last of them to `n`. */
  function LinksTo(n: Option<Node>, links: nat): Option<Node> {
    if links == 0 then n else Some(Symlink(LinksTo(n, links - 1)))
  }

  /** Links are followed to the end, however many there are; a link to nothing leads nowhere. */
  lemma {:induction false} LinksResolve(n: Option<Node>, links: nat)
    requires n.Some? ==> !n.value.Symlink?
    requires links > 0
    ensures Resolve(LinksTo(n, links).value) == n
  {
    if links > 1 {
      LinksResolve(n, links - 1);
    }
  }

  /** Looking up a path in two parts: a link where the first part ends is followed before the second part. */
  lemma {:induction false} LstatInParts(n: Node, path: Path, rest: Path)
    requires path != [] && rest != [] && Lstat(n, path).Some?
    ensures var m := Resolve(Lstat(n, path).value);
      Lstat(n, path + rest) == if m.Some? then Lstat(m.value, rest) else None
    decreases |path|
  {
    var m := Find(n.entries, path[0]).value;
    assert (path + rest)[0] == path[0] && (path + rest)[1..] == path[1..] + rest;
    if |path| == 1 {
      assert path[1..] + rest == rest;
    } else {
      LstatInParts(Resolve(m).value, path[1..], rest);
    }
  }

  lemma PinnedPathsAre(pins: seq<Pin>, p: Path)
    ensures p in PinnedPaths(pins) <==> exists i :: 0 <= i < |pins| && pins[i].path == p
  {
    if p in PinnedPaths(pins) {
      var f :| f in pins && f.path == p;
      var i :| 0 <= i < |pins| && pins[i] == f;
      assert pins[i].path == p;
    }
    if i :| 0 <= i < |pins| && pins[i].path == p {
      assert pins[i] in pins;
    }
  }

  lemma JunkNeedNotBeRegular(f: Pin, b: Bytes, sha: Bytes -> string)
    requires f == Pin(["m"], |b|, sha(b))
    ensures Accepts(Some(Directory(true, [DirEntry("m", RegularFile(b)), DirEntry(".DS_Store", Special)])), [f], sha)
  {
    var e := DirEntry("m", RegularFile(b));
    var d := Directory(true, [e, DirEntry(".DS_Store", Special)]);
    ListTwo(e, DirEntry(".DS_Store", Special));
    assert Lstat(d, ["m"]) == Some(RegularFile(b));
    assert [] + ["m"] == ["m"] && [] + [".DS_Store"] == [".DS_Store"];
    assert Listing(d, []) == [Listed(["m"], false), Listed([".DS_Store"], false)];
    assert f.path in PinnedPaths([f]);
  }

  /** A directory that can be searched but not read hides what it holds, so readability is needed. */
  lemma UnreadableDirectoryHides(f: Pin, b: Bytes, planted: seq<DirEntry>, sha: Bytes -> string)
    requires f == Pin(["m"], |b|, sha(b))
    ensures Accepts(Some(Directory(true, [DirEntry("m", RegularFile(b)), DirEntry("x", Directory(false, planted))])),
                    [f], sha)
  {
    var e := DirEntry("m", RegularFile(b));
    var hidden := DirEntry("x", Directory(false, planted));
    var d := Directory(true, [e, hidden]);
    ListTwo(e, hidden);
    assert Lstat(d, ["m"]) == Some(RegularFile(b));
    assert [] + ["m"] == ["m"];
    assert Listing(d, []) == [Listed(["m"], false)];
    assert f.path in PinnedPaths([f]);
  }

  // ---- exactly when the check means what its documentation says ----

  /** The documented meaning: beside the pinned files there are only regular junk files. */
  ghost predicate Documented(t: Tree, pins: seq<Pin>, sha: Bytes -> string) {
    && pins != [] && PinsGood(t, pins, sha)
    && forall p :: p in t && p !in PinnedPaths(pins) ==> t[p].FileLeaf? && IsIgnoredOsJunk(p)
  }

  /** `n` as it would be if every directory in it could be read. */
  function Unlocked(n: Node): Node
    decreases n, 1
  {
    match n
    case Directory(_, es) => Directory(true, UnlockedEntries(es))
    case _ => n
  }

  function UnlockedEntries(es: seq<DirEntry>): (us: seq<DirEntry>)
    ensures |us| == |es|
    decreases es, 0
  {
    if es == [] then [] else [DirEntry(es[0].name, Unlocked(es[0].node))] + UnlockedEntries(es[1..])
  }

  lemma {:induction false} UnlockedAt(es: seq<DirEntry>, i: nat)
    requires i < |es|
    ensures UnlockedEntries(es)[i] == DirEntry(es[i].name, Unlocked(es[i].node))
  {
    if i > 0 {
      UnlockedAt(es[1..], i - 1);
    }
  }

  ghost predicate WellNamed(n: Node)
    decreases n
  {
    n.Directory? ==> DistinctNames(n.entries) && forall i :: 0 <= i < |n.entries| ==> WellNamed(n.entries[i].node)
  }

  lemma {:induction false} UnlockedIsListable(n: Node)
    requires WellNamed(n)
    ensures Listable(Unlocked(n))
    decreases n
  {
    if n.Directory? {
      var us := UnlockedEntries(n.entries);
      forall i | 0 <= i < |us| ensures us[i].name == n.entries[i].name && Listable(us[i].node) {
        UnlockedAt(n.entries, i);
        UnlockedIsListable(n.entries[i].node);
      }
    }
  }

  lemma {:induction false} UnlockedFind(es: seq<DirEntry>, name: string)
    ensures Find(UnlockedEntries(es), name)
      == if Find(es, name).None? then None else Some(Unlocked(Find(es, name).value))
  {
    if es != [] {
      UnlockedFind(es[1..], name);
      assert UnlockedEntries(es)[1..] == UnlockedEntries(es[1..]);
    }
  }

  /** Looking a file up needs search permission only. */
  lemma {:induction false} UnlockedLstat(n: Node, path: Path, f: Pin, sha: Bytes -> string)
    ensures FileOk(Lstat(Unlocked(n), path), f, sha) == FileOk(Lstat(n, path), f, sha)
    decreases |path|
  {
    if path != [] && n.Directory? {
      UnlockedFind(n.entries, path[0]);
      var found := Find(n.entries, path[0]);
      if found.Some? && |path| > 1 && !found.value.Symlink? {
        UnlockedLstat(found.value, path[1..], f, sha);
      }
    }
  }

  lemma {:induction false} UnlockedListsMore(n: Node, sub: Path, x: Listed)
    requires x in Listing(n, sub)
    ensures x in Listing(Unlocked(n), sub)
    decreases n
  {
    var i := ListedEntry(n.entries, sub, x);
    var e := n.entries[i];
    UnlockedAt(n.entries, i);
    if e.node.Directory? {
      UnlockedListsMore(e.node, sub + [e.name], x);
    }
    EntriesListed(UnlockedEntries(n.entries), sub, i);
  }

  /** All leaves, those in unreadable directories included. */
  ghost function AllLeaves(n: Node): Tree
    requires WellNamed(n)
  {
    UnlockedIsListable(n);
    Leaves(Unlocked(n))
  }

  /** An entry under a directory that cannot be read, and that the check would have refused. */
  ghost predicate Hidden(d: Node, pins: seq<Pin>, x: Listed) {
    x in Listing(Unlocked(d), []) && x !in Listing(d, []) && Unexpected(x, pins)
  }

  /** An unpinned FIFO, socket or device that bears a junk name. */
  ghost predicate SpecialJunk(t: Tree, pins: seq<Pin>, p: Path) {
    p in t && p !in PinnedPaths(pins) && t[p].SpecialLeaf? && IsIgnoredOsJunk(p)
  }

  lemma UnlockedAccepted(d: Node, pins: seq<Pin>, sha: Bytes -> string)
    requires d.Directory?
    ensures Accepts(Some(Unlocked(d)), pins, sha) <==> Accepts(Some(d), pins, sha) && forall x :: !Hidden(d, pins, x)
  {
    var u := Unlocked(d);
    forall f | f in pins ensures FileOk(LstatIn(Some(u), f.path), f, sha) == FileOk(LstatIn(Some(d), f.path), f, sha) {
      UnlockedLstat(d, f.path, f, sha);
    }
    forall x | x in Listing(d, []) ensures x in Listing(u, []) {
      UnlockedListsMore(d, [], x);
    }
    assert ListingIn(Some(u)) == Listing(u, []) && ListingIn(Some(d)) == Listing(d, []);
    if Accepts(Some(d), pins, sha) && forall x :: !Hidden(d, pins, x) {
      forall x | x in ListingIn(Some(u)) ensures !Unexpected(x, pins) {
        assert !Hidden(d, pins, x);
      }
    }
  }

  /** A directory is what the documentation of the check says exactly when the check passes, no
      unreadable directory hides an entry it would have refused, and no special file has a junk name. */
  lemma DocumentedExactly(d: Node, pins: seq<Pin>, sha: Bytes -> string)
    requires d.Directory? && WellNamed(d) && forall f :: f in pins ==> f.path != []
    ensures Documented(AllLeaves(d), pins, sha) <==>
      && Accepts(Some(d), pins, sha)
      && (forall x :: !Hidden(d, pins, x))
      && (forall p :: !SpecialJunk(AllLeaves(d), pins, p))
  {
    UnlockedAccepted(d, pins, sha);
    UnlockedIsListable(d);
    VerifiedIffLeaves(Unlocked(d), pins, sha);
    var t := AllLeaves(d);
    if Verified(t, pins, sha) && forall p :: !SpecialJunk(t, pins, p) {
      forall p | p in t && p !in PinnedPaths(pins) ensures t[p].FileLeaf? && IsIgnoredOsJunk(p) {
        assert !SpecialJunk(t, pins, p);
      }
    }
  }

  /** The same for whatever is at the root. */
  lemma DocumentedAtRoot(root: Option<Node>, pins: seq<Pin>, sha: Bytes -> string)
    requires Behind(root).Some? ==> WellNamed(Behind(root).value)
    requires forall f :: f in pins ==> f.path != []
    ensures Behind(root).Some? && Behind(root).value.Directory? ==>
      var d := Behind(root).value;
      (Documented(AllLeaves(d), pins, sha) <==>
        && Accepts(root, pins, sha)
        && (forall x :: !Hidden(d, pins, x))
        && (forall p :: !SpecialJunk(AllLeaves(d), pins, p)))
    ensures Behind(root).None? || !Behind(root).value.Directory? ==> !Accepts(root, pins, sha)
  {
    AcceptsBehind(root, pins, sha);
    if Behind(root).Some? && Behind(root).value.Directory? {
      DocumentedExactly(Behind(root).value, pins, sha);
    }
  }
}
