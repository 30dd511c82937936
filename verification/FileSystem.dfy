/**
 Directories and files as the kernel serves them: walking paths, creating, opening, unlinking, closing,
 reading and writing, with the vnode kept for as long as a name or an open file needs it.
 */
module FileSystem {
  import opened Common
  import opened Vnodes
  import Paths

  datatype Disposition = OpenExisting | CreateNew | OpenIf | Overwrite

  /** What a caller asks of an open. */
  datatype Request = Request(disp: Disposition, wantDirectory: bool, wantFile: bool, readable: bool, writable: bool, append: bool)

  /* ---- operations as values ---- */

  function Mkdir(s: Fs, comps: seq<string>, granted: bool): (Fs, Status) {
    match WalkPath(s, comps)
    case Nowhere => (s, PathNotFound)
    case Reached(p, leaf, name) =>
      if leaf.Some? then (s, NameCollision)
      else if name == "" then (s, InvalidParameter)
      else if !granted || p !in s.nodes then (s, NoMemory)
      else (Attach(s, p, name, Directory), Success)
  }

  function FileFor(v: nat, q: Request): File { File(v, 0, q.readable, q.writable, q.append) }

  /** The new file object; without memory for it the reference just taken is dropped again. */
  function Pinned(s: Fs, v: nat, q: Request, granted: bool): (Fs, Status) {
    if !granted || v !in s.nodes then (s, NoMemory) else (OpenOn(s, v, FileFor(v, q)), Success)
  }

  /** The vnode is the root or still the entry of its name in its directory. */
  predicate Linked(s: Fs, v: nat)
    requires v in s.nodes
  {
    v == s.root || (s.nodes[v].parent.Some? && Child(s, s.nodes[v].parent.value, s.nodes[v].name) == Some(v))
  }

  function OpenLeaf(s: Fs, v: nat, q: Request, fileGranted: bool): (Fs, Status)
    requires v in s.nodes
  {
    if s.nodes[v].kind == Directory && q.wantFile then (s, FileIsADirectory)
    else if s.nodes[v].kind != Directory && q.wantDirectory then (s, NotADirectory)
    else if q.disp == CreateNew then (s, NameCollision)
    else if !Linked(s, v) then (s, NoSuchFile)
    else Pinned(s, v, q, fileGranted)
  }

  function OpenNew(s: Fs, p: nat, name: string, q: Request, nodeGranted: bool, fileGranted: bool): (Fs, Status) {
    if q.disp == OpenExisting then (s, NoSuchFile)
    else if name == "" then (s, InvalidParameter)
    else if !nodeGranted || p !in s.nodes then (s, NoMemory)
    else
      match Child(s, p, name)
      case Some(v) => Pinned(s, v, q, fileGranted)
      case None => Pinned(Attach(s, p, name, if q.wantDirectory then Directory else Regular), s.nextNode, q, fileGranted)
  }

  /** What follows the walk, with the directory, entry and name that it found. */
  function OpenAt(s: Fs, p: nat, leaf: Option<nat>, name: string, q: Request, nodeGranted: bool, fileGranted: bool): (Fs, Status) {
    if leaf.Some? then (if leaf.value in s.nodes then OpenLeaf(s, leaf.value, q, fileGranted) else (s, NoSuchFile))
    else OpenNew(s, p, name, q, nodeGranted, fileGranted)
  }

  /** The walk settles the open: it finds a directory, or only an existing file will do. */
  predicate Settled(s: Fs, comps: seq<string>, q: Request) {
    q.disp == OpenExisting || WalkPath(s, comps).Reached?
  }

  function Open(s: Fs, comps: seq<string>, q: Request, nodeGranted: bool, fileGranted: bool): (Fs, Status)
    requires Settled(s, comps, q)
  {
    match WalkPath(s, comps)
    case Nowhere => (s, PathNotFound)
    case Reached(p, leaf, name) => OpenAt(s, p, leaf, name, q, nodeGranted, fileGranted)
  }

  /** What the variables for the results of the walk hold before it. */
  datatype Unset = Unset(parent: nat, leaf: Option<nat>, name: string)

  /** Pointers to vnodes that exist. */
  predicate Plausible(s: Fs, u: Unset) {
    u.parent in s.nodes && (u.leaf.Some? ==> u.leaf.value in s.nodes)
  }

  /** The whole call. When the walk fails, an open that may create goes on with whatever its variables held. */
  function OpenWith(s: Fs, comps: seq<string>, q: Request, u: Unset, nodeGranted: bool, fileGranted: bool): (Fs, Status) {
    if Settled(s, comps, q) then Open(s, comps, q, nodeGranted, fileGranted)
    else OpenAt(s, u.parent, u.leaf, u.name, q, nodeGranted, fileGranted)
  }

  function Unlink(s: Fs, comps: seq<string>): (Fs, Status) {
    if comps == [] then (s, AccessDenied)
    else match WalkPath(s, comps)
      case Nowhere => (s, NoSuchFile)
      case Reached(p, leaf, name) =>
        if leaf == None || leaf.value !in s.nodes || p !in s.nodes || p == leaf.value then (s, NoSuchFile)
        else if s.nodes[leaf.value].kind in {CharDevice, BlockDevice} then (s, AccessDenied)
        else if s.nodes[leaf.value].kind == Directory && s.nodes[leaf.value].children != [] then (s, CannotDelete)
        else (Detach(s, p, leaf.value), Success)
  }

  /* ---- reading and writing regular files ---- */

  function Contents(n: Vnode): seq<byte>
    requires n.size <= |n.buffer|
  {
    n.buffer[..n.size]
  }

  /** What a read of n bytes delivers. */
  function ReadBytes(s: Fs, f: nat, n: nat): (Status, seq<byte>)
    requires f in s.files && s.files[f].vnode in s.nodes && s.nodes[s.files[f].vnode].size <= |s.nodes[s.files[f].vnode].buffer|
  {
    var x, v := s.files[f], s.nodes[s.files[f].vnode];
    if !x.readable then (AccessDenied, [])
    else if v.kind != Regular then (InvalidParameter, [])
    else if x.offset >= v.size then (EndOfFile, [])
    else (Success, Contents(v)[x.offset..x.offset + if n <= v.size - x.offset then n else v.size - x.offset])
  }

  /** Bytes placed over a sequence, which grows if they reach past its end. */
  function Splice(c: seq<byte>, off: nat, data: seq<byte>): seq<byte>
    requires off <= |c|
  {
    c[..off] + data + if off + |data| < |c| then c[off + |data|..] else []
  }

  function NewCap(need: nat, cap: nat): (c: nat)
    ensures c >= need
  {
    var twice := if cap > 0 then cap * 2 else 256;
    ((if need >= twice then need else twice) + PAGE - 1) / PAGE * PAGE
  }

  /* ---- every operation keeps the invariant ---- */

  lemma MkdirInv(s: Fs, comps: seq<string>, granted: bool)
    requires Inv(s)
    ensures Inv(Mkdir(s, comps, granted).0)
  {
    hide Inv, Attach;
    RootOk(s);
    if comps != [] {
      WalkStays(s, s.root, comps);
      var w := WalkPath(s, comps);
      if w.Reached? && w.leaf == None && w.name != "" {
        AttachInv(s, w.parent, w.name, Directory);
      }
    }
  }

  lemma PinnedInv(s: Fs, v: nat, q: Request, granted: bool)
    requires Inv(s)
    ensures Inv(Pinned(s, v, q, granted).0)
  {
    hide Inv, OpenOn;
    if granted && v in s.nodes {
      OpenInv(s, v, FileFor(v, q));
    }
  }

  /** Opening under a named directory, or an entry that is there, keeps the invariant. */
  lemma OpenAtInv(s: Fs, p: nat, leaf: Option<nat>, name: string, q: Request, nodeGranted: bool, fileGranted: bool)
    requires Inv(s) && (leaf == None && p in s.nodes ==> s.nodes[p].kind == Directory && Named(s, p))
    ensures Inv(OpenAt(s, p, leaf, name, q, nodeGranted, fileGranted).0)
  {
    hide Inv, Attach, Pinned, Linked;
    if leaf.Some? {
      PinnedInv(s, leaf.value, q, fileGranted);
    } else if name != "" && p in s.nodes {
      var c := Child(s, p, name);
      if c.Some? {
        PinnedInv(s, c.value, q, fileGranted);
      } else {
        var kind := if q.wantDirectory then Directory else Regular;
        AttachInv(s, p, name, kind);
        PinnedInv(Attach(s, p, name, kind), s.nextNode, q, fileGranted);
      }
    }
  }

  lemma OpenKeepsInv(s: Fs, comps: seq<string>, q: Request, nodeGranted: bool, fileGranted: bool)
    requires Inv(s) && Settled(s, comps, q)
    ensures Inv(Open(s, comps, q, nodeGranted, fileGranted).0)
  {
    hide Inv, OpenAt;
    RootOk(s);
    var w := WalkPath(s, comps);
    if comps != [] {
      WalkStays(s, s.root, comps);
    }
    if w.Reached? {
      OpenAtInv(s, w.parent, w.leaf, w.name, q, nodeGranted, fileGranted);
    }
  }

  /** When the walk finds its directory, the checks that are made again afterwards agree with it. */
  lemma WalkAgrees(s: Fs, comps: seq<string>)
    requires Inv(s) && WalkPath(s, comps).Reached?
    ensures var w := WalkPath(s, comps);
      && (w.leaf.Some? ==> w.leaf.value in s.nodes && Linked(s, w.leaf.value))
      && (w.leaf == None ==> Child(s, w.parent, w.name) == None)
  {
    hide Inv, Child;
    RootOk(s);
    if comps != [] {
      WalkStays(s, s.root, comps);
      var w := WalkPath(s, comps);
      if w.leaf.Some? {
        ChildNamed(s, w.parent, w.name);
      }
    }
  }

  /* ---- an open whose walk fails ---- */

  /** A vnode attached to something that is not a named directory. */
  lemma StrayAttach(s: Fs, p: nat, name: string, q: Request, fileGranted: bool)
    requires Inv(s) && p in s.nodes && name != "" && q.disp != OpenExisting && !(s.nodes[p].kind == Directory && Named(s, p))
    ensures !Inv(OpenAt(s, p, None, name, q, true, fileGranted).0)
  {
    hide Inv;
    Fresh(s);
    HasNode(s, p);
    SizeOk(s, p);
    var r, v := OpenAt(s, p, None, name, q, true, fileGranted).0, s.nextNode;
    assert Child(s, p, name) == None;
    assert v in r.nodes[p].children;
    assert !ParentOk(r, p);
    Broken(r, p);
  }

  lemma Broken(s: Fs, v: nat)
    requires v in s.nodes && !ParentOk(s, v)
    ensures !Inv(s)
  {
  }

  /** Every vnode is a directory that has a name. */
  predicate OnlyDirectories(s: Fs) {
    forall v :: v in s.nodes ==> s.nodes[v].kind == Directory && Named(s, v)
  }

  /**
   The invariant survives an open, whatever existing vnodes its unset variables point to, exactly when the walk settles
   it or there are no vnodes but named directories.
   */
  lemma OpenSafeExactly(s: Fs, comps: seq<string>, q: Request, fileGranted: bool)
    requires Inv(s)
    ensures (forall u: Unset :: Plausible(s, u) ==> Inv(OpenWith(s, comps, q, u, true, fileGranted).0))
            <==> Settled(s, comps, q) || OnlyDirectories(s)
  {
    hide Inv, OpenAt, Open, WalkPath;
    if Settled(s, comps, q) {
      OpenKeepsInv(s, comps, q, true, fileGranted);
    } else if OnlyDirectories(s) {
      forall u: Unset | Plausible(s, u) ensures Inv(OpenWith(s, comps, q, u, true, fileGranted).0) {
        OpenAtInv(s, u.parent, u.leaf, u.name, q, true, fileGranted);
      }
    } else {
      var p :| p in s.nodes && !(s.nodes[p].kind == Directory && Named(s, p));
      StrayAttach(s, p, "x", q, fileGranted);
      assert Plausible(s, Unset(p, None, "x"));
    }
  }

  /** One file in the root, and a new file in a directory that is not there. */
  lemma CreateInMissingDirectory(q: Request)
    requires q.disp == CreateNew
    ensures var s := Fs(map[0 := Vnode("", Directory, None, [1], [], 0, 1), 1 := Vnode("f", Regular, Some(0), [], [], 0, 1)], map[], 0, 2, 0, []);
      && Inv(s) && !Settled(s, ["a", "b"], q)
      && Plausible(s, Unset(1, None, "b")) && !Inv(OpenWith(s, ["a", "b"], q, Unset(1, None, "b"), true, true).0)
  {
    var s := Fs(map[0 := Vnode("", Directory, None, [1], [], 0, 1), 1 := Vnode("f", Regular, Some(0), [], [], 0, 1)], map[], 0, 2, 0, []);
    assert Opens(s, 0) == {} && Opens(s, 1) == {};
    assert Inv(s);
    assert Child(s, 0, "a") == None;
    StrayAttach(s, 1, "b", q, true);
  }

  lemma UnlinkInv(s: Fs, comps: seq<string>)
    requires Inv(s)
    ensures Inv(Unlink(s, comps).0)
  {
    hide Inv, Detach;
    RootOk(s);
    if comps != [] {
      WalkStays(s, s.root, comps);
      var w := WalkPath(s, comps);
      if w.Reached? && w.leaf.Some? {
        var v := w.leaf.value;
        HasNode(s, v);
        if s.nodes[v].children == [] {
          DetachInv(s, w.parent, v);
        } else {
          DirectoryOnly(s, v);
        }
      }
    }
  }

  lemma DirectoryOnly(s: Fs, v: nat)
    requires v in s.nodes && ParentOk(s, v) && s.nodes[v].children != []
    ensures s.nodes[v].kind == Directory
  {
  }

  /* ---- open files ---- */

  ghost predicate SameBytes(s: Fs, r: Fs) {
    forall v :: v in s.nodes ==> SameBytesAt(s, r, v)
  }

  ghost predicate SameBytesAt(s: Fs, r: Fs, v: nat) {
    v in s.nodes && v in r.nodes ==>
      r.nodes[v].kind == s.nodes[v].kind && r.nodes[v].buffer == s.nodes[v].buffer && r.nodes[v].size == s.nodes[v].size
  }

  lemma UnlinkFiles(s: Fs, comps: seq<string>)
    ensures var r := Unlink(s, comps).0; r.files == s.files && SameBytes(s, r)
  {
    hide Walk, Detach;
    var w := WalkPath(s, comps);
    if w.Reached? && w.leaf.Some? && w.parent in s.nodes && w.leaf.value in s.nodes && w.parent != w.leaf.value {
      DetachBytes(s, w.parent, w.leaf.value);
    }
  }

  lemma DetachBytes(s: Fs, p: nat, v: nat)
    requires p in s.nodes && v in s.nodes && p != v
    ensures Detach(s, p, v).files == s.files && SameBytes(s, Detach(s, p, v))
  {
    hide Unlisted;
  }

  /** A directory with entries is never unlinked, and neither is the root. */
  lemma UnlinkRefusesFull(s: Fs, comps: seq<string>)
    requires Inv(s) && WalkPath(s, comps).Reached? && WalkPath(s, comps).leaf.Some?
    requires var v := WalkPath(s, comps).leaf.value; v in s.nodes && s.nodes[v].children != []
    ensures Unlink(s, comps).0 == s && Unlink(s, comps).1 in {CannotDelete, AccessDenied}
  {
    hide Inv, Detach;
    RootOk(s);
    var v := WalkPath(s, comps).leaf.value;
    HasNode(s, v);
    DirectoryOnly(s, v);
    if comps != [] {
      WalkStays(s, s.root, comps);
      NotItself(s, WalkPath(s, comps).parent, v);
    }
  }

  lemma NotItself(s: Fs, p: nat, v: nat)
    requires Inv(s) && v in s.nodes && s.nodes[v].parent == Some(p)
    ensures p in s.nodes && p != v
  {
    HasNode(s, v);
  }

  /* ---- writing ---- */

  /** Where a write starts: at the end for an appending file, else at the file's position. */
  function Position(x: File, n: Vnode): nat { if x.append then n.size else x.offset }

  /** The allocation that a write up to `need` goes into: the old one, or `block` with the old contents copied. */
  function Room(n: Vnode, need: nat, block: seq<byte>): (r: seq<byte>)
    requires n.size <= |n.buffer| && (need > |n.buffer| ==> |block| >= need)
    ensures |r| >= need && |r| >= n.size && r[..n.size] == Contents(n)
  {
    if need > |n.buffer| then n.buffer[..n.size] + block[n.size..] else n.buffer
  }

  /** The vnode after a write. */
  function WriteNode(n: Vnode, off: nat, data: seq<byte>, block: seq<byte>): Vnode
    requires n.size <= |n.buffer| && (off + |data| > |n.buffer| ==> |block| >= off + |data|)
  {
    var room := Room(n, off + |data|, block);
    n.(buffer := room[..off] + data + room[off + |data|..], size := if off + |data| > n.size then off + |data| else n.size)
  }

  /**
   Growing the buffer or not, the file is the old one with the bytes placed over it. A write that starts past the
   end leaves whatever the allocation held in between.
   */
  lemma WriteSplices(n: Vnode, off: nat, data: seq<byte>, block: seq<byte>)
    requires n.size <= |n.buffer| && (off + |data| > |n.buffer| ==> |block| >= off + |data|)
    ensures var m, room := WriteNode(n, off, data, block), Room(n, off + |data|, block);
      && m.size <= |m.buffer|
      && Contents(m) == (if off <= n.size then Splice(Contents(n), off, data)
                         else Contents(n) + room[n.size..off] + data)
  {
    var m, room := WriteNode(n, off, data, block), Room(n, off + |data|, block);
    var want := if off <= n.size then Splice(Contents(n), off, data) else Contents(n) + room[n.size..off] + data;
    forall i | 0 <= i < m.size ensures m.buffer[i] == want[i] {
      assert i < n.size ==> room[i] == room[..n.size][i] == Contents(n)[i];
    }
  }

  /** The heap grants a block of the size asked for, or none. */
  predicate Granted(s: Fs, f: nat, data: seq<byte>, block: Option<seq<byte>>)
    requires f in s.files && s.files[f].vnode in s.nodes
  {
    var n := s.nodes[s.files[f].vnode];
    block.Some? ==> |block.value| == NewCap(Position(s.files[f], n) + |data|, |n.buffer|)
  }

  function Write(s: Fs, f: nat, data: seq<byte>, block: Option<seq<byte>>): (Fs, Status)
    requires f in s.files && s.files[f].vnode in s.nodes && Granted(s, f, data, block)
    requires s.nodes[s.files[f].vnode].size <= |s.nodes[s.files[f].vnode].buffer|
  {
    var x, n := s.files[f], s.nodes[s.files[f].vnode];
    var off := Position(x, n);
    if !x.writable && !x.append then (s, AccessDenied)
    else if n.kind != Regular then (s, FileIsADirectory)
    else if off + |data| > |n.buffer| && block == None then (s, NoMemory)
    else
      var m := WriteNode(n, off, data, if block.Some? then block.value else []);
      (PutNode(s, x.vnode, m).(files := s.files[f := x.(offset := off + |data|)]), Success)
  }

  lemma WriteInv(s: Fs, f: nat, data: seq<byte>, block: Option<seq<byte>>)
    requires Inv(s) && f in s.files && s.files[f].vnode in s.nodes && Granted(s, f, data, block)
    ensures s.nodes[s.files[f].vnode].size <= |s.nodes[s.files[f].vnode].buffer| && Inv(Write(s, f, data, block).0)
  {
    hide Inv, Granted, NewCap, ParentOk, WriteNode;
    var x, n := s.files[f], s.nodes[s.files[f].vnode];
    HasNode(s, x.vnode);
    SizeOk(s, x.vnode);
    if Write(s, f, data, block).1 == Success {
      var off := Position(x, n);
      var spare := if block.Some? then block.value else [];
      GrantSuffices(s, f, data, block);
      WriteSplices(n, off, data, spare);
      WritePlace(n, off, data, spare);
      var m := WriteNode(n, off, data, spare);
      PutNodeInv(s, x.vnode, m);
      SeekInv(PutNode(s, x.vnode, m), f, off + |data|);
    }
  }

  lemma WritePlace(n: Vnode, off: nat, data: seq<byte>, block: seq<byte>)
    requires n.size <= |n.buffer| && (off + |data| > |n.buffer| ==> |block| >= off + |data|)
    ensures var m := WriteNode(n, off, data, block); PlaceOf(m) == PlaceOf(n) && m.ref == n.ref
  {
  }

  lemma GrantSuffices(s: Fs, f: nat, data: seq<byte>, block: Option<seq<byte>>)
    requires f in s.files && s.files[f].vnode in s.nodes && Granted(s, f, data, block)
    ensures block.Some? ==> |block.value| >= Position(s.files[f], s.nodes[s.files[f].vnode]) + |data|
  {
  }

  lemma PutNodeInv(s: Fs, v: nat, n: Vnode)
    requires Inv(s) && v in s.nodes && PlaceOf(n) == PlaceOf(s.nodes[v]) && n.ref == s.nodes[v].ref && n.size <= |n.buffer|
    ensures Inv(PutNode(s, v, n))
  {
    hide Inv, Opens, ParentOk, ChildrenOk;
    var r := PutNode(s, v, n);
    forall u | u in r.nodes ensures RefOk(r, u) && r.nodes[u].size <= |r.nodes[u].buffer| {
      HasNode(s, u);
      SizeOk(s, u);
      OpensSame(s, r, u);
    }
    forall g | g in r.files ensures r.files[g].vnode in r.nodes && g < r.nextFile {
      FilesOk(s, g);
    }
    SameTreeInv(s, r);
  }

  lemma SeekInv(s: Fs, f: nat, offset: nat)
    requires Inv(s) && f in s.files
    ensures Inv(s.(files := s.files[f := s.files[f].(offset := offset)]))
  {
    hide Inv, ParentOk, ChildrenOk, Opens;
    var r := s.(files := s.files[f := s.files[f].(offset := offset)]);
    forall u | u in r.nodes ensures RefOk(r, u) && r.nodes[u].size <= |r.nodes[u].buffer| {
      HasNode(s, u);
      SizeOk(s, u);
      SeekOpens(s, f, offset, u);
    }
    forall g | g in r.files ensures r.files[g].vnode in r.nodes && g < r.nextFile {
      FilesOk(s, g);
    }
    SameTreeInv(s, r);
  }

  lemma SeekOpens(s: Fs, f: nat, offset: nat, u: nat)
    requires f in s.files
    ensures Opens(s.(files := s.files[f := s.files[f].(offset := offset)]), u) == Opens(s, u)
  {
  }

  /* ---- the file system as it runs ---- */

  class Vfs {
    var nodes: map<nat, Vnode>
    var files: map<nat, File>
    const root: nat
    var nextNode: nat
    var nextFile: nat
    ghost var frees: seq<nat>

    ghost function St(): Fs
      reads this
    {
      Fs(nodes, files, root, nextNode, nextFile, frees)
    }

    constructor ()
      ensures Inv(St()) && files == map[] && frees == [] && nodes.Keys == {root}
    {
      root, nextNode, nextFile, frees := 0, 1, 0, [];
      nodes, files := map[0 := Vnode("", Directory, None, [], [], 0, 1)], map[];
      new;
      assert Opens(St(), 0) == {};
    }

    /** The components a path names, once normalised against the working directory. */
    method Resolve(cwd: string, path: string) returns (st: Status, comps: seq<string>)
      requires cwd != "" && cwd[0] == '/'
      ensures st == Success <==> Paths.Norm(Paths.Full(cwd, path)).Some?
      ensures st != Success ==> st == NameTooLong
      ensures st == Success ==> Paths.Fold([], Paths.Pieces(Paths.Full(cwd, path))) == Some(comps)
    {
      hide Paths.Fold, Paths.Pieces, Paths.Full, Paths.Apply;
      comps := [];
      var abs;
      st, abs := Paths.PathNorm(cwd, path, Paths.PATH_MAX);
      if st != Success {
        return;
      }
      Paths.ResultFits(cwd, path);
      ghost var ps := Paths.Fold([], Paths.Pieces(Paths.Full(cwd, path))).value;
      Paths.NormProper(Paths.Full(cwd, path));
      assert Paths.AllProper(ps) && abs == Paths.Print(ps);
      Paths.FoldOfPrint(ps);
      comps := Split(abs);
    }

    /** Takes a printed path apart again. */
    method Split(abs: string) returns (comps: seq<string>)
      requires abs != "" && abs[0] == '/' && exists ps :: Paths.AllProper(ps) && |ps| <= Paths.DEPTH_MAX && abs == Paths.Print(ps)
      ensures Paths.Fold([], Paths.Pieces(abs)) == Some(comps)
    {
      hide Paths.Fold, Paths.Pieces, Paths.Apply;
      ghost var ps :| Paths.AllProper(ps) && |ps| <= Paths.DEPTH_MAX && abs == Paths.Print(ps);
      Paths.FoldOfPrint(ps);
      var s := abs[1..];
      comps := [];
      assert s == Paths.Join(ps[0..]) by { assert ps[0..] == ps; }
      while s != ""
        invariant |comps| <= |ps| && comps == ps[..|comps|] && s == Paths.Join(ps[|comps|..])
        decreases |s|
      {
        var c, rest := Paths.NextComponent(s);
        NextOf(ps[|comps|..], s, c, rest);
        assert ps[|comps|..][1..] == ps[|comps| + 1..] && ps[..|comps| + 1] == ps[..|comps|] + [ps[|comps|]];
        comps := comps + [c];
        s := rest;
      }
      JoinEmpty(ps[|comps|..]);
      assert comps == ps;
    }

    method FindChild(dir: nat, name: string) returns (r: Option<nat>)
      ensures r == Child(St(), dir, name)
    {
      if dir !in nodes {
        return None;
      }
      var l := nodes[dir].children;
      while l != []
        invariant Entry(St(), l, name) == Child(St(), dir, name)
      {
        if l[0] in nodes && nodes[l[0]].name == name {
          return Some(l[0]);
        }
        l := l[1..];
      }
      r := None;
    }

    method WalkTo(comps: seq<string>) returns (w: Walked)
      ensures w == WalkPath(St(), comps)
    {
      hide Child;
      if comps == [] {
        return Reached(root, Some(root), "");
      }
      var cur, rest := root, comps;
      while true
        invariant rest != [] && Walk(St(), cur, rest) == WalkPath(St(), comps)
        decreases |rest|
      {
        var next := FindChild(cur, rest[0]);
        if |rest| == 1 {
          return Reached(cur, next, rest[0]);
        }
        if next == None || next.value !in nodes || nodes[next.value].kind != Directory {
          ChildKnown(St(), cur, rest[0]);
          return Nowhere;
        }
        cur, rest := next.value, rest[1..];
      }
    }

    method MakeDirectory(comps: seq<string>, granted: bool) returns (st: Status)
      requires Inv(St())
      modifies `nodes, `nextNode
      ensures Inv(St()) && (St(), st) == Mkdir(old(St()), comps, granted)
    {
      hide Inv, WalkPath;
      MkdirInv(St(), comps, granted);
      var w := WalkTo(comps);
      if w == Nowhere {
        return PathNotFound;
      }
      if w.leaf.Some? {
        return NameCollision;
      }
      if w.name == "" {
        return InvalidParameter;
      }
      if !granted || w.parent !in nodes {
        return NoMemory;
      }
      AttachNode(w.parent, w.name, Directory);
      st := Success;
    }

    method AttachNode(p: nat, name: string, kind: NodeKind)
      requires p in nodes
      modifies `nodes, `nextNode
      ensures St() == Attach(old(St()), p, name, kind)
    {
      var v := nextNode;
      nodes := nodes[p := nodes[p].(children := nodes[p].children + [v])];
      nodes := nodes[v := NewNode(name, kind, p, 1)];
      nextNode := v + 1;
    }

    method ReleaseNode(v: nat)
      requires v in nodes && nodes[v].ref > 0
      modifies `nodes, `frees
      ensures St() == Release(old(St()), v)
    {
      var was := nodes[v].ref;
      nodes := nodes[v := nodes[v].(ref := was - 1)];
      if was == 1 {
        nodes := nodes - {v};
        frees := frees + [v];
        assert nodes == old(nodes) - {v};
      }
    }

    /** Pins the vnode, then makes the file object; if that fails the pin is dropped. */
    method Pin(v: nat, q: Request, granted: bool) returns (st: Status)
      requires v in nodes && nodes[v].ref > 0
      modifies `nodes, `files, `nextFile, `frees
      ensures (St(), st) == Pinned(old(St()), v, q, granted)
    {
      nodes := nodes[v := nodes[v].(ref := nodes[v].ref + 1)];
      if !granted {
        ReleaseNode(v);
        assert nodes == old(nodes);
        return NoMemory;
      }
      files := files[nextFile := FileFor(v, q)];
      nextFile := nextFile + 1;
      st := Success;
    }

    /** Opens a path; `u` is what the variables for the results of the walk hold before it. */
    method OpenFile(comps: seq<string>, q: Request, u: Unset, nodeGranted: bool, fileGranted: bool) returns (st: Status)
      requires Inv(St()) && (Settled(St(), comps, q) || Plausible(St(), u))
      modifies `nodes, `files, `nextNode, `nextFile, `frees
      ensures (St(), st) == OpenWith(old(St()), comps, q, u, nodeGranted, fileGranted)
      ensures old(Settled(St(), comps, q)) ==> Inv(St())
    {
      hide Inv, WalkPath, Pinned, Attach, Child;
      if Settled(St(), comps, q) {
        OpenKeepsInv(St(), comps, q, nodeGranted, fileGranted);
      }
      Fresh(St());
      var parent, leaf, name := u.parent, u.leaf, u.name;
      var w := WalkTo(comps);
      if w.Reached? {
        parent, leaf, name := w.parent, w.leaf, w.name;
      } else if q.disp == OpenExisting {
        return PathNotFound;
      }
      if leaf.Some? {
        var v := leaf.value;
        if v !in nodes {
          return NoSuchFile;
        }
        if nodes[v].kind == Directory && q.wantFile {
          return FileIsADirectory;
        }
        if nodes[v].kind != Directory && q.wantDirectory {
          return NotADirectory;
        }
        if q.disp == CreateNew {
          return NameCollision;
        }
        if v != root {
          if nodes[v].parent == None {
            return NoSuchFile;
          }
          var again := FindChild(nodes[v].parent.value, nodes[v].name);
          if again != Some(v) {
            return NoSuchFile;
          }
        }
        HasNode(St(), v);
        st := Pin(v, q, fileGranted);
      } else {
        if q.disp == OpenExisting {
          return NoSuchFile;
        }
        if name == "" {
          return InvalidParameter;
        }
        if !nodeGranted || parent !in nodes {
          return NoMemory;
        }
        var race := FindChild(parent, name);
        if race.Some? {
          ChildKnown(St(), parent, name);
          HasNode(St(), race.value);
          st := Pin(race.value, q, fileGranted);
        } else {
          st := OpenFresh(parent, name, q, fileGranted);
        }
      }
    }

    /** Attaches a new vnode and opens it. */
    method OpenFresh(parent: nat, name: string, q: Request, fileGranted: bool) returns (st: Status)
      requires parent in nodes && nextNode !in nodes
      modifies `nodes, `files, `nextNode, `nextFile, `frees
      ensures (St(), st) == Pinned(Attach(old(St()), parent, name, if q.wantDirectory then Directory else Regular), old(nextNode), q, fileGranted)
    {
      hide Pinned;
      var v := nextNode;
      AttachNode(parent, name, if q.wantDirectory then Directory else Regular);
      st := Pin(v, q, fileGranted);
    }

    method UnlinkFile(comps: seq<string>) returns (st: Status)
      requires Inv(St())
      modifies `nodes, `frees
      ensures Inv(St()) && (St(), st) == Unlink(old(St()), comps)
    {
      hide Inv, WalkPath, Unlisted;
      UnlinkInv(St(), comps);
      if comps == [] {
        return AccessDenied;
      }
      var w := WalkTo(comps);
      if w == Nowhere || w.leaf == None || w.leaf.value !in nodes || w.parent !in nodes || w.parent == w.leaf.value {
        return NoSuchFile;
      }
      var p, v := w.parent, w.leaf.value;
      if nodes[v].kind in {CharDevice, BlockDevice} {
        return AccessDenied;
      }
      if nodes[v].kind == Directory && nodes[v].children != [] {
        return CannotDelete;
      }
      HasNode(St(), v);
      nodes := nodes[p := nodes[p].(children := Unlisted(nodes[p].children, v))];
      nodes := nodes[v := nodes[v].(parent := None)];
      ReleaseNode(v);
      st := Success;
    }

    method CloseFile(f: nat)
      requires Inv(St()) && f in files
      modifies `nodes, `files, `frees
      ensures Inv(St()) && f !in files
      ensures old(files)[f].vnode in old(nodes) && St() == CloseOn(old(St()), f)
    {
      hide Inv;
      CloseInv(St(), f);
      var v := files[f].vnode;
      HasNode(St(), v);
      files := files - {f};
      ReleaseNode(v);
    }

    method ReadFile(f: nat, n: nat) returns (st: Status, data: seq<byte>)
      requires Inv(St()) && f in files
      modifies `files
      ensures Inv(St()) && files.Keys == old(files).Keys
      ensures files[f].vnode in nodes && nodes[files[f].vnode].size <= |nodes[files[f].vnode].buffer|
      ensures old(files)[f].vnode == files[f].vnode && (st, data) == ReadBytes(old(St()), f, n)
      ensures files == old(files)[f := old(files)[f].(offset := old(files)[f].offset + |data|)]
    {
      hide Inv, ParentOk;
      FilesOk(St(), f);
      var v := nodes[files[f].vnode];
      HasNode(St(), files[f].vnode);
      SizeOk(St(), files[f].vnode);
      data := [];
      var off := files[f].offset;
      assert files == files[f := files[f].(offset := off)];
      if !files[f].readable {
        return AccessDenied, data;
      }
      if v.kind != Regular {
        return InvalidParameter, data;
      }
      if off >= v.size {
        return EndOfFile, data;
      }
      var take := if n <= v.size - off then n else v.size - off;
      data := v.buffer[off..off + take];
      SubContents(v, off, off + take);
      SeekInv(St(), f, off + take);
      files := files[f := files[f].(offset := off + take)];
      st := Success;
    }

    /** Writes at the file's position, or at the end for an appending file; `block` is the larger buffer, if the heap grants one. */
    method WriteFile(f: nat, data: seq<byte>, block: Option<seq<byte>>) returns (st: Status)
      requires Inv(St()) && f in files && Granted(St(), f, data, block)
      modifies `nodes, `files
      ensures Inv(St()) && nodes.Keys == old(nodes).Keys
      ensures var x, n := old(files)[f], old(nodes)[old(files)[f].vnode];
        var off := Position(x, n);
        && (st == AccessDenied <==> !x.writable && !x.append)
        && (st == FileIsADirectory <==> (x.writable || x.append) && n.kind != Regular)
        && (st == NoMemory <==> (x.writable || x.append) && n.kind == Regular && off + |data| > |n.buffer| && block == None)
        && st in {Success, AccessDenied, FileIsADirectory, NoMemory}
        && (st != Success ==> St() == old(St()))
        && (st == Success ==> files == old(files)[f := x.(offset := off + |data|)])
      ensures (St(), st) == Write(old(St()), f, data, block)
    {
      hide Inv, NewCap, ParentOk;
      FilesOk(St(), f);
      var x, n := files[f], nodes[files[f].vnode];
      WriteInv(St(), f, data, block);
      if !x.writable && !x.append {
        return AccessDenied;
      }
      if n.kind != Regular {
        return FileIsADirectory;
      }
      var off := if x.append then n.size else x.offset;
      var room := n.buffer;
      if off + |data| > |n.buffer| {
        if block == None {
          return NoMemory;
        }
        GrantSuffices(St(), f, data, block);
        room := n.buffer[..n.size] + block.value[n.size..];
      }
      var m := n.(buffer := room[..off] + data + room[off + |data|..]);
      if off + |data| > m.size {
        m := m.(size := off + |data|);
      }
      nodes := nodes[x.vnode := m];
      files := files[f := x.(offset := off + |data|)];
      st := Success;
    }
  }

  lemma SubContents(n: Vnode, a: nat, b: nat)
    requires a <= b <= n.size <= |n.buffer|
    ensures Contents(n)[a..b] == n.buffer[a..b]
  {
  }

  lemma ChildKnown(s: Fs, dir: nat, name: string)
    ensures Child(s, dir, name).Some? ==> Child(s, dir, name).value in s.nodes
  {
  }

  lemma NextOf(ps: seq<string>, s: string, c: string, rest: string)
    requires Paths.AllProper(ps) && s == Paths.Join(ps) && s != "" && '/' !in c
    requires s == c + "/" + rest || (s == c && rest == "")
    ensures ps != [] && c == ps[0] && rest == Paths.Join(ps[1..])
  {
    Paths.PiecesOfJoin(ps);
    Paths.OnePiece(c);
    if s == c + "/" + rest {
      Paths.PiecesAppend(c, rest);
      assert Paths.Pieces(s)[0] == c && Paths.Pieces(s)[1..] == Paths.Pieces(rest);
    }
    if |ps| > 1 {
      assert s == ps[0] + "/" + Paths.Join(ps[1..]);
      assert s[|ps[0]| + 1..] == Paths.Join(ps[1..]);
    }
  }

  lemma JoinEmpty(ps: seq<string>)
    requires Paths.AllProper(ps) && Paths.Join(ps) == ""
    ensures ps == []
  {
    if ps != [] {
      Paths.JoinEnd(ps);
    }
  }
}
