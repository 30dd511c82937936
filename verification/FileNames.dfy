/**
 What names mean after a call: which paths lead where once a directory was made, a file opened or a name taken away, and
 what is read back from a file that was written.
 */
module FileNames {
  import opened Common
  import opened Vnodes
  import opened FileSystem
  import opened FileRuns

  /* ---- lookups ---- */

  /** Names differ in a directory, so an entry is found exactly if it is there. */
  lemma ChildIs(s: Fs, dir: nat, name: string, c: nat)
    requires Inv(s) && dir in s.nodes
    ensures Child(s, dir, name) == Some(c) <==> c in s.nodes[dir].children && c in s.nodes && s.nodes[c].name == name
  {
    hide Inv;
    HasNode(s, dir);
  }

  lemma ChildAbsent(s: Fs, dir: nat, name: string)
    ensures dir !in s.nodes ==> Child(s, dir, name) == None
  {
  }

  /** Two lookups agree when the same vnode answers both. */
  lemma SameChild(s: Fs, r: Fs, dir: nat, name: string)
    requires Inv(s) && Inv(r) && dir in s.nodes && dir in r.nodes
    requires forall c :: (c in s.nodes[dir].children && c in s.nodes && s.nodes[c].name == name) <==>
                         (c in r.nodes[dir].children && c in r.nodes && r.nodes[c].name == name)
    ensures Child(s, dir, name) == Child(r, dir, name)
  {
    hide Inv, Child;
    var a, b := Child(s, dir, name), Child(r, dir, name);
    if a.Some? {
      ChildIs(s, dir, name, a.value);
      ChildIs(r, dir, name, a.value);
    }
    if b.Some? {
      ChildIs(s, dir, name, b.value);
      ChildIs(r, dir, name, b.value);
    }
  }

  /** The walk along a path asks directory p for the given name. */
  predicate Asks(s: Fs, dir: nat, comps: seq<string>, p: nat, name: string)
    requires comps != []
    decreases |comps|
  {
    var next := Child(s, dir, comps[0]);
    || (dir == p && comps[0] == name)
    || (|comps| > 1 && next.Some? && s.nodes[next.value].kind == Directory && Asks(s, next.value, comps[1..], p, name))
  }

  predicate PathAsks(s: Fs, comps: seq<string>, p: nat, name: string) {
    comps != [] && Asks(s, s.root, comps, p, name)
  }

  /** Only what one directory answers for one name is different. */
  ghost predicate OneName(s: Fs, r: Fs, p: nat, name: string) {
    && r.root == s.root
    && (forall dir: nat, n: string :: dir in s.nodes && !(dir == p && n == name) ==> Child(r, dir, n) == Child(s, dir, n))
    && (forall v :: v in s.nodes && v in r.nodes ==> r.nodes[v].kind == s.nodes[v].kind)
  }

  /** Then every path that does not ask for that name walks as before. */
  lemma {:induction false} WalkSame(s: Fs, r: Fs, dir: nat, comps: seq<string>, p: nat, name: string)
    requires Inv(s) && OneName(s, r, p, name) && dir in s.nodes && comps != [] && !Asks(s, dir, comps, p, name)
    ensures Walk(r, dir, comps) == Walk(s, dir, comps)
    decreases |comps|
  {
    hide Inv, Child;
    var next := Child(s, dir, comps[0]);
    assert Child(r, dir, comps[0]) == next;
    if |comps| > 1 && next.Some? {
      ChildKnown(s, dir, comps[0]);
      ChildKnown(r, dir, comps[0]);
      if s.nodes[next.value].kind == Directory {
        WalkSame(s, r, next.value, comps[1..], p, name);
      }
    }
  }

  lemma PathsSame(s: Fs, r: Fs, p: nat, name: string)
    requires Inv(s) && OneName(s, r, p, name)
    ensures forall comps :: !PathAsks(s, comps, p, name) ==> WalkPath(r, comps) == WalkPath(s, comps)
  {
    hide Inv, Walk, Asks, OneName;
    RootOk(s);
    SameRoot(s, r, p, name);
    forall comps: seq<string> | !PathAsks(s, comps, p, name) ensures WalkPath(r, comps) == WalkPath(s, comps) {
      if comps != [] {
        WalkSame(s, r, s.root, comps, p, name);
      }
    }
  }

  lemma SameRoot(s: Fs, r: Fs, p: nat, name: string)
    requires OneName(s, r, p, name)
    ensures r.root == s.root
  {
  }

  /**
   A walk that finds its directory p without asking p for the last name on the way finds it again: the last step is then
   decided by what p answers.
   */
  lemma {:induction false} WalkAgain(s: Fs, r: Fs, dir: nat, comps: seq<string>, p: nat, name: string)
    requires Inv(s) && OneName(s, r, p, name) && dir in s.nodes && comps != []
    requires Walk(s, dir, comps).Reached? && Walk(s, dir, comps).parent == p && Walk(s, dir, comps).name == name
    requires Child(r, p, name) == None || Child(s, p, name) == None
    requires Child(s, p, name).Some? ==> s.nodes[Child(s, p, name).value].children == []
    ensures Walk(r, dir, comps) == Reached(p, Child(r, p, name), name)
    decreases |comps|
  {
    hide Inv, Child;
    var next := Child(s, dir, comps[0]);
    if |comps| > 1 {
      ChildKnown(s, dir, comps[0]);
      ChildKnown(r, dir, comps[0]);
      if dir == p && comps[0] == name {
        EmptyDirectory(s, next.value, comps[1..]);
      } else {
        assert Child(r, dir, comps[0]) == next;
        WalkAgain(s, r, next.value, comps[1..], p, name);
      }
    }
  }

  /** A walk into a directory without entries ends there. */
  lemma EmptyDirectory(s: Fs, v: nat, comps: seq<string>)
    requires comps != [] && v in s.nodes && s.nodes[v].children == []
    ensures Walk(s, v, comps) == if |comps| == 1 then Reached(v, None, comps[0]) else Nowhere
  {
  }

  /* ---- taking a name away ---- */

  /** What an unlink does to the tree. */
  lemma DetachedTree(s: Fs, p: nat, v: nat)
    requires Inv(s) && p in s.nodes && v in s.nodes && s.nodes[v].parent == Some(p) && s.nodes[v].children == []
    ensures p != v && Inv(Detach(s, p, v))
    ensures OneName(s, Detach(s, p, v), p, s.nodes[v].name) && Child(Detach(s, p, v), p, s.nodes[v].name) == None
  {
    hide Inv, Child, Unlisted, Detach;
    DetachInv(s, p, v);
    var r, name := Detach(s, p, v), s.nodes[v].name;
    DetachedNodes(s, p, v);
    forall dir: nat, n: string | dir in s.nodes && !(dir == p && n == name) ensures Child(r, dir, n) == Child(s, dir, n) {
      if dir in r.nodes {
        forall c ensures (c in s.nodes[dir].children && c in s.nodes && s.nodes[c].name == n) <==>
                         (c in r.nodes[dir].children && c in r.nodes && r.nodes[c].name == n) {
          DetachedEntry(s, p, v, dir, c);
        }
        SameChild(s, r, dir, n);
      } else {
        ChildAbsent(r, dir, n);
        NoChild(s, dir, n);
      }
    }
    var c := Child(r, p, name);
    if c.Some? {
      ChildIs(r, p, name, c.value);
      DetachedEntry(s, p, v, p, c.value);
      OnlyName(s, p, v, c.value);
    }
  }

  lemma NoChild(s: Fs, dir: nat, n: string)
    requires dir in s.nodes && s.nodes[dir].children == []
    ensures Child(s, dir, n) == None
  {
  }

  lemma OnlyName(s: Fs, p: nat, v: nat, c: nat)
    requires Inv(s) && p in s.nodes && v in s.nodes && s.nodes[v].parent == Some(p) && c in s.nodes[p].children
    ensures c in s.nodes && (c != v ==> s.nodes[c].name != s.nodes[v].name)
  {
    hide Inv;
    HasNode(s, p);
    HasNode(s, v);
  }

  lemma DetachedNodes(s: Fs, p: nat, v: nat)
    requires p in s.nodes && v in s.nodes && p != v && s.nodes[v].children == []
    ensures var r := Detach(s, p, v);
      && r.root == s.root && r.files == s.files
      && (forall u :: u in r.nodes ==> u in s.nodes) && (forall u :: u in s.nodes && u != v ==> u in r.nodes)
      && (forall u :: u in r.nodes ==> r.nodes[u].kind == s.nodes[u].kind && r.nodes[u].name == s.nodes[u].name)
  {
    hide Unlisted;
  }

  /** The entries of every directory after v lost its name in p. */
  lemma DetachedEntry(s: Fs, p: nat, v: nat, dir: nat, c: nat)
    requires Inv(s) && p in s.nodes && v in s.nodes && p != v && s.nodes[v].parent == Some(p) && s.nodes[v].children == []
    requires var r := Detach(s, p, v); dir in s.nodes && dir in r.nodes
    ensures var r := Detach(s, p, v);
      c in r.nodes[dir].children <==> c in s.nodes[dir].children && !(dir == p && c == v)
    ensures var r := Detach(s, p, v);
      c in s.nodes[dir].children && dir != p ==> c != v
  {
    hide Inv, Unlisted;
    HasNode(s, p);
    HasNode(s, dir);
    UnlistedMember(s.nodes[p].children, v, c);
  }

  /** Whether a file is open on a vnode decides whether it stays when its name goes. */
  lemma DetachedFate(s: Fs, p: nat, v: nat)
    requires Inv(s) && p in s.nodes && v in s.nodes && s.nodes[v].parent == Some(p) && s.nodes[v].children == []
    ensures p != v
    ensures var r := Detach(s, p, v);
      (v in r.nodes <==> Opens(s, v) != {}) && r.frees == if Opens(s, v) == {} then s.frees + [v] else s.frees
  {
    hide Inv, Unlisted, Opens;
    HasNode(s, v);
    NotOwnParent(s, p, v);
  }

  /** A path can be unlinked: its entry is there, is no device, and has no entries of its own. */
  predicate Unlinkable(s: Fs, comps: seq<string>) {
    && comps != [] && WalkPath(s, comps).Reached? && WalkPath(s, comps).leaf.Some?
    && WalkPath(s, comps).leaf.value in s.nodes
    && var n := s.nodes[WalkPath(s, comps).leaf.value];
    && n.kind in {Regular, Directory} && n.children == []
  }

  /**
   An unlink succeeds exactly for such a path. Afterwards the path leads to the same directory, which has no entry of that
   name any more; every path that does not ask for the name leads where it led; the vnode is in memory exactly if a file is
   open on it, and was given back otherwise; no open file is touched. A refused unlink changes nothing.
   */
  lemma UnlinkExactly(s: Fs, comps: seq<string>)
    requires Inv(s)
    ensures var (r, st) := Unlink(s, comps);
      && (st == Success <==> Unlinkable(s, comps))
      && (st != Success ==> r == s)
      && (st == Success ==>
        var w := WalkPath(s, comps);
        && WalkPath(r, comps) == Reached(w.parent, None, w.name)
        && (forall path :: !PathAsks(s, path, w.parent, w.name) ==> WalkPath(r, path) == WalkPath(s, path))
        && (w.leaf.value in r.nodes <==> Opens(s, w.leaf.value) != {})
        && (w.leaf.value !in r.nodes ==> w.leaf.value in r.frees && w.leaf.value !in s.frees)
        && r.files == s.files)
  {
    hide Inv, Detach, Walk, PathAsks, OneName;
    RootOk(s);
    if comps != [] {
      WalkStays(s, s.root, comps);
      var w := WalkPath(s, comps);
      if w.Reached? && w.leaf.Some? {
        var v := w.leaf.value;
        ChildNamed(s, w.parent, w.name);
        NotItself(s, w.parent, v);
        HasNode(s, v);
        if s.nodes[v].children != [] {
          DirectoryOnly(s, v);
        } else {
          DetachedTree(s, w.parent, v);
          var r := Detach(s, w.parent, v);
          WalkAgain(s, r, s.root, comps, w.parent, w.name);
          SameRoot(s, r, w.parent, w.name);
          PathsSame(s, r, w.parent, w.name);
          DetachedFate(s, w.parent, v);
          DetachedNodes(s, w.parent, v);
          FreedGone(s, v);
        }
      }
    }
  }

  /* ---- making a name ---- */

  lemma AttachedTree(s: Fs, p: nat, name: string, kind: NodeKind)
    requires Inv(s) && p in s.nodes && s.nodes[p].kind == Directory && Named(s, p) && name != "" && Child(s, p, name) == None
    ensures var r := Attach(s, p, name, kind);
      && Inv(r) && OneName(s, r, p, name) && Child(r, p, name) == Some(s.nextNode)
      && s.nextNode in r.nodes && s.nextNode !in s.nodes
  {
    hide Inv, Child;
    Fresh(s);
    AttachInv(s, p, name, kind) by {
      NoEntry(s, p, name);
    }
    var r := Attach(s, p, name, kind);
    forall dir: nat, n: string | dir in s.nodes && !(dir == p && n == name) ensures Child(r, dir, n) == Child(s, dir, n) {
      NotAnEntry(s, dir);
      SameChild(s, r, dir, n);
    }
    ChildIs(r, p, name, s.nextNode);
  }

  lemma NoEntry(s: Fs, p: nat, name: string)
    requires p in s.nodes && Child(s, p, name) == None
    ensures forall c :: c in s.nodes[p].children && c in s.nodes ==> s.nodes[c].name != name
  {
  }

  lemma NotAnEntry(s: Fs, dir: nat)
    requires Inv(s) && dir in s.nodes
    ensures s.nextNode !in s.nodes[dir].children
  {
    hide Inv;
    Fresh(s);
    HasNode(s, dir);
  }

  /** A new vnode that nothing has been written to. */
  predicate Blank(s: Fs, v: nat, kind: NodeKind) {
    v in s.nodes && s.nodes[v].kind == kind && s.nodes[v].size == 0 && s.nodes[v].children == []
  }

  /**
   A directory is made exactly if the walk finds its parent, there is no entry of that name, and there is memory. Afterwards
   the path leads to a new empty directory; every path that does not ask for the name leads where it led.
   */
  lemma MkdirExactly(s: Fs, comps: seq<string>, granted: bool)
    requires Inv(s)
    ensures var (r, st) := Mkdir(s, comps, granted);
      var w := WalkPath(s, comps);
      && (st == PathNotFound <==> w == Nowhere)
      && (st == NameCollision <==> w.Reached? && w.leaf.Some?)
      && (st == InvalidParameter <==> w.Reached? && w.leaf == None && w.name == "")
      && (st == NoMemory <==> w.Reached? && w.leaf == None && w.name != "" && !granted)
      && st in {Success, PathNotFound, NameCollision, InvalidParameter, NoMemory}
      && (st != Success ==> r == s)
      && (st == Success ==>
        && WalkPath(r, comps) == Reached(w.parent, Some(s.nextNode), w.name) && Blank(r, s.nextNode, Directory)
        && (forall path :: !PathAsks(s, path, w.parent, w.name) ==> WalkPath(r, path) == WalkPath(s, path))
        && r.files == s.files)
  {
    hide Inv, Walk, PathAsks, OneName;
    RootOk(s);
    if comps != [] {
      WalkStays(s, s.root, comps);
      var w := WalkPath(s, comps);
      if w.Reached? && w.leaf == None && w.name != "" {
        AttachedTree(s, w.parent, w.name, Directory);
        var r := Attach(s, w.parent, w.name, Directory);
        WalkAgain(s, r, s.root, comps, w.parent, w.name);
        PathsSame(s, r, w.parent, w.name);
        NewNodeBlank(s, w.parent, w.name, Directory);
      }
    }
  }

  lemma NewNodeBlank(s: Fs, p: nat, name: string, kind: NodeKind)
    requires p in s.nodes && s.nextNode !in s.nodes
    ensures Blank(Attach(s, p, name, kind), s.nextNode, kind)
  {
  }

  /** A new file object on a vnode, at the start, with the rights asked for. */
  ghost predicate Opened(s: Fs, r: Fs, v: nat, q: Request) {
    && r.files == s.files[s.nextFile := File(v, 0, q.readable, q.writable, q.append)] && s.nextFile !in s.files
    && v in r.nodes
  }

  lemma PinnedOpens(s: Fs, v: nat, q: Request, granted: bool)
    requires Inv(s)
    ensures var (r, st) := Pinned(s, v, q, granted);
      && st in {Success, NoMemory} && (st == Success <==> granted && v in s.nodes)
      && (st != Success ==> r == s) && (st == Success ==> Opened(s, r, v, q))
      && r.root == s.root && r.nodes.Keys == s.nodes.Keys
      && (forall u :: u in s.nodes ==> PlaceOf(r.nodes[u]) == PlaceOf(s.nodes[u]))
      && SameBytes(s, r)
  {
    hide Inv;
    FilesOk(s, s.nextFile);
  }

  /** The same tree answers the same. */
  lemma {:induction false} SamePlacesWalk(s: Fs, r: Fs, dir: nat, comps: seq<string>)
    requires comps != [] && r.nodes.Keys == s.nodes.Keys && forall u :: u in s.nodes ==> PlaceOf(r.nodes[u]) == PlaceOf(s.nodes[u])
    ensures Walk(r, dir, comps) == Walk(s, dir, comps)
    decreases |comps|
  {
    hide Child;
    SamePlacesChild(s, r, dir, comps[0]);
    var next := Child(s, dir, comps[0]);
    if |comps| > 1 && next.Some? {
      ChildKnown(s, dir, comps[0]);
      assert PlaceOf(r.nodes[next.value]) == PlaceOf(s.nodes[next.value]);
      if s.nodes[next.value].kind == Directory {
        SamePlacesWalk(s, r, next.value, comps[1..]);
      }
    }
  }

  lemma SamePlacesChild(s: Fs, r: Fs, dir: nat, name: string)
    requires r.nodes.Keys == s.nodes.Keys && forall u :: u in s.nodes ==> PlaceOf(r.nodes[u]) == PlaceOf(s.nodes[u])
    ensures Child(r, dir, name) == Child(s, dir, name)
  {
    if dir in s.nodes {
      assert PlaceOf(r.nodes[dir]) == PlaceOf(s.nodes[dir]);
      SamePlacesEntry(s, r, s.nodes[dir].children, name);
    }
  }

  lemma {:induction false} SamePlacesEntry(s: Fs, r: Fs, l: seq<nat>, name: string)
    requires r.nodes.Keys == s.nodes.Keys && forall u :: u in s.nodes ==> PlaceOf(r.nodes[u]) == PlaceOf(s.nodes[u])
    ensures Entry(r, l, name) == Entry(s, l, name)
  {
    if l != [] {
      assert l[0] in s.nodes ==> PlaceOf(r.nodes[l[0]]) == PlaceOf(s.nodes[l[0]]);
      SamePlacesEntry(s, r, l[1..], name);
    }
  }

  lemma SamePlacesPath(s: Fs, r: Fs, comps: seq<string>)
    requires r.root == s.root && r.nodes.Keys == s.nodes.Keys && forall u :: u in s.nodes ==> PlaceOf(r.nodes[u]) == PlaceOf(s.nodes[u])
    ensures WalkPath(r, comps) == WalkPath(s, comps)
  {
    hide Walk;
    if comps != [] {
      SamePlacesWalk(s, r, s.root, comps);
    }
  }

  /** The entry is of the kind that was asked for. */
  predicate KindFits(kind: NodeKind, q: Request) {
    !(kind == Directory && q.wantFile) && !(kind != Directory && q.wantDirectory)
  }

  /**
   An open that finds an entry succeeds exactly if the entry is of the kind asked for, need not be new, and there is memory.
   It opens that entry and changes no name and no byte.
   */
  lemma OpenFindsEntry(s: Fs, comps: seq<string>, q: Request, nodeGranted: bool, fileGranted: bool)
    requires Inv(s) && WalkPath(s, comps).Reached? && WalkPath(s, comps).leaf.Some?
    ensures WalkPath(s, comps).leaf.value in s.nodes
    ensures var (r, st) := Open(s, comps, q, nodeGranted, fileGranted);
      var v := WalkPath(s, comps).leaf.value;
      && (st == FileIsADirectory <==> s.nodes[v].kind == Directory && q.wantFile)
      && (st == NotADirectory <==> s.nodes[v].kind != Directory && q.wantDirectory)
      && (st == NameCollision <==> KindFits(s.nodes[v].kind, q) && q.disp == CreateNew)
      && (st == Success <==> KindFits(s.nodes[v].kind, q) && q.disp != CreateNew && fileGranted)
      && (st != Success ==> r == s)
      && (st == Success ==>
        Opened(s, r, v, q) && SameBytes(s, r) && forall path :: WalkPath(r, path) == WalkPath(s, path))
  {
    hide Inv, WalkPath, Pinned, Linked;
    WalkAgrees(s, comps);
    var v := WalkPath(s, comps).leaf.value;
    PinnedOpens(s, v, q, fileGranted);
    var r := Pinned(s, v, q, fileGranted).0;
    forall path ensures WalkPath(r, path) == WalkPath(s, path) {
      SamePlacesPath(s, r, path);
    }
  }

  /**
   An open that finds a directory without such an entry succeeds exactly if it may create, the name is not empty, and there
   is memory. The path then leads to a new empty vnode of the kind asked for, on which the new file is open; every path that
   does not ask for the name leads where it led. When there is no memory for the file object the new name stays.
   */
  lemma OpenMakesEntry(s: Fs, comps: seq<string>, q: Request, nodeGranted: bool, fileGranted: bool)
    requires Inv(s) && WalkPath(s, comps).Reached? && WalkPath(s, comps).leaf == None
    ensures var (r, st) := Open(s, comps, q, nodeGranted, fileGranted);
      var w, kind := WalkPath(s, comps), if q.wantDirectory then Directory else Regular;
      && (st == NoSuchFile <==> q.disp == OpenExisting)
      && (st == InvalidParameter <==> q.disp != OpenExisting && w.name == "")
      && (st == Success <==> q.disp != OpenExisting && w.name != "" && nodeGranted && fileGranted)
      && st in {Success, NoSuchFile, InvalidParameter, NoMemory}
      && (st == NoMemory && !nodeGranted ==> r == s) && (st in {NoSuchFile, InvalidParameter} ==> r == s)
      && (st == Success || (st == NoMemory && nodeGranted) ==>
        && WalkPath(r, comps) == Reached(w.parent, Some(s.nextNode), w.name) && Blank(r, s.nextNode, kind)
        && forall path :: !PathAsks(s, path, w.parent, w.name) ==> WalkPath(r, path) == WalkPath(s, path))
      && (st == Success ==> Opened(s, r, s.nextNode, q)) && (st != Success ==> r.files == s.files)
  {
    hide Inv, Walk, PathAsks, OneName, Pinned, Child, Attach, Opened;
    RootOk(s);
    WalkStays(s, s.root, comps);
    WalkAgrees(s, comps);
    var w, kind := WalkPath(s, comps), if q.wantDirectory then Directory else Regular;
    if w.name != "" {
      AttachedTree(s, w.parent, w.name, kind);
      var m := Attach(s, w.parent, w.name, kind);
      WalkAgain(s, m, s.root, comps, w.parent, w.name);
      PathsSame(s, m, w.parent, w.name);
      SameRoot(s, m, w.parent, w.name);
      NewNodeBlank(s, w.parent, w.name, kind);
      AttachKeepsFiles(s, w.parent, w.name, kind);
      PinnedOpens(m, s.nextNode, q, fileGranted);
      var r := Pinned(m, s.nextNode, q, fileGranted).0;
      OpenedLater(s, m, r, s.nextNode, q);
      forall path ensures WalkPath(r, path) == WalkPath(m, path) {
        SamePlacesPath(m, r, path);
      }
      StillBlank(m, r, s.nextNode, kind);
    }
  }

  /**
   When the path leads nowhere an open of an existing file says so. One that may create goes on with what its variables
   held: it opens the entry they name, but no vnode whose name is gone.
   */
  lemma OpenAstray(s: Fs, comps: seq<string>, q: Request, u: Unset, nodeGranted: bool, fileGranted: bool)
    requires Inv(s) && WalkPath(s, comps) == Nowhere && Plausible(s, u)
    ensures var (r, st) := OpenWith(s, comps, q, u, nodeGranted, fileGranted);
      && (q.disp == OpenExisting ==> st == PathNotFound && r == s)
      && (q.disp != OpenExisting && u.leaf.Some? && u.leaf.value != s.root && s.nodes[u.leaf.value].parent == None ==> st != Success && r == s)
      && (q.disp != OpenExisting && u.leaf == None && u.name != "" && Child(s, u.parent, u.name).Some? && nodeGranted && fileGranted ==>
        st == Success && Opened(s, r, Child(s, u.parent, u.name).value, q))
  {
    hide Inv, WalkPath, Pinned, Child;
    if u.leaf == None && Child(s, u.parent, u.name).Some? {
      var v := Child(s, u.parent, u.name).value;
      ChildKnown(s, u.parent, u.name);
      PinnedOpens(s, v, q, fileGranted);
    }
  }

  lemma AttachKeepsFiles(s: Fs, p: nat, name: string, kind: NodeKind)
    requires p in s.nodes
    ensures var r := Attach(s, p, name, kind); r.files == s.files && r.nextFile == s.nextFile
  {
  }

  lemma OpenedLater(s: Fs, m: Fs, r: Fs, v: nat, q: Request)
    requires m.files == s.files && m.nextFile == s.nextFile
    ensures Opened(m, r, v, q) ==> Opened(s, r, v, q)
  {
  }

  lemma StillBlank(m: Fs, r: Fs, v: nat, kind: NodeKind)
    requires Blank(m, v, kind) && v in r.nodes && PlaceOf(r.nodes[v]) == PlaceOf(m.nodes[v]) && SameBytes(m, r)
    ensures Blank(r, v, kind)
  {
    assert SameBytesAt(m, r, v);
  }

  /* ---- reading back what was written ---- */

  /** Bytes that were written are read back from where they went. */
  lemma WrittenIsRead(s: Fs, f: nat, data: seq<byte>, block: Option<seq<byte>>)
    requires Usable(s, f) && Granted(s, f, data, block) && Write(s, f, data, block).1 == Success && s.files[f].readable && data != []
    ensures var off := Position(s.files[f], s.nodes[s.files[f].vnode]);
      var r := Write(s, f, data, block).0;
      f in r.files && Usable(Moved(r, f, off), f) && ReadBytes(Moved(r, f, off), f, |data|) == (Success, data)
  {
    hide WriteNode, NewCap;
    var x, n := s.files[f], s.nodes[s.files[f].vnode];
    var off := Position(x, n);
    GrantSuffices(s, f, data, block);
    WrittenBytes(n, off, data, if block.Some? then block.value else []);
    var m := WriteNode(n, off, data, if block.Some? then block.value else []);
    assert Contents(m)[off..off + |data|] == m.buffer[off..off + |data|];
  }

  /** An appending file adds its bytes at the end wherever its position was; any other puts them at its position. */
  lemma WriteStarts(s: Fs, f: nat, data: seq<byte>, block: Option<seq<byte>>)
    requires Usable(s, f) && Granted(s, f, data, block) && Write(s, f, data, block).1 == Success
    ensures var x, n := s.files[f], s.nodes[s.files[f].vnode];
      var r := Write(s, f, data, block).0;
      && x.vnode in r.nodes && f in r.files
      && var m := r.nodes[x.vnode];
      && m.size <= |m.buffer|
      && (x.append ==> Contents(m) == Contents(n) + data && r.files[f].offset == m.size)
      && (!x.append ==> r.files[f].offset == x.offset + |data| <= m.size && Contents(m)[x.offset..x.offset + |data|] == data)
      && (!x.append ==> m.size == if x.offset + |data| > n.size then x.offset + |data| else n.size)
  {
    hide WriteNode, NewCap;
    var x, n := s.files[f], s.nodes[s.files[f].vnode];
    GrantSuffices(s, f, data, block);
    var spare := if block.Some? then block.value else [];
    var off := Position(x, n);
    WrittenBytes(n, off, data, spare);
    WriteSize(n, off, data, spare);
    var m := WriteNode(n, off, data, spare);
    assert Contents(m)[off..off + |data|] == m.buffer[off..off + |data|];
    if x.append {
      WriteAtEnd(n, data, spare);
    }
  }

  lemma WriteSize(n: Vnode, off: nat, data: seq<byte>, block: seq<byte>)
    requires n.size <= |n.buffer| && (off + |data| > |n.buffer| ==> |block| >= off + |data|)
    ensures WriteNode(n, off, data, block).size == if off + |data| > n.size then off + |data| else n.size
  {
  }

  lemma WriteAtEnd(n: Vnode, data: seq<byte>, block: seq<byte>)
    requires n.size <= |n.buffer| && (n.size + |data| > |n.buffer| ==> |block| >= n.size + |data|)
    ensures Contents(WriteNode(n, n.size, data, block)) == Contents(n) + data
  {
    var room := Room(n, n.size + |data|, block);
    assert room[..n.size] == Contents(n);
  }

  lemma WrittenBytes(n: Vnode, off: nat, data: seq<byte>, block: seq<byte>)
    requires n.size <= |n.buffer| && (off + |data| > |n.buffer| ==> |block| >= off + |data|)
    ensures var m := WriteNode(n, off, data, block);
      off + |data| <= m.size <= |m.buffer| && m.buffer[off..off + |data|] == data && m.kind == n.kind
  {
  }

  /** Bytes elsewhere in the file are read as before, whoever wrote. */
  lemma OthersUnwritten(s: Fs, f: nat, data: seq<byte>, block: Option<seq<byte>>, i: nat)
    requires Usable(s, f) && Granted(s, f, data, block) && Write(s, f, data, block).1 == Success
    requires i < s.nodes[s.files[f].vnode].size
    requires var off := Position(s.files[f], s.nodes[s.files[f].vnode]); i < off || off + |data| <= i
    ensures var v := s.files[f].vnode;
      var r := Write(s, f, data, block).0;
      v in r.nodes && i < r.nodes[v].size <= |r.nodes[v].buffer| && Contents(r.nodes[v])[i] == Contents(s.nodes[v])[i]
  {
    var x, n := s.files[f], s.nodes[s.files[f].vnode];
    GrantSuffices(s, f, data, block);
    var room := Room(n, Position(x, n) + |data|, if block.Some? then block.value else []);
    assert room[i] == room[..n.size][i] == Contents(n)[i];
  }

  /**
   A read is refused exactly without read access, for what is not a regular file, and at the end of the file; otherwise it
   delivers the bytes from the position on, as many as were asked for or are left.
   */
  lemma ReadExactly(s: Fs, f: nat, n: nat)
    requires Usable(s, f)
    ensures var (st, data) := ReadBytes(s, f, n);
      var x, v := s.files[f], s.nodes[s.files[f].vnode];
      && (st == AccessDenied <==> !x.readable)
      && (st == InvalidParameter <==> x.readable && v.kind != Regular)
      && (st == EndOfFile <==> x.readable && v.kind == Regular && x.offset >= v.size)
      && st in {Success, AccessDenied, InvalidParameter, EndOfFile} && (st != Success ==> data == [])
      && (st == Success ==> |data| == if x.offset + n <= v.size then n else v.size - x.offset)
      && forall i :: 0 <= i < |data| ==> x.offset + i < v.size && data[i] == v.buffer[x.offset + i]
  {
  }
}
