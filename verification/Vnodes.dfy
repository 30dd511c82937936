/**
 The in-memory file system as a value: the tree of names, open files, and the reference counts that keep a
 vnode alive for both.
 */
module Vnodes {
  import opened Common

  datatype NodeKind = Regular | Directory | CharDevice | BlockDevice

  /** `buffer` is the allocation, of which the first `size` bytes are the file. */
  datatype Vnode = Vnode(name: string, kind: NodeKind, parent: Option<nat>, children: seq<nat>, buffer: seq<byte>, size: nat, ref: nat)

  datatype File = File(vnode: nat, offset: nat, readable: bool, writable: bool, append: bool)

  /** `frees` lists the vnodes that were given back, in order. */
  datatype Fs = Fs(nodes: map<nat, Vnode>, files: map<nat, File>, root: nat, nextNode: nat, nextFile: nat, frees: seq<nat>)

  /** The open files of a vnode. */
  ghost function Opens(s: Fs, v: nat): set<nat> {
    set f | f in s.files && s.files[f].vnode == v
  }

  /** A vnode has a name while it is attached to a directory; the root always has one. */
  predicate Named(s: Fs, v: nat)
    requires v in s.nodes
  {
    v == s.root || s.nodes[v].parent.Some?
  }

  /** One reference for the name, one for each open file. */
  ghost predicate RefOk(s: Fs, v: nat)
    requires v in s.nodes
  {
    s.nodes[v].ref == (if Named(s, v) then 1 else 0) + |Opens(s, v)| && s.nodes[v].ref > 0
  }

  /** A vnode is younger than its directory, so the tree has no cycles; only named directories have entries. */
  ghost predicate ParentOk(s: Fs, v: nat)
    requires v in s.nodes
  {
    var n := s.nodes[v];
    && (n.parent.Some? ==>
        v != s.root && n.name != "" && n.parent.value < v && n.parent.value in s.nodes && v in s.nodes[n.parent.value].children)
    && (n.children != [] ==> n.kind == Directory && Named(s, v))
    && v < s.nextNode && n.size <= |n.buffer|
  }

  /** The entries of a directory: known vnodes, each once, with names that differ. */
  ghost predicate ChildrenOk(s: Fs, v: nat)
    requires v in s.nodes
  {
    var l := s.nodes[v].children;
    && NoDup(l)
    && (forall c :: c in l ==> c in s.nodes && s.nodes[c].parent == Some(v))
    && (forall c, d :: c in l && d in l && c != d && c in s.nodes && d in s.nodes ==> s.nodes[c].name != s.nodes[d].name)
  }

  /** Every vnode ever made is still there or was given back, once. */
  ghost predicate Accounted(s: Fs) {
    && NoDup(s.frees)
    && (forall v :: v in s.frees ==> v !in s.nodes && v < s.nextNode)
    && (forall v: nat :: v < s.nextNode ==> v in s.nodes || v in s.frees)
  }

  ghost predicate Inv(s: Fs) {
    && s.root in s.nodes && s.nodes[s.root].kind == Directory && s.nodes[s.root].parent == None
    && (forall v :: v in s.nodes ==> RefOk(s, v) && ParentOk(s, v) && ChildrenOk(s, v))
    && (forall f :: f in s.files ==> s.files[f].vnode in s.nodes && f < s.nextFile)
    && Accounted(s)
  }

  /* ---- edits ---- */

  function PutNode(s: Fs, v: nat, n: Vnode): Fs { s.(nodes := s.nodes[v := n]) }

  /** `vn_release`: the vnode goes with its last reference. */
  function Release(s: Fs, v: nat): Fs
    requires v in s.nodes
  {
    var n := s.nodes[v];
    if n.ref == 1 then s.(nodes := s.nodes - {v}, frees := s.frees + [v])
    else PutNode(s, v, n.(ref := if n.ref > 0 then n.ref - 1 else 0))
  }

  function NewNode(name: string, kind: NodeKind, parent: nat, ref: nat): Vnode {
    Vnode(name, kind, Some(parent), [], [], 0, ref)
  }

  /** A new vnode under a directory. */
  function Attach(s: Fs, p: nat, name: string, kind: NodeKind): Fs
    requires p in s.nodes
  {
    var v := s.nextNode;
    var d := s.nodes[p];
    s.(nodes := s.nodes[p := d.(children := d.children + [v])][v := NewNode(name, kind, p, 1)], nextNode := v + 1)
  }

  /** A file object on a vnode, with the reference it holds. */
  function OpenOn(s: Fs, v: nat, f: File): Fs
    requires v in s.nodes
  {
    PutNode(s, v, s.nodes[v].(ref := s.nodes[v].ref + 1)).(files := s.files[s.nextFile := f], nextFile := s.nextFile + 1)
  }

  /** The name goes, and with it the reference it held. */
  function Detach(s: Fs, p: nat, v: nat): Fs
    requires p in s.nodes && v in s.nodes && p != v
  {
    var d := s.nodes[p];
    Release(s.(nodes := s.nodes[p := d.(children := Unlisted(d.children, v))][v := s.nodes[v].(parent := None)]), v)
  }

  function CloseOn(s: Fs, f: nat): Fs
    requires f in s.files && s.files[f].vnode in s.nodes
  {
    Release(s.(files := s.files - {f}), s.files[f].vnode)
  }

  /* ---- what the edits keep ---- */

  lemma HasNode(s: Fs, v: nat)
    requires Inv(s) && v in s.nodes
    ensures RefOk(s, v) && ParentOk(s, v) && ChildrenOk(s, v)
  {
  }

  /** The part of a vnode that makes up the tree. */
  datatype Place = Place(name: string, kind: NodeKind, parent: Option<nat>, children: seq<nat>)

  function PlaceOf(n: Vnode): Place { Place(n.name, n.kind, n.parent, n.children) }

  ghost predicate SameTree(s: Fs, r: Fs) {
    && r.nodes.Keys == s.nodes.Keys && r.root == s.root && r.nextNode == s.nextNode && r.frees == s.frees
    && forall u :: u in s.nodes ==> PlaceOf(r.nodes[u]) == PlaceOf(s.nodes[u])
  }

  lemma TreeKept(s: Fs, r: Fs, u: nat)
    requires SameTree(s, r) && u in s.nodes && ParentOk(s, u) && ChildrenOk(s, u) && r.nodes[u].size <= |r.nodes[u].buffer|
    ensures ParentOk(r, u) && ChildrenOk(r, u)
  {
    hide NoDup;
    assert PlaceOf(r.nodes[u]) == PlaceOf(s.nodes[u]);
    if s.nodes[u].parent.Some? {
      var p := s.nodes[u].parent.value;
      assert PlaceOf(r.nodes[p]) == PlaceOf(s.nodes[p]);
    }
    forall c | c in s.nodes[u].children ensures r.nodes[c].parent == Some(u) && r.nodes[c].name == s.nodes[c].name {
      assert PlaceOf(r.nodes[c]) == PlaceOf(s.nodes[c]);
    }
  }

  /** When the tree stays, only the references are left to check. */
  lemma SameTreeInv(s: Fs, r: Fs)
    requires Inv(s) && SameTree(s, r)
    requires forall u :: u in r.nodes ==> RefOk(r, u) && r.nodes[u].size <= |r.nodes[u].buffer|
    requires forall f :: f in r.files ==> r.files[f].vnode in r.nodes && f < r.nextFile
    ensures Inv(r)
  {
    hide RefOk, ParentOk, ChildrenOk, NoDup;
    assert PlaceOf(r.nodes[s.root]) == PlaceOf(s.nodes[s.root]);
    forall u | u in r.nodes ensures ParentOk(r, u) && ChildrenOk(r, u) {
      HasNode(s, u);
      TreeKept(s, r, u);
    }
  }

  lemma OpensSame(s: Fs, r: Fs, v: nat)
    requires r.files == s.files
    ensures Opens(r, v) == Opens(s, v)
  {
  }

  lemma OpensMore(s: Fs, r: Fs, k: nat, f: File, v: nat)
    requires k !in s.files && r.files == s.files[k := f]
    ensures |Opens(r, v)| == |Opens(s, v)| + if f.vnode == v then 1 else 0
  {
    assert Opens(r, v) == if f.vnode == v then Opens(s, v) + {k} else Opens(s, v);
  }

  lemma OpensLess(s: Fs, r: Fs, k: nat, v: nat)
    requires k in s.files && r.files == s.files - {k}
    ensures |Opens(r, v)| == |Opens(s, v)| - if s.files[k].vnode == v then 1 else 0
  {
    assert Opens(r, v) == if s.files[k].vnode == v then Opens(s, v) - {k} else Opens(s, v);
    assert s.files[k].vnode == v ==> k in Opens(s, v);
  }

  lemma FilesOk(s: Fs, k: nat)
    requires Inv(s)
    ensures k in s.files ==> s.files[k].vnode in s.nodes && k < s.nextFile
  {
  }

  lemma OpenInv(s: Fs, v: nat, f: File)
    requires Inv(s) && v in s.nodes && f.vnode == v
    ensures Inv(OpenOn(s, v, f))
  {
    hide Inv, Opens, ParentOk, ChildrenOk;
    var r, k := OpenOn(s, v, f), s.nextFile;
    FilesOk(s, k);
    forall u | u in r.nodes ensures RefOk(r, u) && r.nodes[u].size <= |r.nodes[u].buffer| {
      HasNode(s, u);
      SizeOk(s, u);
      OpensMore(s, r, k, f, u);
    }
    forall g | g in r.files ensures r.files[g].vnode in r.nodes && g < r.nextFile {
      FilesOk(s, g);
    }
    SameTreeInv(s, r);
  }

  lemma SizeOk(s: Fs, u: nat)
    requires u in s.nodes && ParentOk(s, u)
    ensures s.nodes[u].size <= |s.nodes[u].buffer| && u < s.nextNode
  {
  }

  /** Everything holds except that one vnode has a reference more than it should. */
  ghost predicate Surplus(s: Fs, v: nat) {
    && s.root in s.nodes && s.nodes[s.root].kind == Directory && s.nodes[s.root].parent == None
    && v in s.nodes && s.nodes[v].ref == (if Named(s, v) then 1 else 0) + |Opens(s, v)| + 1
    && (forall u :: u in s.nodes ==> (u != v ==> RefOk(s, u)) && ParentOk(s, u) && ChildrenOk(s, u))
    && (forall f :: f in s.files ==> s.files[f].vnode in s.nodes && f < s.nextFile)
    && Accounted(s)
  }

  lemma SurplusNode(s: Fs, v: nat, u: nat)
    requires Surplus(s, v) && u in s.nodes
    ensures (u != v ==> RefOk(s, u)) && ParentOk(s, u) && ChildrenOk(s, u)
  {
  }

  /** Dropping the surplus reference; the vnode is given back exactly when nothing refers to it any more. */
  lemma ReleaseInv(s: Fs, v: nat)
    requires Surplus(s, v)
    ensures Inv(Release(s, v))
    ensures v !in Release(s, v).nodes <==> !Named(s, v) && Opens(s, v) == {}
  {
    hide Surplus;
    SurplusFacts(s, v);
    if s.nodes[v].ref == 1 {
      Forgotten(s, v);
    } else {
      Decremented(s, v);
    }
  }

  lemma SurplusFacts(s: Fs, v: nat)
    requires Surplus(s, v)
    ensures v in s.nodes && s.nodes[v].ref == (if Named(s, v) then 1 else 0) + |Opens(s, v)| + 1
    ensures s.nodes[v].ref == 1 <==> !Named(s, v) && Opens(s, v) == {}
  {
  }

  lemma Decremented(s: Fs, v: nat)
    requires Surplus(s, v) && s.nodes[v].ref > 1
    ensures Inv(Release(s, v))
  {
    hide RefOk, ParentOk, ChildrenOk, NoDup, Opens;
    var r := Release(s, v);
    forall u | u in r.nodes ensures RefOk(r, u) && ParentOk(r, u) && ChildrenOk(r, u) {
      SurplusNode(s, v, u);
      SizeOk(s, u);
      TreeKept(s, r, u);
      OpensSame(s, r, u);
      RefKept(s, r, u, v);
    }
  }

  lemma RefKept(s: Fs, r: Fs, u: nat, v: nat)
    requires u in s.nodes && u in r.nodes && r.root == s.root && r.nodes[u].parent == s.nodes[u].parent
    requires |Opens(r, u)| == |Opens(s, u)|
    requires if u == v then s.nodes[u].ref == (if Named(s, u) then 1 else 0) + |Opens(s, u)| + 1 && r.nodes[u].ref == s.nodes[u].ref - 1 > 0
      else RefOk(s, u) && r.nodes[u].ref == s.nodes[u].ref
    ensures RefOk(r, u)
  {
  }

  lemma Forgotten(s: Fs, v: nat)
    requires Surplus(s, v) && s.nodes[v].ref == 1
    ensures Inv(Release(s, v))
  {
    hide RefOk, ParentOk, ChildrenOk, NoDup, Opens;
    var r := Release(s, v);
    SurplusNode(s, v, v);
    Childless(s, v);
    forall u | u in r.nodes ensures RefOk(r, u) && ParentOk(r, u) && ChildrenOk(r, u) {
      SurplusNode(s, v, u);
      OpensSame(s, r, u);
      RefKept(s, r, u, v);
      Unlinked(s, r, u, v);
    }
    forall f | f in r.files ensures r.files[f].vnode in r.nodes {
      NoOpens(s, f, v);
    }
    FreedOnce(s.frees, v);
  }

  lemma FreedOnce(l: seq<nat>, v: nat)
    requires NoDup(l) && v !in l
    ensures NoDup(l + [v])
  {
  }

  lemma NoOpens(s: Fs, f: nat, v: nat)
    requires Opens(s, v) == {} && f in s.files
    ensures s.files[f].vnode != v
  {
    assert f !in Opens(s, v);
  }

  lemma Childless(s: Fs, v: nat)
    requires v in s.nodes && ParentOk(s, v) && !Named(s, v)
    ensures s.nodes[v].children == [] && s.nodes[v].parent == None
  {
  }

  /** A vnode without name and entries can be taken away under everybody else. */
  lemma Unlinked(s: Fs, r: Fs, u: nat, v: nat)
    requires u in s.nodes && u != v && v in s.nodes && ParentOk(s, u) && ChildrenOk(s, u)
    requires s.nodes[v].children == [] && s.nodes[v].parent == None
    requires r.nodes == s.nodes - {v} && r.root == s.root && r.nextNode == s.nextNode
    ensures ParentOk(r, u) && ChildrenOk(r, u)
  {
    hide NoDup;
    assert s.nodes[u].parent != Some(v);
  }

  lemma CloseInv(s: Fs, f: nat)
    requires Inv(s) && f in s.files
    ensures s.files[f].vnode in s.nodes && Inv(CloseOn(s, f))
  {
    hide RefOk, ParentOk, ChildrenOk, NoDup, Opens, Release;
    var v := s.files[f].vnode;
    var m := s.(files := s.files - {f});
    forall u | u in m.nodes ensures (u != v ==> RefOk(m, u)) && ParentOk(m, u) && ChildrenOk(m, u) {
      HasNode(s, u);
      SizeOk(s, u);
      OpensLess(s, m, f, u);
      TreeKept(s, m, u);
      if u != v {
        RefKept(s, m, u, v);
      }
    }
    HasNode(s, v);
    OpensLess(s, m, f, v);
    RefIs(s, v);
    ReleaseInv(m, v);
  }

  lemma RefIs(s: Fs, v: nat)
    requires v in s.nodes && RefOk(s, v)
    ensures s.nodes[v].ref == (if Named(s, v) then 1 else 0) + |Opens(s, v)|
  {
  }

  /** Taking a name away from a vnode that has no entries of its own. */
  lemma DetachInv(s: Fs, p: nat, v: nat)
    requires Inv(s) && p in s.nodes && v in s.nodes && s.nodes[v].parent == Some(p) && s.nodes[v].children == []
    ensures p != v && Inv(Detach(s, p, v))
  {
    hide RefOk, ParentOk, ChildrenOk, NoDup, Opens, Release;
    HasNode(s, p);
    HasNode(s, v);
    NotOwnParent(s, p, v);
    var d := s.nodes[p];
    var m := s.(nodes := s.nodes[p := d.(children := Unlisted(d.children, v))][v := s.nodes[v].(parent := None)]);
    ChildList(s, p);
    forall u | u in m.nodes ensures (u != v ==> RefOk(m, u)) && ParentOk(m, u) && ChildrenOk(m, u) {
      HasNode(s, u);
      OpensSame(s, m, u);
      if u != v {
        RefKept(s, m, u, v);
      }
      if u == p {
        Removed(s, m, p, v);
      } else {
        Elsewhere(s, m, p, v, u);
      }
    }
    OpensSame(s, m, v);
    RefIs(s, v);
    ReleaseInv(m, v);
  }

  lemma NotOwnParent(s: Fs, p: nat, v: nat)
    requires p in s.nodes && v in s.nodes && s.nodes[v].parent == Some(p) && s.nodes[v].children == [] && ParentOk(s, v)
    ensures p != v && v in s.nodes[p].children && v != s.root
  {
  }

  lemma ChildList(s: Fs, p: nat)
    requires p in s.nodes && ChildrenOk(s, p)
    ensures NoDup(s.nodes[p].children)
  {
  }

  /** The directory that loses an entry. */
  lemma Removed(s: Fs, m: Fs, p: nat, v: nat)
    requires p in s.nodes && v in s.nodes && p != v && s.nodes[v].parent == Some(p)
    requires m == s.(nodes := s.nodes[p := s.nodes[p].(children := Unlisted(s.nodes[p].children, v))][v := s.nodes[v].(parent := None)])
    requires ParentOk(s, p) && ChildrenOk(s, p) && s.nodes[v].children == []
    ensures ParentOk(m, p) && ChildrenOk(m, p)
  {
    hide NoDup, Unlisted;
    var l, k := s.nodes[p].children, Unlisted(s.nodes[p].children, v);
    UnlistedNoDup(l, v);
    forall c ensures c in k <==> c in l && c != v {
      UnlistedMember(l, v, c);
    }
    assert k != [] ==> k[0] in l;
    assert s.nodes[p].parent != Some(v);
    forall c | c in k ensures c in m.nodes && m.nodes[c].parent == Some(p) && m.nodes[c].name == s.nodes[c].name {
      assert c in l && c != v;
    }
  }

  lemma Elsewhere(s: Fs, m: Fs, p: nat, v: nat, u: nat)
    requires p in s.nodes && v in s.nodes && p != v && s.nodes[v].parent == Some(p) && s.nodes[v].children == [] && u != p
    requires m == s.(nodes := s.nodes[p := s.nodes[p].(children := Unlisted(s.nodes[p].children, v))][v := s.nodes[v].(parent := None)])
    requires u in s.nodes && ParentOk(s, u) && ChildrenOk(s, u) && NoDup(s.nodes[p].children)
    ensures ParentOk(m, u) && ChildrenOk(m, u)
  {
    hide NoDup;
    if u != v {
      UnlistedMember(s.nodes[p].children, v, u);
      assert m.nodes[u] == s.nodes[u];
    }
  }

  lemma Fresh(s: Fs)
    requires Inv(s)
    ensures s.nextNode !in s.nodes && s.nextNode !in s.frees && Opens(s, s.nextNode) == {}
  {
    hide RefOk, ChildrenOk, NoDup;
    forall u | u in s.nodes ensures u < s.nextNode {
      HasNode(s, u);
    }
    forall f | f in s.files ensures s.files[f].vnode != s.nextNode {
      FilesOk(s, f);
    }
  }

  lemma AttachInv(s: Fs, p: nat, name: string, kind: NodeKind)
    requires Inv(s) && p in s.nodes && s.nodes[p].kind == Directory && Named(s, p) && name != ""
    requires forall c :: c in s.nodes[p].children && c in s.nodes ==> s.nodes[c].name != name
    ensures Inv(Attach(s, p, name, kind))
  {
    hide RefOk, ParentOk, ChildrenOk, NoDup, Opens;
    var r, v := Attach(s, p, name, kind), s.nextNode;
    Fresh(s);
    HasNode(s, p);
    SizeOk(s, p);
    forall u | u in r.nodes ensures RefOk(r, u) && ParentOk(r, u) && ChildrenOk(r, u) {
      OpensSame(s, r, u);
      if u == v {
        NewcomerOk(s, p, name, kind);
      } else {
        HasNode(s, u);
        RefKept(s, r, u, v);
        NeighbourOk(s, p, name, kind, u);
      }
    }
  }

  lemma NewcomerOk(s: Fs, p: nat, name: string, kind: NodeKind)
    requires p in s.nodes && p < s.nextNode && s.nextNode !in s.nodes && Opens(s, s.nextNode) == {} && s.root in s.nodes && name != ""
    ensures var r := Attach(s, p, name, kind);
      RefOk(r, s.nextNode) && ParentOk(r, s.nextNode) && ChildrenOk(r, s.nextNode)
  {
    OpensSame(s, Attach(s, p, name, kind), s.nextNode);
  }

  lemma NeighbourOk(s: Fs, p: nat, name: string, kind: NodeKind, u: nat)
    requires p in s.nodes && s.nextNode !in s.nodes && s.nodes[p].kind == Directory && Named(s, p)
    requires forall c :: c in s.nodes[p].children && c in s.nodes ==> s.nodes[c].name != name
    requires u in s.nodes && ParentOk(s, u) && ChildrenOk(s, u)
    ensures var r := Attach(s, p, name, kind); ParentOk(r, u) && ChildrenOk(r, u)
  {
    hide NoDup;
    if u == p {
      FreedOnce(s.nodes[p].children, s.nextNode);
    }
  }

  /* ---- names and paths ---- */

  /** The entry of a directory with the given name, in list order. */
  function Entry(s: Fs, l: seq<nat>, name: string): (r: Option<nat>)
    ensures r.Some? ==> r.value in l && r.value in s.nodes && s.nodes[r.value].name == name
    ensures r == None ==> forall c :: c in l && c in s.nodes ==> s.nodes[c].name != name
  {
    if l == [] then None
    else if l[0] in s.nodes && s.nodes[l[0]].name == name then Some(l[0])
    else Entry(s, l[1..], name)
  }

  function Child(s: Fs, dir: nat, name: string): Option<nat> {
    if dir in s.nodes then Entry(s, s.nodes[dir].children, name) else None
  }

  /** Where a path leads: to an entry of a directory that may or may not exist, or nowhere. */
  datatype Walked = Reached(parent: nat, leaf: Option<nat>, name: string) | Nowhere

  function Walk(s: Fs, dir: nat, comps: seq<string>): Walked
    requires comps != []
    decreases |comps|
  {
    var next := Child(s, dir, comps[0]);
    if |comps| == 1 then Reached(dir, next, comps[0])
    else if next == None || s.nodes[next.value].kind != Directory then Nowhere
    else Walk(s, next.value, comps[1..])
  }

  function WalkPath(s: Fs, comps: seq<string>): Walked {
    if comps == [] then Reached(s.root, Some(s.root), "") else Walk(s, s.root, comps)
  }

  lemma ChildNamed(s: Fs, dir: nat, name: string)
    requires Inv(s) && dir in s.nodes && Child(s, dir, name).Some?
    ensures var c := Child(s, dir, name).value; c in s.nodes && s.nodes[c].parent == Some(dir) && s.nodes[c].name == name && Named(s, c)
  {
    hide Inv;
    HasNode(s, dir);
  }

  /** A walk stays inside the tree: its directory has a name, and its leaf is that directory's entry. */
  lemma {:induction false} WalkStays(s: Fs, dir: nat, comps: seq<string>)
    requires Inv(s) && dir in s.nodes && s.nodes[dir].kind == Directory && Named(s, dir) && comps != []
    ensures var w := Walk(s, dir, comps);
      w.Reached? ==>
        && w.parent in s.nodes && s.nodes[w.parent].kind == Directory && Named(s, w.parent)
        && w.leaf == Child(s, w.parent, w.name) && w.name == comps[|comps| - 1]
        && (w.leaf.Some? ==> w.leaf.value in s.nodes && s.nodes[w.leaf.value].parent == Some(w.parent))
    decreases |comps|
  {
    hide Inv, Child;
    var next := Child(s, dir, comps[0]);
    if next.Some? {
      ChildNamed(s, dir, comps[0]);
      if |comps| > 1 && s.nodes[next.value].kind == Directory {
        WalkStays(s, next.value, comps[1..]);
      }
    }
  }

  lemma RootOk(s: Fs)
    requires Inv(s)
    ensures s.root in s.nodes && s.nodes[s.root].kind == Directory && s.nodes[s.root].parent == None && Named(s, s.root)
  {
  }
}
