/**
 Whole runs of the file system: any sequence of calls, on any files, in any order.
 */
module FileRuns {
  import opened Common
  import opened Vnodes
  import opened FileSystem

  /** One call, with what the heap answered. */
  datatype Call =
    | MakeDir(path: seq<string>, nodeGranted: bool)
    | OpenPath(path: seq<string>, q: Request, nodeGranted: bool, fileGranted: bool)
    | UnlinkPath(path: seq<string>)
    | CloseCall(f: nat)
    | ReadCall(f: nat, n: nat)
    | WriteCall(f: nat, data: seq<byte>, block: Option<seq<byte>>)
    /** A read or write that names a position sets it first. */
    | SeekCall(f: nat, offset: nat)

  function Moved(s: Fs, f: nat, offset: nat): Fs
    requires f in s.files
  {
    s.(files := s.files[f := s.files[f].(offset := offset)])
  }

  /** The file is open and its vnode is there. */
  predicate Usable(s: Fs, f: nat) {
    f in s.files && s.files[f].vnode in s.nodes && s.nodes[s.files[f].vnode].size <= |s.nodes[s.files[f].vnode].buffer|
  }

  /**
   The calls of a run: on files that are open, with the blocks the heap hands out, and opens that their walk settles.
   After any other open the code promises nothing, as OpenSafeExactly shows.
   */
  predicate Possible(s: Fs, c: Call) {
    match c
    case CloseCall(f) => Usable(s, f)
    case ReadCall(f, _) => Usable(s, f)
    case SeekCall(f, _) => Usable(s, f)
    case WriteCall(f, data, block) => Usable(s, f) && Granted(s, f, data, block)
    case OpenPath(path, q, _, _) => Settled(s, path, q)
    case _ => true
  }

  function Step(s: Fs, c: Call): Fs
    requires Possible(s, c)
  {
    match c
    case MakeDir(path, granted) => Mkdir(s, path, granted).0
    case OpenPath(path, q, nodeGranted, fileGranted) => Open(s, path, q, nodeGranted, fileGranted).0
    case UnlinkPath(path) => Unlink(s, path).0
    case CloseCall(f) => CloseOn(s, f)
    case ReadCall(f, n) => Moved(s, f, s.files[f].offset + |ReadBytes(s, f, n).1|)
    case WriteCall(f, data, block) => Write(s, f, data, block).0
    case SeekCall(f, offset) => Moved(s, f, offset)
  }

  /** The states of a run: each follows from the one before by a possible call. */
  predicate Run(states: seq<Fs>, calls: seq<Call>) {
    && |states| == |calls| + 1
    && forall i :: 0 <= i < |calls| ==> Possible(states[i], calls[i]) && states[i + 1] == Step(states[i], calls[i])
  }

  lemma StepInv(s: Fs, c: Call)
    requires Inv(s) && Possible(s, c)
    ensures Inv(Step(s, c))
  {
    hide Inv, Mkdir, Open, Unlink, CloseOn, Write, Granted;
    match c
    case MakeDir(path, granted) => MkdirInv(s, path, granted);
    case OpenPath(path, q, nodeGranted, fileGranted) => OpenKeepsInv(s, path, q, nodeGranted, fileGranted);
    case UnlinkPath(path) => UnlinkInv(s, path);
    case CloseCall(f) => CloseInv(s, f);
    case ReadCall(f, n) => SeekInv(s, f, s.files[f].offset + |ReadBytes(s, f, n).1|);
    case WriteCall(f, data, block) => WriteInv(s, f, data, block);
    case SeekCall(f, offset) => SeekInv(s, f, offset);
  }

  /** The invariant holds in every state of every run. */
  lemma {:induction false} EveryRun(states: seq<Fs>, calls: seq<Call>, k: nat)
    requires Run(states, calls) && k < |states| && Inv(states[0])
    ensures Inv(states[k])
  {
    hide Inv, Step, Possible;
    if k > 0 {
      EveryRun(states, calls, k - 1);
      StepInv(states[k - 1], calls[k - 1]);
    }
  }

  /* ---- giving vnodes back ---- */

  lemma UnlinkFrees(s: Fs, path: seq<string>)
    ensures s.frees <= Unlink(s, path).0.frees
  {
    hide WalkPath, Unlisted;
  }

  lemma OpenFrees(s: Fs, path: seq<string>, q: Request, nodeGranted: bool, fileGranted: bool)
    requires Settled(s, path, q)
    ensures Open(s, path, q, nodeGranted, fileGranted).0.frees == s.frees
  {
    hide WalkPath;
  }

  lemma StepFrees(s: Fs, c: Call)
    requires Possible(s, c)
    ensures s.frees <= Step(s, c).frees
  {
    hide Open, Unlink, WalkPath, WriteNode, NewCap;
    match c
    case OpenPath(path, q, nodeGranted, fileGranted) => OpenFrees(s, path, q, nodeGranted, fileGranted);
    case UnlinkPath(path) => UnlinkFrees(s, path);
    case _ =>
  }

  /** Once given back, a vnode stays away, over any further run. */
  lemma {:induction false} GivenBackForGood(states: seq<Fs>, calls: seq<Call>, j: nat, k: nat, v: nat)
    requires Run(states, calls) && j <= k < |states| && Inv(states[0]) && v in states[j].frees
    ensures v in states[k].frees && v !in states[k].nodes
    decreases k
  {
    hide Inv, Step, Possible;
    EveryRun(states, calls, k);
    if j < k {
      GivenBackForGood(states, calls, j, k - 1, v);
      StepFrees(states[k - 1], calls[k - 1]);
    }
    FreedGone(states[k], v);
  }

  lemma FreedGone(s: Fs, v: nat)
    requires Inv(s)
    ensures v in s.frees ==> v !in s.nodes
  {
  }

  /**
   In every state of every run a vnode that was ever made is in memory exactly while it has a name or an open file;
   without either it has been given back, exactly once.
   */
  lemma VnodeLife(states: seq<Fs>, calls: seq<Call>, k: nat, v: nat)
    requires Run(states, calls) && k < |states| && Inv(states[0]) && v < states[k].nextNode
    ensures var s := states[k];
      if v in s.nodes then (Named(s, v) || Opens(s, v) != {}) && v !in s.frees
      else multiset(s.frees)[v] == 1 && Opens(s, v) == {}
  {
    hide Inv, Step, Possible;
    EveryRun(states, calls, k);
    var s := states[k];
    if v in s.nodes {
      HasNode(s, v);
      FreedGone(s, v);
    } else {
      AccountedFor(s, v);
      OnceInList(s.frees, v);
      forall f | f in s.files ensures s.files[f].vnode != v {
        FilesOk(s, f);
      }
    }
  }

  lemma AccountedFor(s: Fs, v: nat)
    requires Inv(s) && v < s.nextNode && v !in s.nodes
    ensures v in s.frees && NoDup(s.frees)
  {
  }

  lemma {:induction false} OnceInList(l: seq<nat>, v: nat)
    requires NoDup(l)
    ensures multiset(l)[v] == if v in l then 1 else 0
  {
    if l != [] {
      var n := |l| - 1;
      assert l == l[..n] + [l[n]];
      OnceInList(l[..n], v);
    }
  }

  /* ---- what an open file reads ---- */

  /** The call closes file f, moves its position or writes to its vnode. */
  predicate Touches(s: Fs, c: Call, f: nat)
    requires f in s.files
  {
    match c
    case CloseCall(g) => g == f
    case ReadCall(g, _) => g == f
    case SeekCall(g, _) => g == f
    case WriteCall(g, _, _) => g in s.files && s.files[g].vnode == s.files[f].vnode
    case _ => false
  }

  /** File f is open on the same vnode at the same position, over the same bytes. */
  ghost predicate SameFile(s: Fs, r: Fs, f: nat)
    requires f in s.files
  {
    && f in r.files && r.files[f] == s.files[f]
    && SameBytesAt(s, r, s.files[f].vnode)
  }

  lemma AttachBytes(s: Fs, p: nat, name: string, kind: NodeKind)
    requires p in s.nodes && s.nextNode !in s.nodes
    ensures Attach(s, p, name, kind).files == s.files && SameBytes(s, Attach(s, p, name, kind))
  {
  }

  lemma PinnedBytes(s: Fs, v: nat, q: Request, granted: bool, f: nat)
    requires f in s.files && s.nextFile !in s.files
    ensures SameFile(s, Pinned(s, v, q, granted).0, f)
  {
  }

  lemma OpenKeepsFile(s: Fs, path: seq<string>, q: Request, nodeGranted: bool, fileGranted: bool, f: nat)
    requires Inv(s) && f in s.files && Settled(s, path, q)
    ensures SameFile(s, Open(s, path, q, nodeGranted, fileGranted).0, f)
  {
    hide Inv, WalkPath, Attach, Pinned;
    Fresh(s);
    FilesOk(s, s.nextFile);
    var w := WalkPath(s, path);
    if w.Reached? {
      WalkAgrees(s, path);
      if w.leaf.Some? {
        PinnedBytes(s, w.leaf.value, q, fileGranted, f);
      } else if w.parent in s.nodes {
        var kind := if q.wantDirectory then Directory else Regular;
        AttachBytes(s, w.parent, w.name, kind);
        var a := Attach(s, w.parent, w.name, kind);
        AttachFiles(s, w.parent, w.name, kind);
        PinnedBytes(a, s.nextNode, q, fileGranted, f);
      }
    }
  }

  lemma AttachFiles(s: Fs, p: nat, name: string, kind: NodeKind)
    requires p in s.nodes
    ensures Attach(s, p, name, kind).nextFile == s.nextFile
    ensures forall v :: v in s.nodes ==> v in Attach(s, p, name, kind).nodes
  {
  }

  lemma MkdirKeepsFile(s: Fs, path: seq<string>, granted: bool, f: nat)
    requires Inv(s) && f in s.files
    ensures SameFile(s, Mkdir(s, path, granted).0, f)
  {
    hide Inv, WalkPath, Attach;
    Fresh(s);
    var w := WalkPath(s, path);
    if w.Reached? && w.parent in s.nodes {
      AttachBytes(s, w.parent, w.name, Directory);
    }
  }

  lemma CloseKeepsFile(s: Fs, g: nat, f: nat)
    requires f in s.files && g in s.files && s.files[g].vnode in s.nodes && f != g
    ensures SameFile(s, CloseOn(s, g), f)
  {
  }

  lemma WriteKeepsFile(s: Fs, g: nat, data: seq<byte>, block: Option<seq<byte>>, f: nat)
    requires f in s.files && Usable(s, g) && Granted(s, g, data, block) && s.files[g].vnode != s.files[f].vnode
    ensures SameFile(s, Write(s, g, data, block).0, f)
  {
    hide WriteNode, NewCap;
  }

  lemma StepKeepsFile(s: Fs, c: Call, f: nat)
    requires Inv(s) && Possible(s, c) && f in s.files && !Touches(s, c, f)
    ensures SameFile(s, Step(s, c), f)
  {
    hide Inv, Mkdir, Open, Unlink, CloseOn, Write, Granted;
    match c
    case MakeDir(path, granted) => MkdirKeepsFile(s, path, granted, f);
    case OpenPath(path, q, nodeGranted, fileGranted) => OpenKeepsFile(s, path, q, nodeGranted, fileGranted, f);
    case UnlinkPath(path) => UnlinkFiles(s, path);
    case CloseCall(g) => CloseKeepsFile(s, g, f);
    case ReadCall(g, n) =>
    case WriteCall(g, data, block) => WriteKeepsFile(s, g, data, block, f);
    case SeekCall(g, offset) =>
  }

  lemma InvUsable(s: Fs, f: nat)
    requires Inv(s) && f in s.files
    ensures Usable(s, f)
  {
    hide Inv, ParentOk;
    FilesOk(s, f);
    HasNode(s, s.files[f].vnode);
    SizeOk(s, s.files[f].vnode);
  }

  /** Between two states an open file stays as it was if no call in between touches it. */
  ghost predicate Untouched(states: seq<Fs>, calls: seq<Call>, f: nat)
    requires Run(states, calls)
  {
    forall i :: 0 <= i < |calls| && f in states[i].files ==> !Touches(states[i], calls[i], f)
  }

  /**
   Over every run that neither closes a file, nor moves its position, nor writes to its vnode, the file goes on
   reading the same bytes: whatever is created, opened, unlinked (its own name included), closed, read or written.
   */
  lemma {:induction false} OpenFileReadsTheSame(states: seq<Fs>, calls: seq<Call>, f: nat, k: nat, n: nat)
    requires Run(states, calls) && k < |states| && Inv(states[0]) && f in states[0].files && Untouched(states, calls, f)
    ensures Usable(states[0], f) && Usable(states[k], f)
    ensures states[k].files[f] == states[0].files[f]
    ensures ReadBytes(states[k], f, n) == ReadBytes(states[0], f, n)
  {
    hide Inv, Step, Possible, Touches;
    EveryRun(states, calls, k);
    InvUsable(states[0], f);
    if k > 0 {
      OpenFileReadsTheSame(states, calls, f, k - 1, n);
      EveryRun(states, calls, k - 1);
      StepKeepsFile(states[k - 1], calls[k - 1], f);
      InvUsable(states[k], f);
    }
  }
}
