/**
 Path normalisation: the kernel's in-place parser against a fold over the components of the path.
 */
module Paths {
  import opened Common

  const PATH_MAX: nat := 512
  const DEPTH_MAX: nat := 32

  /* ---- the specification ---- */

  /** The pieces between slashes; k slashes make k + 1 pieces. */
  function Pieces(s: string): (ps: seq<string>)
    ensures |ps| > 0
  {
    if s == "" then [""] else Extend(s[0], Pieces(s[1..]))
  }

  /** One more character in front: a slash starts a new piece. */
  function Extend(c: char, ps: seq<string>): (r: seq<string>)
    requires |ps| > 0
    ensures |r| > 0
  {
    if c == '/' then [""] + ps else [[c] + ps[0]] + ps[1..]
  }

  lemma ExtendAppend(c: char, ps: seq<string>, qs: seq<string>)
    requires |ps| > 0
    ensures Extend(c, ps + qs) == Extend(c, ps) + qs
  {
    assert (ps + qs)[1..] == ps[1..] + qs;
  }

  predicate Proper(c: string) { c != "" && c != "." && c != ".." && '/' !in c }

  predicate AllProper(ps: seq<string>) { forall i :: 0 <= i < |ps| ==> Proper(ps[i]) }

  /** One component against the stack of directories; too deep a stack is refused. */
  function Apply(st: seq<string>, c: string): Option<seq<string>> {
    if c == "" || c == "." then Some(st)
    else if c == ".." then Some(if st == [] then [] else st[..|st| - 1])
    else if |st| >= DEPTH_MAX then None
    else Some(st + [c])
  }

  function Fold(st: seq<string>, cs: seq<string>): Option<seq<string>>
    decreases |cs|
  {
    if cs == [] then Some(st)
    else match Apply(st, cs[0])
      case None => None
      case Some(next) => Fold(next, cs[1..])
  }

  function Join(ps: seq<string>): string {
    if ps == [] then "" else if |ps| == 1 then ps[0] else ps[0] + "/" + Join(ps[1..])
  }

  function Print(ps: seq<string>): string { "/" + Join(ps) }

  function Cut(s: string, n: nat): string { if |s| <= n then s else s[..n] }

  /** The path before normalisation, cut to what the kernel's buffer holds. */
  function Full(cwd: string, path: string): string {
    if path != "" && path[0] == '/' then Cut(path, PATH_MAX - 1)
    else
      var c := Cut(cwd, PATH_MAX - 1);
      Cut((if c != "" && c[|c| - 1] == '/' then c else Cut(c + "/", PATH_MAX - 1)) + path, PATH_MAX - 1)
  }

  function Norm(s: string): Option<string> {
    match Fold([], Pieces(s))
    case None => None
    case Some(ps) => Some(Print(ps))
  }

  /* ---- pieces ---- */

  lemma {:induction false} PiecesAppend(a: string, b: string)
    ensures Pieces(a + "/" + b) == Pieces(a) + Pieces(b)
  {
    if a == "" {
      assert a + "/" + b == "/" + b;
      assert ("/" + b)[1..] == b;
    } else {
      hide Extend;
      PiecesAppend(a[1..], b);
      assert (a + "/" + b)[1..] == a[1..] + "/" + b;
      ExtendAppend(a[0], Pieces(a[1..]), Pieces(b));
    }
  }

  lemma {:induction false} NoSlashInside(s: string)
    ensures forall i :: 0 <= i < |Pieces(s)| ==> '/' !in Pieces(s)[i]
  {
    if s != "" {
      NoSlashInside(s[1..]);
      if s[0] != '/' {
        var rest := Pieces(s[1..]);
        assert '/' !in rest[0];
      }
    }
  }

  lemma {:induction false} OnePiece(c: string)
    requires '/' !in c
    ensures Pieces(c) == [c]
  {
    if c != "" {
      assert forall x :: x in c[1..] ==> x in c;
      OnePiece(c[1..]);
      assert [c[0]] + c[1..] == c;
    }
  }

  lemma {:induction false} PiecesOfJoin(ps: seq<string>)
    requires ps != [] && AllProper(ps)
    ensures Pieces(Join(ps)) == ps
  {
    OnePiece(ps[0]);
    if |ps| > 1 {
      PiecesOfJoin(ps[1..]);
      PiecesAppend(ps[0], Join(ps[1..]));
      assert [ps[0]] + ps[1..] == ps;
    }
  }

  /* ---- the fold ---- */

  lemma {:induction false} FoldAppend(st: seq<string>, a: seq<string>, b: seq<string>)
    ensures Fold(st, a + b) == match Fold(st, a) { case None => None case Some(m) => Fold(m, b) }
    decreases |a|
  {
    if a == [] {
      assert a + b == b;
    } else {
      assert (a + b)[1..] == a[1..] + b;
      var next := Apply(st, a[0]);
      if next.Some? {
        FoldAppend(next.value, a[1..], b);
      }
    }
  }

  lemma {:induction false} FoldKeepsProper(st: seq<string>, cs: seq<string>)
    requires AllProper(st) && |st| <= DEPTH_MAX && forall i :: 0 <= i < |cs| ==> '/' !in cs[i]
    ensures Fold(st, cs).Some? ==> AllProper(Fold(st, cs).value) && |Fold(st, cs).value| <= DEPTH_MAX
    decreases |cs|
  {
    if cs != [] && Apply(st, cs[0]).Some? {
      FoldKeepsProper(Apply(st, cs[0]).value, cs[1..]);
    }
  }

  lemma {:induction false} FoldOfProper(st: seq<string>, ps: seq<string>)
    requires AllProper(ps) && |st| + |ps| <= DEPTH_MAX
    ensures Fold(st, ps) == Some(st + ps)
    decreases |ps|
  {
    if ps == [] {
      assert st + ps == st;
    } else {
      FoldOfProper(st + [ps[0]], ps[1..]);
      assert st + [ps[0]] + ps[1..] == st + ps;
    }
  }

  lemma FoldOfPrint(ps: seq<string>)
    requires AllProper(ps) && |ps| <= DEPTH_MAX
    ensures Fold([], Pieces(Print(ps))) == Some(ps)
  {
    var s := Print(ps);
    assert s[1..] == Join(ps);
    assert Pieces(s) == [""] + Pieces(Join(ps));
    if ps == [] {
      assert Pieces(s) == ["", ""];
      assert Fold([], ["", ""]) == Fold([], [""]) == Fold([], []);
    } else {
      PiecesOfJoin(ps);
      assert ([""] + ps)[1..] == ps && [] + ps == ps;
      assert Fold([], [""] + ps) == Fold([], ps);
      FoldOfProper([], ps);
    }
  }

  lemma NormProper(s: string)
    requires Norm(s).Some?
    ensures var ps := Fold([], Pieces(s)).value; AllProper(ps) && |ps| <= DEPTH_MAX
  {
    NoSlashInside(s);
    FoldKeepsProper([], Pieces(s));
  }

  /** The result is absolute and consists of proper components only. */
  lemma NormIsClean(s: string)
    requires Norm(s).Some?
    ensures var r := Norm(s).value;
      r != "" && r[0] == '/' && (r == "/" || AllProper(Pieces(r)[1..]))
  {
    NormProper(s);
    var ps, r := Fold([], Pieces(s)).value, Norm(s).value;
    assert r[1..] == Join(ps);
    if ps != [] {
      PiecesOfJoin(ps);
      assert Pieces(r)[1..] == ps;
    }
  }

  /** Normalising twice changes nothing. */
  lemma NormTwice(s: string)
    requires Norm(s).Some?
    ensures Norm(Norm(s).value) == Norm(s)
  {
    NormProper(s);
    FoldOfPrint(Fold([], Pieces(s)).value);
  }

  /** A path can be normalised in two steps. */
  lemma NormInSteps(a: string, b: string)
    requires Norm(a + "/" + b).Some?
    ensures Norm(a).Some? && Norm(Norm(a).value + "/" + b) == Norm(a + "/" + b)
  {
    PiecesAppend(a, b);
    FoldAppend([], Pieces(a), Pieces(b));
    NormProper(a);
    var ps := Fold([], Pieces(a)).value;
    FoldOfPrint(ps);
    PiecesAppend(Print(ps), b);
    FoldAppend([], Pieces(Print(ps)), Pieces(b));
  }

  /* ---- lengths ---- */

  function Weight(ps: seq<string>): nat {
    if ps == [] then 0 else |ps[0]| + 1 + Weight(ps[1..])
  }

  lemma {:induction false} WeightAppend(a: seq<string>, b: seq<string>)
    ensures Weight(a + b) == Weight(a) + Weight(b)
  {
    if a == [] {
      assert a + b == b;
    } else {
      assert (a + b)[1..] == a[1..] + b;
      WeightAppend(a[1..], b);
    }
  }

  lemma {:induction false} WeightOfPieces(s: string)
    ensures Weight(Pieces(s)) == |s| + 1
  {
    if s == "" {
      assert Pieces(s)[1..] == [];
    } else {
      WeightOfPieces(s[1..]);
      var rest := Pieces(s[1..]);
      if s[0] == '/' {
        assert ([""] + rest)[1..] == rest;
      } else {
        assert ([[s[0]] + rest[0]] + rest[1..])[1..] == rest[1..];
      }
    }
  }

  lemma ApplyWeight(st: seq<string>, c: string)
    requires Apply(st, c).Some?
    ensures Weight(Apply(st, c).value) <= Weight(st) + |c| + 1
  {
    WeightAppend(st, [c]);
    if st != [] {
      WeightAppend(st[..|st| - 1], [st[|st| - 1]]);
      assert st[..|st| - 1] + [st[|st| - 1]] == st;
    }
  }

  lemma {:induction false} FoldWeight(st: seq<string>, cs: seq<string>)
    requires Fold(st, cs).Some?
    ensures Weight(Fold(st, cs).value) <= Weight(st) + Weight(cs)
    decreases |cs|
  {
    if cs != [] {
      ApplyWeight(st, cs[0]);
      FoldWeight(Apply(st, cs[0]).value, cs[1..]);
    }
  }

  lemma {:induction false} PrintLength(ps: seq<string>)
    ensures |Print(ps)| == if ps == [] then 1 else Weight(ps)
  {
    if |ps| > 1 {
      PrintLength(ps[1..]);
      assert |Join(ps)| == |ps[0]| + 1 + |Join(ps[1..])|;
    }
  }

  /** Normalising an absolute path never makes it longer. */
  lemma NormNotLonger(s: string)
    requires s != "" && s[0] == '/' && Norm(s).Some?
    ensures |Norm(s).value| <= |s|
  {
    var rest := Pieces(s[1..]);
    assert Pieces(s) == [""] + rest && ([""] + rest)[1..] == rest;
    assert Fold([], Pieces(s)) == Fold([], rest);
    FoldWeight([], rest);
    WeightOfPieces(s[1..]);
    PrintLength(Fold([], Pieces(s)).value);
  }

  /* ---- the kernel's parser ---- */

  /** The start of the next component and what follows it. */
  method NextComponent(s: string) returns (c: string, rest: string)
    requires s != ""
    ensures |rest| < |s| && '/' !in c
    ensures s == c + "/" + rest || (s == c && rest == "")
  {
    var i := 0;
    while i < |s| && s[i] != '/'
      invariant 0 <= i <= |s| && '/' !in s[..i]
    {
      i := i + 1;
    }
    c := s[..i];
    if i < |s| {
      rest := s[i + 1..];
      assert s == c + "/" + rest;
    } else {
      rest := "";
      assert s == c;
    }
  }

  lemma ComponentFold(st: seq<string>, s: string, c: string, rest: string)
    requires '/' !in c && (s == c + "/" + rest || (s == c && rest == ""))
    ensures Fold(st, Pieces(s)) == match Apply(st, c) { case None => None case Some(next) => Fold(next, Pieces(rest)) }
  {
    OnePiece(c);
    if s == c + "/" + rest {
      PiecesAppend(c, rest);
      assert ([c] + Pieces(rest))[0] == c && ([c] + Pieces(rest))[1..] == Pieces(rest);
    } else {
      assert Pieces(s) == [c] && [c][1..] == [];
      assert Pieces("") == [""];
      assert forall m :: Fold(m, [""]) == Fold(m, []) == Some(m);
    }
  }

  /** `strlcat`: what does not fit is dropped. */
  function Concat(dst: string, src: string, cap: nat): string
    requires |dst| < cap
  {
    Cut(dst + src, cap - 1)
  }

  /** Prints components one by one into a buffer; once it is full nothing more is added. */
  method PrintInto(ps: seq<string>, cap: nat) returns (out: string)
    requires cap >= 2
    ensures out == Cut(Print(ps), cap - 1)
  {
    hide Cut, Print;
    out := "/";
    var i: nat := 0;
    ghost var whole := "/";
    AllRemaining(ps);
    CutShort("/", cap);
    while i < |ps|
      invariant i <= |ps| && out == Cut(whole, cap - 1) && |out| < cap
      invariant whole + Remaining(ps, i) == Print(ps)
    {
      ghost var sep := if i > 0 then "/" else "";
      assert whole + (sep + ps[i] + Remaining(ps, i + 1)) == ((whole + sep) + ps[i]) + Remaining(ps, i + 1);
      if i > 0 {
        CutTwice(whole, "/", cap);
        out := Concat(out, "/", cap);
      }
      assert whole + "" == whole;
      whole := whole + sep;
      CutTwice(whole, ps[i], cap);
      out := Concat(out, ps[i], cap);
      whole := whole + ps[i];
      i := i + 1;
    }
    assert whole + "" == whole;
  }

  /** What is still to be printed, with the slash that separates it from what came before. */
  ghost function Remaining(ps: seq<string>, i: nat): string
    decreases |ps| - i
  {
    if i >= |ps| then "" else (if i > 0 then "/" else "") + ps[i] + Remaining(ps, i + 1)
  }

  lemma {:induction false} RemainingJoin(ps: seq<string>, i: nat)
    requires i < |ps|
    ensures Remaining(ps, i) == (if i > 0 then "/" else "") + Join(ps[i..])
    decreases |ps| - i
  {
    assert ps[i..][0] == ps[i] && ps[i..][1..] == ps[i + 1..];
    if i + 1 < |ps| {
      RemainingJoin(ps, i + 1);
    }
  }

  lemma AllRemaining(ps: seq<string>)
    ensures "/" + Remaining(ps, 0) == Print(ps)
  {
    if ps != [] {
      RemainingJoin(ps, 0);
      assert ps[0..] == ps;
    }
  }

  lemma CutShort(s: string, cap: nat)
    requires |s| < cap
    ensures Cut(s, cap - 1) == s
  {
  }

  lemma CutTwice(a: string, b: string, cap: nat)
    requires cap >= 2
    ensures Cut(Cut(a, cap - 1) + b, cap - 1) == Cut(a + b, cap - 1) && |Cut(a + b, cap - 1)| < cap
  {
  }

  /**
   Normalises a path against a working directory. The result is the fold of the full path, cut to the caller's
   buffer; only a stack of more than 32 directories is refused.
   */
  method PathNorm(cwd: string, path: string, cap: nat) returns (st: Status, out: string)
    requires cwd != ""
    ensures st == InvalidParameter <==> cap < 2
    ensures cap >= 2 ==> (st == NameTooLong <==> Norm(Full(cwd, path)) == None)
    ensures st in {Success, NameTooLong, InvalidParameter}
    ensures st == Success ==> out == Cut(Norm(Full(cwd, path)).value, cap - 1)
  {
    out := "";
    if cap < 2 {
      return InvalidParameter, out;
    }
    var tmp;
    if path != "" && path[0] == '/' {
      tmp := Cut(path, PATH_MAX - 1);
    } else {
      tmp := Cut(cwd, PATH_MAX - 1);
      if tmp[|tmp| - 1] != '/' {
        tmp := Concat(tmp, "/", PATH_MAX);
      }
      tmp := Concat(tmp, path, PATH_MAX);
    }
    var s, parts := tmp, [];
    if s != "" && s[0] == '/' {
      assert s == "" + "/" + s[1..];
      ComponentFold([], s, "", s[1..]);
      s := s[1..];
    }
    while s != ""
      invariant Fold(parts, Pieces(s)) == Fold([], Pieces(tmp))
      decreases |s|
    {
      var c, rest := NextComponent(s);
      ComponentFold(parts, s, c, rest);
      s := rest;
      if c == "" || c == "." {
        continue;
      }
      if c == ".." {
        if parts != [] {
          parts := parts[..|parts| - 1];
        }
        continue;
      }
      if |parts| >= DEPTH_MAX {
        return NameTooLong, out;
      }
      parts := parts + [c];
    }
    assert Pieces("") == [""] && Fold(parts, [""]) == Fold(parts, []);
    out := PrintInto(parts, cap);
    st := Success;
  }

  lemma FullAbsolute(cwd: string, path: string)
    requires cwd != "" && cwd[0] == '/'
    ensures var f := Full(cwd, path); f != "" && f[0] == '/' && |f| < PATH_MAX
  {
  }

  /** With an absolute working directory and a buffer of the usual size nothing is cut off the result. */
  lemma ResultFits(cwd: string, path: string)
    requires cwd != "" && cwd[0] == '/' && Norm(Full(cwd, path)).Some?
    ensures Cut(Norm(Full(cwd, path)).value, PATH_MAX - 1) == Norm(Full(cwd, path)).value
  {
    FullAbsolute(cwd, path);
    NormNotLonger(Full(cwd, path));
  }

  /** Resolving a relative path against a normalised directory is resolving the whole path. */
  lemma RelativeIsWhole(a: string, b: string)
    requires a != "" && a[0] == '/' && |a| + 1 + |b| < PATH_MAX && (b == "" || b[0] != '/') && Norm(a + "/" + b).Some?
    ensures Norm(a).Some? && Norm(Full(Norm(a).value, b)) == Norm(Full("/", a + "/" + b))
  {
    NormInSteps(a, b);
    NormNotLonger(a);
    NormIsClean(a);
    var c := Norm(a).value;
    if c[|c| - 1] == '/' {
      NoTrailingSlash(a);
      assert Full(c, b) == "/" + b && c + "/" + b == "/" + ("/" + b);
      assert ("/" + b)[1..] == b && ("/" + ("/" + b))[1..] == "/" + b;
      SkipSlash("/" + b);
    } else {
      assert Full(c, b) == c + "/" + b;
    }
  }

  lemma SkipSlash(s: string)
    ensures Norm("/" + s) == Norm(s)
  {
    assert "/" + s == "" + "/" + s;
    ComponentFold([], "/" + s, "", s);
  }

  lemma NoTrailingSlash(a: string)
    requires Norm(a).Some? && Norm(a).value[|Norm(a).value| - 1] == '/'
    ensures Norm(a).value == "/"
  {
    NormProper(a);
    var ps := Fold([], Pieces(a)).value;
    if ps != [] {
      JoinEnd(ps);
    }
  }

  lemma {:induction false} JoinEnd(ps: seq<string>)
    requires ps != [] && AllProper(ps)
    ensures Join(ps) != "" && Join(ps)[|Join(ps)| - 1] != '/'
  {
    if |ps| > 1 {
      JoinEnd(ps[1..]);
    }
  }

  /* ---- the laws that fix the result ---- */

  /** The path of an entry of a directory. */
  function Under(dir: string, c: string): string {
    if dir == "/" then "/" + c else dir + "/" + c
  }

  function Slashes(s: string): nat {
    if s == "" then 0 else (if s[0] == '/' then 1 else 0) + Slashes(s[1..])
  }

  /** How many directories deep a normalised path is. */
  function Depth(s: string): nat { if s == "/" then 0 else Slashes(s) }

  lemma {:induction false} SlashesAppend(a: string, b: string)
    ensures Slashes(a + b) == Slashes(a) + Slashes(b)
  {
    if a == "" {
      assert a + b == b;
    } else {
      assert (a + b)[1..] == a[1..] + b;
      SlashesAppend(a[1..], b);
    }
  }

  lemma {:induction false} NoSlashes(c: string)
    requires '/' !in c
    ensures Slashes(c) == 0
  {
    if c != "" {
      assert forall x :: x in c[1..] ==> x in c;
      NoSlashes(c[1..]);
    }
  }

  lemma {:induction false} JoinSlashes(ps: seq<string>)
    requires ps != [] && AllProper(ps)
    ensures Slashes(Join(ps)) == |ps| - 1
  {
    NoSlashes(ps[0]);
    if |ps| > 1 {
      JoinSlashes(ps[1..]);
      SlashesAppend(ps[0] + "/", Join(ps[1..]));
      SlashesAppend(ps[0], "/");
    }
  }

  lemma PrintDepth(ps: seq<string>)
    requires AllProper(ps)
    ensures Depth(Print(ps)) == |ps| && (Print(ps) == "/" <==> ps == [])
  {
    if ps != [] {
      JoinSlashes(ps);
      JoinEnd(ps);
      assert Print(ps)[1..] == Join(ps);
    }
  }

  lemma {:induction false} JoinMore(ps: seq<string>, c: string)
    requires ps != []
    ensures Join(ps + [c]) == Join(ps) + "/" + c
  {
    if |ps| > 1 {
      JoinMore(ps[1..], c);
      assert (ps + [c])[1..] == ps[1..] + [c];
      assert ps[0] + "/" + (Join(ps[1..]) + "/" + c) == (ps[0] + "/" + Join(ps[1..])) + "/" + c;
    } else {
      assert (ps + [c])[1..] == [c];
    }
  }

  lemma PrintMore(ps: seq<string>, c: string)
    requires AllProper(ps)
    ensures Print(ps + [c]) == Under(Print(ps), c)
  {
    PrintDepth(ps);
    if ps == [] {
      assert ps + [c] == [c];
    } else {
      JoinMore(ps, c);
    }
  }

  /** One more piece at the end of a path. */
  lemma LastPiece(a: string, c: string)
    requires '/' !in c
    ensures Norm(a) == None ==> Norm(a + "/" + c) == None
    ensures Norm(a).Some? ==>
      var ps := Fold([], Pieces(a)).value;
      AllProper(ps) && |ps| <= DEPTH_MAX && Fold([], Pieces(a + "/" + c)) == Apply(ps, c)
  {
    PiecesAppend(a, c);
    OnePiece(c);
    FoldAppend([], Pieces(a), [c]);
    if Norm(a).Some? {
      NormProper(a);
      OneStep(Fold([], Pieces(a)).value, c);
    }
  }

  lemma OneStep(ps: seq<string>, c: string)
    ensures Fold(ps, [c]) == Apply(ps, c)
  {
    assert [c][1..] == [];
  }

  /** A proper name is added to the directory; exactly a directory 32 deep has no room for it. */
  lemma NormAdds(a: string, c: string)
    requires Proper(c) && Norm(a).Some?
    ensures Norm(a + "/" + c) == if Depth(Norm(a).value) < DEPTH_MAX then Some(Under(Norm(a).value, c)) else None
  {
    LastPiece(a, c);
    var ps := Fold([], Pieces(a)).value;
    PrintDepth(ps);
    PrintMore(ps, c);
  }

  /** `..` after a name takes the name away again. */
  lemma NormGoesBack(a: string, c: string)
    requires Proper(c) && Norm(a + "/" + c).Some?
    ensures Norm(a + "/" + c + "/..") == Norm(a)
  {
    LastPiece(a, c);
    LastPiece(a + "/" + c, "..");
    Regroup(a + "/" + c);
    var ps := Fold([], Pieces(a)).value;
    assert (ps + [c])[..|ps|] == ps;
  }

  /** The same strings, written with the slash apart. */
  lemma Regroup(a: string)
    ensures a + "/.." == a + "/" + ".." && a + "/." == a + "/" + "." && a + "/" == a + "/" + ""
  {
  }

  /** `..` in the root stays there. */
  lemma NormOfRoot(a: string)
    requires Norm(a) == Some("/")
    ensures Norm(a + "/..") == Some("/")
  {
    LastPiece(a, "..");
    Regroup(a);
    PrintDepth(Fold([], Pieces(a)).value);
  }

  /** `.` and an empty piece change nothing. */
  lemma NormSkips(a: string)
    ensures Norm(a + "/.") == Norm(a) && Norm(a + "/") == Norm(a)
  {
    LastPiece(a, ".");
    LastPiece(a, "");
    Regroup(a);
  }

  /** Only what a path normalises to matters for what follows it. */
  lemma NormGoesOn(a: string, b: string, c: string)
    requires Norm(a) == Norm(b) && '/' !in c
    ensures Norm(a + "/" + c) == Norm(b + "/" + c) && (Norm(a) == None ==> Norm(a + "/" + c) == None)
  {
    LastPiece(a, c);
    LastPiece(b, c);
    if Norm(a).Some? {
      PrintInjective(Fold([], Pieces(a)).value, Fold([], Pieces(b)).value);
    }
  }

  lemma PrintInjective(ps: seq<string>, qs: seq<string>)
    requires AllProper(ps) && AllProper(qs) && |ps| <= DEPTH_MAX && |qs| <= DEPTH_MAX && Print(ps) == Print(qs)
    ensures ps == qs
  {
    FoldOfPrint(ps);
    FoldOfPrint(qs);
  }

  /** A path without a slash is taken in the root. */
  lemma NormOfPiece(c: string)
    ensures Norm(c) == Norm("/" + c) && Norm("") == Some("/")
  {
    SkipSlash(c);
    assert Pieces("") == [""];
    OneStep([], "");
    assert Print([]) == "/";
  }

  /* ---- the laws have one solution ---- */

  /** The laws, asked of any function on strings. */
  ghost predicate Obeys(f: string -> Option<string>, a: string, b: string, c: string) {
    && f("") == Some("/") && f(c) == f("/" + c)
    && f(a + "/.") == f(a) && f(a + "/") == f(a)
    && (f(a) == Some("/") ==> f(a + "/..") == Some("/"))
    && ('/' !in c && f(a) == f(b) ==> f(a + "/" + c) == f(b + "/" + c))
    && ('/' !in c && f(a) == None ==> f(a + "/" + c) == None)
    && (Proper(c) && f(a + "/" + c).Some? ==> f(a + "/" + c + "/..") == f(a))
    && (Proper(c) && f(a).Some? ==>
        f(a + "/" + c) == if Depth(f(a).value) < DEPTH_MAX then Some(Under(f(a).value, c)) else None)
  }

  ghost predicate NormLaws(f: string -> Option<string>) {
    forall a, b, c :: Obeys(f, a, b, c)
  }

  lemma NormObeys()
    ensures NormLaws(Norm)
  {
    hide Norm;
    forall a, b, c ensures Obeys(Norm, a, b, c) {
      NormOfPiece(c);
      NormSkips(a);
      if Norm(a) == Some("/") {
        NormOfRoot(a);
      }
      if '/' !in c {
        if Norm(a) == Norm(b) {
          NormGoesOn(a, b, c);
        }
        NormGoesOn(a, a, c);
      }
      if Proper(c) {
        if Norm(a + "/" + c).Some? {
          NormGoesBack(a, c);
        }
        if Norm(a).Some? {
          NormAdds(a, c);
        }
      }
    }
  }

  /** Where a path that is longer than one piece ends. */
  lemma {:induction false} SplitLast(s: string) returns (a: string, c: string)
    requires '/' in s
    ensures s == a + "/" + c && '/' !in c && |a| < |s|
  {
    if s[|s| - 1] == '/' {
      a, c := s[..|s| - 1], "";
    } else {
      var t := s[..|s| - 1];
      assert s == t + [s[|s| - 1]];
      a, c := SplitLast(t);
      c := c + [s[|s| - 1]];
    }
  }

  lemma {:induction false} PrintedFixed(f: string -> Option<string>, ps: seq<string>)
    requires NormLaws(f) && AllProper(ps) && |ps| <= DEPTH_MAX
    ensures f(Print(ps)) == Some(Print(ps))
  {
    hide Depth, Print;
    if ps == [] {
      assert Obeys(f, "", "", "");
      assert "" + "/" == "/";
      PrintDepth(ps);
    } else {
      var n := |ps| - 1;
      var qs, c := ps[..n], ps[n];
      assert ps == qs + [c];
      PrintedFixed(f, qs);
      PrintMore(qs, c);
      PrintDepth(qs);
      var dir := if qs == [] then "" else Print(qs);
      assert Obeys(f, dir, "", c) && Obeys(f, "", "", c);
      assert "" + "/" + c == "/" + c;
    }
  }

  /** A path followed by one piece, for two functions that agree on the path. */
  lemma SamePiece(f: string -> Option<string>, a: string, c: string)
    requires NormLaws(f) && f(a) == Norm(a) && '/' !in c
    ensures f(a + "/" + c) == Norm(a + "/" + c)
  {
    hide Norm, Depth;
    NormObeys();
    assert Obeys(f, a, a, c) && Obeys(Norm, a, a, c);
    Regroup(a);
    if c == ".." && Norm(a).Some? && Norm(a) != Some("/") {
      SameParent(f, a);
    }
  }

  lemma SameParent(f: string -> Option<string>, a: string)
    requires NormLaws(f) && Norm(a).Some? && Norm(a) != Some("/") && f(a) == Norm(a)
    ensures f(a + "/..") == Norm(a + "/..")
  {
    NormProper(a);
    var ps := Fold([], Pieces(a)).value;
    hide Norm, Depth, Print, Fold, Pieces;
    ParentOf(f, a, ps);
    NormObeys();
    ParentOf(Norm, a, ps);
  }

  /** Any function that obeys the laws takes the last component of a printed path away. */
  lemma ParentOf(f: string -> Option<string>, a: string, ps: seq<string>)
    requires NormLaws(f) && AllProper(ps) && |ps| <= DEPTH_MAX && f(a) == Some(Print(ps)) && Print(ps) != "/"
    ensures ps != [] && f(a + "/..") == Some(Print(ps[..|ps| - 1]))
  {
    hide Depth, Print;
    PrintDepth(ps);
    var n := |ps| - 1;
    var qs, c := ps[..n], ps[n];
    assert ps == qs + [c];
    PrintedFixed(f, ps);
    PrintedFixed(f, qs);
    PrintMore(qs, c);
    PrintDepth(qs);
    var dir := if qs == [] then "" else Print(qs);
    assert "" + "/" + c == "/" + c;
    assert Print(ps) == dir + "/" + c;
    assert Obeys(f, dir, "", c) && Obeys(f, a, Print(ps), "..");
    Regroup(a);
    Regroup(Print(ps));
  }

  /** Nothing but normalisation obeys the laws. */
  lemma {:induction false} NormIsOnly(f: string -> Option<string>, s: string)
    requires NormLaws(f)
    ensures f(s) == Norm(s)
    decreases |s|
  {
    hide Norm, Depth, Obeys;
    if '/' in s {
      var a, c := SplitLast(s);
      NormIsOnly(f, a);
      SamePiece(f, a, c);
    } else {
      FirstPiece(f, s);
      NormObeys();
      FirstPiece(Norm, s);
      SamePiece(f, "", s);
    }
  }

  lemma FirstPiece(f: string -> Option<string>, c: string)
    requires NormLaws(f)
    ensures f("") == Some("/") && f(c) == f("" + "/" + c)
  {
    assert Obeys(f, "", "", c);
    assert "" + "/" + c == "/" + c;
  }
}
