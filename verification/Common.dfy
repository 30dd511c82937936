/** Types shared by every component of the kernel model. */
module Common {

  datatype Option<+T> = None | Some(value: T)

  /** The NTSTATUS codes that the modelled calls return. */
  datatype Status =
    | Success
    | Abandoned
    | Timeout
    | InvalidParameter
    | InvalidHandle
    | AccessDenied
    | AccessViolation
    | ConflictingAddresses
    | InvalidPageProtection
    | InsufficientResources
    | NoMemory
    | ObjectTypeMismatch
    | MutantNotOwned
    | EndOfFile
    | NameTooLong
    | NoSuchFile
    | PathNotFound
    | NameCollision
    | FileIsADirectory
    | NotADirectory
    | CannotDelete

  newtype byte = x: int | 0 <= x < 0x100

  const PAGE: int := 4096

  function Pow2(k: nat): (r: nat)
    ensures r >= 1
  {
    if k == 0 then 1 else 2 * Pow2(k - 1)
  }

  /** No element twice. */
  ghost predicate NoDup<T>(l: seq<T>) {
    forall i, j :: 0 <= i < j < |l| ==> l[i] != l[j]
  }

  ghost function Elems<T>(l: seq<T>): set<T> { set x | x in l }

  /** The list without the first occurrence of an element. */
  function Unlisted<T(==)>(l: seq<T>, x: T): seq<T> {
    if l == [] then [] else if l[0] == x then l[1..] else [l[0]] + Unlisted(l[1..], x)
  }

  lemma {:induction false} UnlistedMember<T>(l: seq<T>, x: T, y: T)
    requires NoDup(l)
    ensures y in Unlisted(l, x) <==> y in l && y != x
  {
    if l != [] {
      var t := l[1..];
      assert forall i :: 0 <= i < |t| ==> t[i] == l[i + 1];
      assert l == [l[0]] + t;
      if l[0] != x {
        UnlistedMember(t, x, y);
      }
    }
  }

  lemma {:induction false} UnlistedNoDup<T>(l: seq<T>, x: T)
    requires NoDup(l)
    ensures NoDup(Unlisted(l, x))
  {
    if l != [] {
      var t := l[1..];
      assert forall i :: 0 <= i < |t| ==> t[i] == l[i + 1];
      UnlistedNoDup(t, x);
      UnlistedMember(t, x, l[0]);
    }
  }

  /** Gives bounds on a bound variable something to be found by. */
  predicate Within(j: int, lo: int, hi: int) { lo <= j < hi }

  ghost function Interval(lo: int, hi: int): (s: set<int>)
    ensures forall j :: j in s <==> lo <= j < hi
  {
    set j: int | lo <= j < hi && Within(j, lo, hi)
  }

  lemma {:induction false} IntervalSize(lo: int, hi: int)
    requires lo <= hi
    ensures |Interval(lo, hi)| == hi - lo
    decreases hi - lo
  {
    if lo < hi {
      IntervalSize(lo, hi - 1);
      assert Interval(lo, hi) == Interval(lo, hi - 1) + {hi - 1};
    } else {
      assert Interval(lo, hi) == {};
    }
  }
}
