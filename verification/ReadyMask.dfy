/**
 The ready mask as the scheduler keeps it: one 32-bit word with a bit for each priority, and the search for its
 highest set bit.
 */
module ReadyMask {
  import opened Common
  import opened KernelState

  type Word = w: nat | w < 0x1_0000_0000 witness 0

  lemma WordLimit()
    ensures Pow2(LEVELS) == 0x1_0000_0000
  {
    assert Pow2(8) == 0x100;
    assert Pow2(16) == 0x1_0000;
    assert Pow2(24) == 0x100_0000;
  }

  predicate Bit(w: nat, i: nat)
    decreases i
  {
    if i == 0 then w % 2 == 1 else Bit(w / 2, i - 1)
  }

  /** `w | (1 << i)`. */
  function WithBit(w: nat, i: nat): (r: nat)
    ensures r == if Bit(w, i) then w else w + Pow2(i)
    decreases i
  {
    if i == 0 then w - w % 2 + 1 else 2 * WithBit(w / 2, i - 1) + w % 2
  }

  /** `w & ~(1 << i)`. */
  function WithoutBit(w: nat, i: nat): (r: nat)
    ensures r == if Bit(w, i) then w - Pow2(i) else w
    decreases i
  {
    if i == 0 then w - w % 2 else 2 * WithoutBit(w / 2, i - 1) + w % 2
  }

  /** `31 - clz(w)`. */
  function Highest(w: nat): nat
    requires w > 0
  {
    if w == 1 then 0 else 1 + Highest(w / 2)
  }

  /** The word as the scheduler's model sees it. */
  function Bits(w: nat): Mask { seq(LEVELS, i requires 0 <= i => Bit(w, i)) }

  lemma {:induction false} SetBit(w: nat, i: nat, j: nat)
    ensures Bit(WithBit(w, i), j) == (i == j || Bit(w, j))
    decreases i
  {
    hide Pow2;
    if i > 0 && j > 0 {
      SetBit(w / 2, i - 1, j - 1);
      Halved(WithBit(w / 2, i - 1), w % 2);
    }
  }

  lemma {:induction false} ClearBit(w: nat, i: nat, j: nat)
    ensures Bit(WithoutBit(w, i), j) == (i != j && Bit(w, j))
    decreases i
  {
    hide Pow2;
    if i > 0 && j > 0 {
      ClearBit(w / 2, i - 1, j - 1);
      Halved(WithoutBit(w / 2, i - 1), w % 2);
    }
  }

  lemma Halved(a: nat, b: nat)
    requires b < 2
    ensures (2 * a + b) / 2 == a && (2 * a + b) % 2 == b
  {
  }

  lemma {:induction false} StaysInWord(w: nat, i: nat, k: nat)
    requires w < Pow2(k) && i < k
    ensures WithBit(w, i) < Pow2(k) && WithoutBit(w, i) < Pow2(k)
    decreases i
  {
    if i > 0 {
      StaysInWord(w / 2, i - 1, k - 1);
    }
  }

  /** Setting and clearing a bit of the word sets and clears that bit of the mask and no other. */
  lemma EditBit(w: Word, p: Prio)
    ensures WithBit(w, p) < 0x1_0000_0000 && Bits(WithBit(w, p)) == Bits(w)[p := true]
    ensures WithoutBit(w, p) < 0x1_0000_0000 && Bits(WithoutBit(w, p)) == Bits(w)[p := false]
  {
    hide WithBit, WithoutBit, Bit, Pow2;
    WordLimit();
    StaysInWord(w, p, LEVELS);
    forall j | 0 <= j < LEVELS
      ensures Bits(WithBit(w, p))[j] == Bits(w)[p := true][j] && Bits(WithoutBit(w, p))[j] == Bits(w)[p := false][j]
    {
      SetBit(w, p, j);
      ClearBit(w, p, j);
    }
  }

  lemma {:induction false} TopBit(w: nat, k: nat, j: nat)
    requires 0 < w < Pow2(k)
    ensures Highest(w) < k && Bit(w, Highest(w)) && (j > Highest(w) ==> !Bit(w, j))
    decreases w
  {
    if w > 1 {
      TopBit(w / 2, k - 1, if j > 0 then j - 1 else 0);
    } else if j > 0 {
      NoBits(j - 1);
    }
  }

  lemma {:induction false} NoBits(j: nat)
    ensures !Bit(0, j)
  {
    if j > 0 {
      NoBits(j - 1);
    }
  }

  /** The search finds the highest set bit of the mask. */
  lemma TopIsHighest(w: Word)
    ensures HighestBit(Bits(w), LEVELS) == if w == 0 then None else Some(Highest(w))
  {
    hide Bit, Highest, Pow2;
    if w == 0 {
      forall j: nat ensures !Bit(w, j) {
        NoBits(j);
      }
      NoneBelow(Bits(w), LEVELS);
    } else {
      WordLimit();
      TopBit(w, LEVELS, 0);
      forall j: nat ensures Highest(w) < LEVELS && Bit(w, Highest(w)) && (j > Highest(w) ==> !Bit(w, j)) {
        TopBit(w, LEVELS, j);
      }
      HighestIs(Bits(w), Highest(w), LEVELS);
    }
  }

  lemma {:induction false} HighestSet(m: Mask, n: nat)
    requires n <= LEVELS && HighestBit(m, n).Some?
    ensures m[HighestBit(m, n).value]
  {
    if !m[n - 1] {
      HighestSet(m, n - 1);
    }
  }

  lemma {:induction false} NoneBelow(m: Mask, n: nat)
    requires n <= LEVELS && forall j :: 0 <= j < n ==> !m[j]
    ensures HighestBit(m, n) == None
  {
    if n > 0 {
      NoneBelow(m, n - 1);
    }
  }

  lemma {:induction false} HighestIs(m: Mask, p: nat, n: nat)
    requires p < n <= LEVELS && m[p] && forall j :: p < j < n ==> !m[j]
    ensures HighestBit(m, n) == Some(p)
  {
    if n > p + 1 {
      HighestIs(m, p, n - 1);
    }
  }
}
