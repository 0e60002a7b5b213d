/** Machine words as sequences of bits, most significant first: masking, shifting and byte order. */
module Bits {
  type Word = seq<bool>

  function Zeros(n: nat): (w: Word)
    ensures |w| == n && forall i | 0 <= i < n :: !w[i]
  {
    seq(n, i => false)
  }

  /** & */
  function And(a: Word, b: Word): (c: Word)
    requires |a| == |b|
    ensures |c| == |a| && forall i | 0 <= i < |c| :: c[i] == (a[i] && b[i])
  {
    seq(|a|, i requires 0 <= i < |a| => a[i] && b[i])
  }

  /** << 1 within the width */
  function ShiftLeft(w: Word): (r: Word)
    requires w != []
    ensures |r| == |w|
  {
    w[1..] + [false]
  }

  function Value(w: Word): nat {
    if w == [] then 0 else 2 * Value(w[..|w| - 1]) + if w[|w| - 1] then 1 else 0
  }

  function Pow2(n: nat): (p: nat)
    ensures p > 0
  {
    if n == 0 then 1 else 2 * Pow2(n - 1)
  }

  lemma {:induction false} ValueOfCons(b: bool, w: Word)
    ensures Value([b] + w) == (if b then Pow2(|w|) else 0) + Value(w) && Value(w) < Pow2(|w|)
  {
    if w != [] {
      ValueOfCons(b, w[..|w| - 1]);
      assert ([b] + w)[..|w|] == [b] + w[..|w| - 1];
    } else {
      assert ([b] + w)[..0] == [];
    }
  }

  lemma {:induction false} ValueOfConcat(a: Word, b: Word)
    ensures Value(a + b) == Value(a) * Pow2(|b|) + Value(b)
  {
    if b == [] {
      assert a + b == a;
    } else {
      var front := b[..|b| - 1];
      ValueOfConcat(a, front);
      assert (a + b)[..|a + b| - 1] == a + front;
      var bit := if b[|b| - 1] then 1 else 0;
      assert Value(a + b) == 2 * Value(a + front) + bit;
      assert Value(b) == 2 * Value(front) + bit;
      hide Value;
      Doubled(Value(a), Pow2(|front|));
    }
  }

  /** Words of one width with the same value are the same. */
  lemma {:induction false} ValueDetermines(a: Word, b: Word)
    requires |a| == |b| && Value(a) == Value(b)
    ensures a == b
  {
    if a != [] {
      ValueDetermines(a[..|a| - 1], b[..|b| - 1]);
      assert a == a[..|a| - 1] + [a[|a| - 1]] && b == b[..|b| - 1] + [b[|b| - 1]];
    }
  }

  lemma Doubled(x: nat, y: nat)
    ensures x * (2 * y) == 2 * (x * y)
  {
  }

  /** A word is zero exactly when no bit is set, and shifting doubles it modulo the width. */
  lemma {:induction false} ShiftDoubles(w: Word)
    requires w != []
    ensures Value(ShiftLeft(w)) == 2 * Value(w) % Pow2(|w|)
  {
    assert ShiftLeft(w)[..|w| - 1] == w[1..];
    assert w == [w[0]] + w[1..];
    ValueOfCons(w[0], w[1..]);
    var half, v := Pow2(|w| - 1), Value(w[1..]);
    assert Pow2(|w|) == 2 * half;
    hide *;
    Wrapped(w[0], half, v);
  }

  lemma Wrapped(carry: bool, half: nat, v: nat)
    requires v < half
    ensures 2 * ((if carry then half else 0) + v) % (2 * half) == 2 * v
  {
    Remainder(2 * ((if carry then half else 0) + v), 2 * half, if carry then 1 else 0, 2 * v);
  }

  lemma Remainder(x: nat, d: nat, q: nat, r: nat)
    requires x == d * q + r && r < d
    ensures x % d == r
  {
    var k := x / d - q;
    assert d * k == r - x % d;
    assert k >= 1 ==> d * k >= d;
    assert k <= -1 ==> d * k + d <= 0;
  }

  lemma {:induction false} ZeroIsNoBit(w: Word)
    ensures Value(w) == 0 <==> true !in w
  {
    if w != [] {
      ZeroIsNoBit(w[..|w| - 1]);
      assert w == w[..|w| - 1] + [w[|w| - 1]];
    }
  }

  // ------------------------------------------------- byte order

  predicate Octets(w: Word) { |w| % 8 == 0 }

  /** The octets in reverse order. */
  function Swap(w: Word): (r: Word)
    requires Octets(w)
    ensures |r| == |w|
  {
    if w == [] then [] else Swap(w[8..]) + w[..8]
  }

  /** Where each bit goes: octets in reverse order, bits in an octet as they were. */
  lemma {:induction false} SwapAt(w: Word, i: nat)
    requires Octets(w) && i < |w|
    ensures Mirror(|w|, i) < |w| && Swap(w)[i] == w[Mirror(|w|, i)]
    ensures Swap(w)[i] == w[|w| - 8 - i / 8 * 8 + i % 8]
  {
    if i < |w| - 8 {
      SwapAt(w[8..], i);
      assert Swap(w)[i] == Swap(w[8..])[i];
      assert Mirror(|w|, i) == 8 + Mirror(|w| - 8, i);
    }
  }

  function Mirror(n: nat, i: nat): (j: nat)
    requires n % 8 == 0 && i < n
    ensures j < n
  {
    n - 8 - i / 8 * 8 + i % 8
  }

  lemma MirrorTwice(n: nat, i: nat)
    requires n % 8 == 0 && i < n
    ensures Mirror(n, Mirror(n, i)) == i
  {
    assert Mirror(n, i) / 8 == n / 8 - 1 - i / 8;
  }

  lemma SwapTwice(w: Word)
    requires Octets(w)
    ensures Swap(Swap(w)) == w
  {
    forall i | 0 <= i < |w| ensures Swap(Swap(w))[i] == w[i] {
      SwapAt(Swap(w), i);
      SwapAt(w, Mirror(|w|, i));
      MirrorTwice(|w|, i);
    }
  }

  lemma SwapAnd(a: Word, b: Word)
    requires Octets(a) && |a| == |b|
    ensures And(Swap(a), Swap(b)) == Swap(And(a, b))
  {
    forall i | 0 <= i < |a| ensures And(Swap(a), Swap(b))[i] == Swap(And(a, b))[i] {
      SwapAt(a, i);
      SwapAt(b, i);
      SwapAt(And(a, b), i);
    }
  }

  /** htonl and ntohl: the machine's byte order decides. */
  function Hton(w: Word, littleEndian: bool): (r: Word)
    requires Octets(w)
    ensures |r| == |w|
  {
    if littleEndian then Swap(w) else w
  }

  /** On either machine the two conversions undo each other, and masking commutes with them. */
  lemma ByteOrder(a: Word, b: Word, littleEndian: bool)
    requires Octets(a) && |a| == |b|
    ensures Hton(Hton(a, littleEndian), littleEndian) == a
    ensures And(Hton(a, littleEndian), Hton(b, littleEndian)) == Hton(And(a, b), littleEndian)
  {
    SwapTwice(a);
    SwapAnd(a, b);
  }

  // ------------------------------------------------- prefixes

  /** The mask of a CIDR prefix length (RFC 4632, section 3.1). */
  function PrefixMask(width: nat, p: nat): (m: Word)
    requires p <= width
    ensures |m| == width && forall i | 0 <= i < width :: m[i] <==> i < p
  {
    seq(width, i => i < p)
  }

  ghost predicate Contiguous(m: Word) {
    exists p :: 0 <= p <= |m| && m == PrefixMask(|m|, p)
  }

  /** Width minus trailing zeros; 0 for an all-zero word. */
  function PrefixLength(m: Word): (p: nat)
    ensures p <= |m|
    ensures p == 0 || m[p - 1]
    ensures forall i | p <= i < |m| :: !m[i]
  {
    if m == [] then 0
    else if m[|m| - 1] then |m|
    else PrefixLength(m[..|m| - 1])
  }

  function Ones(m: Word): (n: nat)
    ensures n <= |m|
  {
    if m == [] then 0 else Ones(m[..|m| - 1]) + if m[|m| - 1] then 1 else 0
  }

  /** What is left of a word after k shifts. */
  function Shifted(w: Word, k: nat): (r: Word)
    requires k <= |w|
    ensures |r| == |w|
  {
    w[k..] + Zeros(k)
  }

  lemma ShiftOnce(w: Word, k: nat)
    requires k < |w|
    ensures ShiftLeft(Shifted(w, k)) == Shifted(w, k + 1)
  {
    assert Zeros(k) + [false] == Zeros(k + 1);
  }

  /** Bits are left exactly as long as there were fewer shifts than the prefix is long. */
  lemma BitsLeft(w: Word, k: nat)
    requires k <= |w|
    ensures true in Shifted(w, k) <==> k < PrefixLength(w)
  {
    hide PrefixLength;
    var p := PrefixLength(w);
    if k < p {
      assert Shifted(w, k)[p - 1 - k] == w[p - 1];
    }
  }

  /** The loop of get_mask_prefix on a word of any width: it ends after as many shifts as the
      prefix is long. */
  method CountShifts(word: Word) returns (prefix: nat)
    ensures prefix == PrefixLength(word)
  {
    hide PrefixLength, Shifted, ShiftLeft, Value;
    var mask := word;
    prefix := 0;
    assert mask == Shifted(word, 0) by { NoShift(word); }
    ZeroIsNoBit(mask);
    while Value(mask) != 0
      invariant prefix <= PrefixLength(word) && mask == Shifted(word, prefix)
      invariant Value(mask) == 0 <==> true !in mask
      decreases |word| - prefix
    {
      BitsLeft(word, prefix);
      ShiftOnce(word, prefix);
      mask := ShiftLeft(mask);
      prefix := prefix + 1;
      ZeroIsNoBit(mask);
    }
    BitsLeft(word, prefix);
  }

  lemma NoShift(w: Word)
    ensures Shifted(w, 0) == w
  {
  }

  /** The prefix length counts the one bits exactly when the mask is contiguous, and then the
      mask can be rebuilt from it. */
  lemma PrefixCountsOnes(m: Word)
    ensures Ones(m) <= PrefixLength(m)
    ensures Ones(m) == PrefixLength(m) <==> Contiguous(m)
    ensures Contiguous(m) ==> m == PrefixMask(|m|, PrefixLength(m))
  {
    hide PrefixLength, Ones, PrefixMask;
    OnesOfPrefix(m);
    if Contiguous(m) {
      var p :| 0 <= p <= |m| && m == PrefixMask(|m|, p);
      MaskLength(m, p);
    }
  }

  lemma MaskLength(m: Word, p: nat)
    requires p <= |m| && m == PrefixMask(|m|, p)
    ensures PrefixLength(m) == p
  {
    hide PrefixLength;
    var q := PrefixLength(m);
    assert q < |m| ==> (m[q] <==> q < p);
    assert q > 0 ==> (m[q - 1] <==> q - 1 < p);
  }

  lemma {:induction false} OnesOfPrefix(m: Word)
    ensures Ones(m) <= PrefixLength(m)
    ensures Ones(m) == PrefixLength(m) <==> m == PrefixMask(|m|, PrefixLength(m))
  {
    if m != [] {
      var front := m[..|m| - 1];
      assert m == front + [m[|m| - 1]];
      OnesOfPrefix(front);
      if m[|m| - 1] {
        if Ones(m) == |m| {
          assert front == PrefixMask(|front|, |front|);
        }
        if m == PrefixMask(|m|, |m|) {
          assert front == PrefixMask(|front|, |front|);
          assert PrefixLength(front) == |front|;
        }
      } else {
        assert PrefixLength(m) == PrefixLength(front);
        assert m == PrefixMask(|m|, PrefixLength(m)) <==> front == PrefixMask(|front|, PrefixLength(front)) by {
          var p := PrefixLength(m);
          assert PrefixMask(|m|, p) == PrefixMask(|front|, p) + [false];
        }
      }
    }
  }

  /** The prefix length of the mask of a prefix, and its number of one bits. */
  lemma PrefixMaskRoundTrip(width: nat, p: nat)
    requires p <= width
    ensures PrefixLength(PrefixMask(width, p)) == Ones(PrefixMask(width, p)) == p
  {
    MaskLength(PrefixMask(width, p), p);
    PrefixCountsOnes(PrefixMask(width, p));
  }

  ghost predicate SameNet(a: Word, b: Word, mask: Word)
    requires |a| == |b| == |mask|
  {
    And(a, mask) == And(b, mask)
  }

  /** Addresses that agree on the prefix are always in the same net. */
  lemma PrefixSuffices(a: Word, b: Word, mask: Word)
    requires |a| == |b| == |mask|
    requires a[..PrefixLength(mask)] == b[..PrefixLength(mask)]
    ensures SameNet(a, b, mask)
  {
    forall i | 0 <= i < |a| ensures And(a, mask)[i] == And(b, mask)[i] {
      if i < PrefixLength(mask) {
        assert a[..PrefixLength(mask)][i] == b[..PrefixLength(mask)][i];
      }
    }
  }

  /** The converse for all addresses is what contiguous masks, and only they, have. */
  lemma PrefixDecidesIff(mask: Word)
    ensures Contiguous(mask) <==>
            forall a, b | |a| == |b| == |mask| ::
              SameNet(a, b, mask) <==> a[..PrefixLength(mask)] == b[..PrefixLength(mask)]
  {
    hide PrefixLength, Contiguous, SameNet;
    var p := PrefixLength(mask);
    if Contiguous(mask) {
      forall a, b | |a| == |b| == |mask|
        ensures SameNet(a, b, mask) <==> a[..p] == b[..p]
      {
        ContiguousDecides(a, b, mask);
      }
    } else {
      var a, b := HoleSeparates(mask);
    }
  }

  /** A mask with a hole: two addresses that differ in the hole are taken to be in the same net. */
  lemma HoleSeparates(mask: Word) returns (a: Word, b: Word)
    requires !Contiguous(mask)
    ensures |a| == |b| == |mask| && SameNet(a, b, mask)
    ensures a[..PrefixLength(mask)] != b[..PrefixLength(mask)]
  {
    hide PrefixLength;
    var p := PrefixLength(mask);
    assert mask != PrefixMask(|mask|, p);
    var i :| 0 <= i < p && !mask[i];
    a, b := Zeros(|mask|), Zeros(|mask|)[i := true];
    assert And(a, mask) == And(b, mask);
    assert !a[..p][i] && b[..p][i];
  }

  lemma ContiguousDecides(a: Word, b: Word, mask: Word)
    requires |a| == |b| == |mask| && Contiguous(mask)
    ensures SameNet(a, b, mask) <==> a[..PrefixLength(mask)] == b[..PrefixLength(mask)]
  {
    var p := PrefixLength(mask);
    PrefixCountsOnes(mask);
    if SameNet(a, b, mask) {
      forall i | 0 <= i < p ensures a[i] == b[i] {
        assert And(a, mask)[i] == And(b, mask)[i];
      }
    }
    if a[..p] == b[..p] { PrefixSuffices(a, b, mask); }
  }
}
