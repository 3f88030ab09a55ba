/** The Gray code of `srs::common`, for unsigned values of any width. */
module Gray {
  import opened Bits

  function BinaryToGray(bin: Bitset): (r: Bitset)
    ensures |r| == |bin|
  {
    Xor(bin, Shr(bin, 1))
  }

  /** What decoding means: every bit is the parity of the code bits from its position upwards. */
  function Decoded(gray: Bitset): (r: Bitset)
    ensures |r| == |gray|
  {
    if gray == [] then []
    else
      var upper := Decoded(gray[1..]);
      [gray[0] != (upper != [] && upper[0])] + upper
  }

  /** `gray_to_binary`: fold the shifted code into the value until the code is used up. */
  method GrayToBinary(gray: Bitset) returns (bin: Bitset)
    ensures bin == Decoded(gray)
  {
    var rest := gray;
    bin := gray;
    CodeOfDecoded(gray);
    XorCancels(gray);
    while true in rest
      invariant |rest| == |bin| == |gray|
      invariant Decoded(gray) == Xor(bin, Shr(Decoded(rest), 1))
      decreases ToNat(rest)
    {
      ghost var before := rest;
      rest := Shr(rest, 1);
      ghost var acc := bin;
      bin := Xor(bin, rest);
      FoldStep(before, acc);
      ShrHalves(before);
    }
    DecodedOfZero(rest);
    assert bin == Xor(bin, Shr(Decoded(rest), 1));
  }

  lemma ShrHalves(b: Bitset)
    requires true in b
    ensures ToNat(Shr(b, 1)) < ToNat(b)
  {
    if |b| == 1 {
      assert Shr(b, 1) == [false];
      assert ToNat([false]) == 2 * ToNat([]);
    } else {
      AppendFalse(b[1..]);
      PositiveNumber(b);
      assert Shr(b, 1) == b[1..] + [false];
    }
  }

  lemma {:induction false} AppendFalse(b: Bitset)
    ensures ToNat(b + [false]) == ToNat(b)
  {
    if b == [] {
      assert ToNat([false]) == 2 * ToNat([]);
    } else {
      AppendFalse(b[1..]);
      assert (b + [false])[1..] == b[1..] + [false];
    }
  }

  lemma {:induction false} PositiveNumber(b: Bitset)
    requires true in b
    ensures ToNat(b) > 0
  {
    if !b[0] {
      PositiveNumber(b[1..]);
    }
  }

  lemma {:induction false} DecodedOfZero(b: Bitset)
    requires true !in b
    ensures Decoded(b) == b
  {
    if b == [] {
    } else {
      DecodedOfZero(b[1..]);
    }
  }

  lemma XorCancels(gray: Bitset)
    requires BinaryToGray(Decoded(gray)) == gray
    ensures Decoded(gray) == Xor(gray, Shr(Decoded(gray), 1))
  {
    var d := Decoded(gray);
    forall i | 0 <= i < |gray|
      ensures d[i] == (gray[i] != Shr(d, 1)[i])
    {
      assert gray[i] == BinaryToGray(d)[i] == (d[i] != Shr(d, 1)[i]);
    }
  }

  lemma {:induction false} DecodedOfShift(b: Bitset)
    ensures Decoded(Shr(b, 1)) == Shr(Decoded(b), 1)
  {
    if b == [] {
    } else {
      DecodedAppendFalse(b[1..]);
      assert Shr(b, 1) == b[1..] + [false];
      assert Decoded(b)[1..] == Decoded(b[1..]);
    }
  }

  lemma {:induction false} DecodedAppendFalse(b: Bitset)
    ensures Decoded(b + [false]) == Decoded(b) + [false]
  {
    if b == [] {
      assert Decoded([false]) == [false] + Decoded([]);
    } else {
      DecodedAppendFalse(b[1..]);
      assert b + [false] == [b[0]] + (b[1..] + [false]);
      assert (b + [false])[1..] == b[1..] + [false];
    }
  }

  lemma XorAssociates(a: Bitset, b: Bitset, c: Bitset)
    requires |a| == |b| == |c|
    ensures Xor(Xor(a, b), c) == Xor(a, Xor(b, c))
  {
  }

  lemma FoldStep(rest: Bitset, bin: Bitset)
    requires |rest| == |bin|
    ensures Xor(bin, Shr(Decoded(rest), 1))
         == Xor(Xor(bin, Shr(rest, 1)), Shr(Decoded(Shr(rest, 1)), 1))
  {
    var next := Shr(rest, 1);
    DecodedOfShift(rest);
    CodeOfDecoded(next);
    XorCancels(next);
    XorAssociates(bin, next, Shr(Decoded(next), 1));
  }

  // ----- the two directions

  /** One code bit at a time, from the least significant end. */
  lemma GrayUnfold(bin: Bitset)
    requires bin != []
    ensures BinaryToGray(bin) == [bin[0] != (|bin| > 1 && bin[1])] + BinaryToGray(bin[1..])
  {
    var l, r := BinaryToGray(bin), BinaryToGray(bin[1..]);
    forall i | 1 <= i < |bin|
      ensures l[i] == r[i - 1]
    {
    }
  }

  /** Encoding undoes decoding, at every width. */
  lemma {:induction false} CodeOfDecoded(gray: Bitset)
    ensures BinaryToGray(Decoded(gray)) == gray
  {
    if gray == [] {
    } else {
      CodeOfDecoded(gray[1..]);
      GrayUnfold(Decoded(gray));
      assert Decoded(gray)[1..] == Decoded(gray[1..]);
    }
  }

  /** Decoding undoes encoding, at every width. */
  lemma {:induction false} DecodedOfCode(bin: Bitset)
    ensures Decoded(BinaryToGray(bin)) == bin
  {
    if bin == [] {
    } else {
      DecodedOfCode(bin[1..]);
      GrayUnfold(bin);
      assert BinaryToGray(bin)[1..] == BinaryToGray(bin[1..]);
    }
  }

  // ----- values that are narrower than their type

  /** Coding a value in a wider type changes nothing: the added high bits stay clear both ways. */
  lemma WidthKept(b: Bitset, extra: nat)
    ensures BinaryToGray(b + Zeros(extra)) == BinaryToGray(b) + Zeros(extra)
    ensures Decoded(b + Zeros(extra)) == Decoded(b) + Zeros(extra)
  {
    CodeOfWide(b, extra);
    CodeOfDecoded(b);
    CodeOfWide(Decoded(b), extra);
    DecodedOfCode(Decoded(b) + Zeros(extra));
  }

  lemma CodeOfWide(b: Bitset, extra: nat)
    ensures BinaryToGray(b + Zeros(extra)) == BinaryToGray(b) + Zeros(extra)
  {
    var wide := b + Zeros(extra);
    forall i | 0 <= i < |wide|
      ensures BinaryToGray(wide)[i] == (BinaryToGray(b) + Zeros(extra))[i]
    {
      assert Shr(wide, 1)[i] == (i + 1 < |b| && b[i + 1]);
    }
  }

  // ----- one bit per step

  /** The number of positions at which two values differ. */
  function Distance(a: Bitset, b: Bitset): nat
    requires |a| == |b|
  {
    if a == [] then 0 else (if a[0] != b[0] then 1 else 0) + Distance(a[1..], b[1..])
  }

  lemma {:induction false} DistanceToSelf(a: Bitset)
    ensures Distance(a, a) == 0
  {
    if a == [] {
    } else {
      DistanceToSelf(a[1..]);
    }
  }

  /** A number's code: its lowest bit against the next, then the code of the upper bits. */
  lemma CodeOfNumber(n: nat, w: nat)
    requires w > 0
    ensures var upper := ToBits(n / 2, w - 1);
            BinaryToGray(ToBits(n, w)) == [(n % 2 == 1) != (upper != [] && upper[0])] + BinaryToGray(upper)
  {
    var b := ToBits(n, w);
    assert b[1..] == ToBits(n / 2, w - 1);
    GrayUnfold(b);
  }

  lemma DistancePush(x: bool, a: Bitset, y: bool, b: Bitset)
    requires |a| == |b|
    ensures Distance([x] + a, [y] + b) == (if x != y then 1 else 0) + Distance(a, b)
  {
    assert ([x] + a)[1..] == a && ([y] + b)[1..] == b;
  }

  /** The distance of two codes from the lowest bits and the distance of the upper codes. */
  lemma DistanceOfCodes(n: nat, m: nat, w: nat)
    requires w > 0
    ensures var a, b := ToBits(n / 2, w - 1), ToBits(m / 2, w - 1);
            Distance(BinaryToGray(ToBits(n, w)), BinaryToGray(ToBits(m, w)))
            == (if ((n % 2 == 1) != (a != [] && a[0])) != ((m % 2 == 1) != (b != [] && b[0])) then 1 else 0)
               + Distance(BinaryToGray(a), BinaryToGray(b))
  {
    var a, b := ToBits(n / 2, w - 1), ToBits(m / 2, w - 1);
    CodeOfNumber(n, w);
    CodeOfNumber(m, w);
    DistancePush((n % 2 == 1) != (a != [] && a[0]), BinaryToGray(a),
                 (m % 2 == 1) != (b != [] && b[0]), BinaryToGray(b));
  }

  function Apart(n: nat, m: nat, w: nat): nat {
    Distance(BinaryToGray(ToBits(n, w)), BinaryToGray(ToBits(m, w)))
  }

  lemma EvenStep(n: nat, w: nat)
    requires w > 0 && n % 2 == 0
    ensures Apart(n, n + 1, w) == 1
  {
    DistanceOfCodes(n, n + 1, w);
    HalfOfNext(n);
    DistanceToSelf(BinaryToGray(ToBits(n / 2, w - 1)));
  }

  lemma OddStep(n: nat, w: nat)
    requires w > 1 && n % 2 == 1
    ensures Apart(n, n + 1, w) == Apart(n / 2, n / 2 + 1, w - 1)
  {
    DistanceOfCodes(n, n + 1, w);
    HalfOfNext(n);
    LowestBitFlips(n / 2, w - 1);
  }

  /** The codes of neighbouring numbers differ in exactly one bit. */
  lemma {:induction false} NeighboursDifferInOneBit(n: nat, w: nat)
    requires n + 1 < Pow2(w)
    ensures Distance(BinaryToGray(ToBits(n, w)), BinaryToGray(ToBits(n + 1, w))) == 1
  {
    if n % 2 == 0 {
      EvenStep(n, w);
    } else {
      OddStep(n, w);
      NeighboursDifferInOneBit(n / 2, w - 1);
    }
  }

  lemma HalfOfNext(n: nat)
    ensures (n + 1) / 2 == n / 2 + n % 2 && (n + 1) % 2 == 1 - n % 2
  {
  }

  lemma LowestBit(n: nat, w: nat)
    requires w > 0
    ensures ToBits(n, w)[0] == (n % 2 == 1)
  {
  }

  lemma LowestBitFlips(n: nat, w: nat)
    requires w > 0
    ensures ToBits(n, w)[0] == (n % 2 == 1) && ToBits(n + 1, w)[0] == (n % 2 == 0)
  {
    LowestBit(n, w);
    LowestBit(n + 1, w);
    HalfOfNext(n);
  }
}
