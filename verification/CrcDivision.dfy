/**
 What the checksum is: the remainder of the text, as a binary polynomial, on division by
 x^16 + x^12 + x^5 + 1, with all ones in the register to start with.
 */
module CrcDivision {
  import opened Crc16

  const DIVISOR: nat := 0x1_1021

  /** Product without carries. */
  function Times(q: nat, p: nat): nat {
    if q == 0 then 0 else Xor(2 * Times(q / 2, p), if q % 2 == 1 then p else 0)
  }

  /** `r` is what is left of `a` when multiples of the divisor are taken out. */
  ghost predicate Remainder(a: nat, r: nat) {
    r < WORD && exists q: nat :: a == Xor(Times(q, DIVISOR), r)
  }

  /** The text as a number, first character first. */
  function Number(s: string): nat {
    if s == "" then 0 else 256 * Number(s[..|s| - 1]) + s[|s| - 1] as nat
  }

  /** The text with sixteen places after it, its first sixteen places inverted. */
  function Dividend(s: string): nat {
    Xor(0xFFFF * Pow2(8 * |s|), WORD * Number(s))
  }

  // ----- sums and multiples

  lemma {:induction false} TimesAdds(q: nat, r: nat, p: nat)
    ensures Times(Xor(q, r), p) == Xor(Times(q, p), Times(r, p))
    decreases q + r
  {
    if q + r == 0 {
      XorZero(0);
    } else {
      TimesAdds(q / 2, r / 2, p);
      XorUnfold(q, r);
      TimesUnfold(q, p);
      TimesUnfold(r, p);
      TimesUnfold(Xor(q, r), p);
      XorDouble(Times(q / 2, p), Times(r / 2, p));
      XorSwap(2 * Times(q / 2, p), Low(q, p), 2 * Times(r / 2, p), Low(r, p));
      LowAdds(q, r, p);
    }
  }

  function Low(q: nat, p: nat): nat {
    if q % 2 == 1 then p else 0
  }

  lemma TimesUnfold(q: nat, p: nat)
    ensures Times(q, p) == Xor(2 * Times(q / 2, p), Low(q, p))
  {
    XorZero(0);
  }

  lemma LowAdds(q: nat, r: nat, p: nat)
    ensures Low(Xor(q, r), p) == Xor(Low(q, p), Low(r, p))
  {
    XorUnfold(q, r);
    OneOfTwo(q % 2 == 1, r % 2 == 1, p);
  }

  lemma OneOfTwo(a: bool, b: bool, p: nat)
    ensures (if a != b then p else 0) == Xor(if a then p else 0, if b then p else 0)
  {
    if a && b {
      XorSelf(p);
    } else if a {
      XorZero(p);
    } else if b {
      XorCommutes(0, p);
      XorZero(p);
    }
  }

  lemma TimesTwo(q: nat, p: nat)
    ensures Times(2 * q, p) == 2 * Times(q, p)
  {
    TimesUnfold(2 * q, p);
    XorZero(2 * Times(q, p));
  }

  /** `a` and `b` differ by the multiple `q` of the divisor. */
  ghost predicate Same(a: nat, b: nat, q: nat) {
    Xor(a, b) == Times(q, DIVISOR)
  }

  lemma SameDouble(a: nat, b: nat, q: nat)
    requires Same(a, b, q)
    ensures Same(2 * a, 2 * b, 2 * q)
  {
    XorDouble(a, b);
    TimesTwo(q, DIVISOR);
  }

  lemma SamePlus(a: nat, b: nat, q: nat, c: nat)
    requires Same(a, b, q)
    ensures Same(Xor(a, c), Xor(b, c), q)
  {
    XorSwap(a, c, b, c);
    XorSelf(c);
    XorZero(Xor(a, b));
  }

  lemma SameThrough(a: nat, b: nat, c: nat, q: nat, r: nat)
    requires Same(a, b, q) && Same(b, c, r)
    ensures Same(a, c, Xor(q, r))
  {
    TimesAdds(q, r, DIVISOR);
    XorAssociates(Xor(a, b), b, c);
    XorAssociates(a, b, b);
    XorSelf(b);
    XorZero(a);
  }

  // ----- a round takes the divisor out where it fits

  lemma RoundDivides(x: nat) returns (q: nat)
    requires x < WORD
    ensures Same(2 * x, Round(x), q)
  {
    XorSelf(2 * x);
    if x < 0x8000 {
      NothingAdded(x);
      RoundDoubles(x);
      q := 0;
    } else {
      TopRound(x);
      XorAssociates(2 * x, 2 * x, DIVISOR);
      XorCommutes(0, DIVISOR);
      XorZero(DIVISOR);
      q := 1;
      TimesOne(DIVISOR);
    }
  }

  lemma TimesOne(p: nat)
    ensures Times(1, p) == p
  {
    assert Times(0, p) == 0;
    XorCommutes(0, p);
    XorZero(p);
  }

  /** The top bit that falls out is the divisor's own. */
  lemma TopRound(x: nat)
    requires 0x8000 <= x < WORD
    ensures Round(x) == Xor(2 * x, DIVISOR)
  {
    var low := 2 * x - WORD;
    PowValues();
    XorByParts(2 * x, POLYNOMIAL, 1, low, 0, POLYNOMIAL, 16, WORD);
    XorByParts(2 * x, DIVISOR, 1, low, 1, POLYNOMIAL, 16, WORD);
    XorZero(1);
    XorSelf(1);
    AddedHigh(x);
    WordParts(Xor(2 * x, POLYNOMIAL), 1, Xor(low, POLYNOMIAL));
  }

  lemma AddedHigh(x: nat)
    requires 0x8000 <= x < WORD
    ensures Added(x) == POLYNOMIAL
  {
  }

  lemma OneMoreRound(a: nat, reg: nat, q: nat) returns (r: nat)
    requires Same(a, reg, q) && reg < WORD
    ensures Same(2 * a, Round(reg), r) && Round(reg) < WORD
  {
    SameDouble(a, reg, q);
    var last := RoundDivides(reg);
    SameThrough(2 * a, 2 * reg, Round(reg), 2 * q, last);
    r := Xor(2 * q, last);
  }

  lemma {:induction false} RoundsDivide(x: nat, n: nat, p: nat) returns (q: nat)
    requires x < WORD && p == Pow2(n)
    ensures Rounds(x, n) < WORD && Same(x * p, Rounds(x, n), q)
  {
    if n == 0 {
      XorSelf(x);
      q := 0;
    } else {
      var half := Pow2(n - 1);
      var before := RoundsDivide(x, n - 1, half);
      Doubled(x, half);
      q := OneMoreRound(x * half, Rounds(x, n - 1), before);
    }
  }

  lemma Doubled(x: nat, p: nat)
    ensures x * (2 * p) == 2 * (x * p)
  {
  }

  // ----- a byte and then the whole text

  lemma XorScale(x: nat, y: nat, k: nat, p: nat)
    requires p == Pow2(k)
    ensures Xor(x * p, y * p) == Xor(x, y) * p
  {
    XorByParts(x * p, y * p, x, 0, y, 0, k, p);
    XorZero(0);
  }

  lemma {:induction false} SameScale(a: nat, b: nat, q: nat, n: nat) returns (r: nat)
    requires Same(a, b, q)
    ensures Same(a * Pow2(n), b * Pow2(n), r)
  {
    if n == 0 {
      r := q;
    } else {
      var before := SameScale(a, b, q, n - 1);
      SameDouble(a * Pow2(n - 1), b * Pow2(n - 1), before);
      Doubled(a, Pow2(n - 1));
      Doubled(b, Pow2(n - 1));
      r := 2 * before;
    }
  }

  /** With `a` for the text so far, one more byte gives `Xor(a * 256, byte * 65536)`. */
  lemma ByteDivides(a: nat, reg: nat, q: nat, byte: nat, n: nat) returns (r: nat)
    requires Same(a, reg, q) && reg < WORD && byte < 256 && Pow2(n) == 256
    ensures Feed(reg, byte, n) < WORD && Same(Xor(a * 256, byte * WORD), Feed(reg, byte, n), r)
  {
    FeedInWord(reg, reg, byte, n);
    XorInWord(reg, 256 * byte);
    var scaled := SameScale(a, reg, q, n);
    SamePlus(a * 256, reg * 256, scaled, byte * WORD);
    XorScale(reg, 256 * byte, n, 256);
    var rounds := RoundsDivide(Xor(reg, 256 * byte), n, 256);
    SameThrough(Xor(a * 256, byte * WORD), Xor(reg, 256 * byte) * 256, Feed(reg, byte, n), scaled, rounds);
    r := Xor(scaled, rounds);
  }

  /** What the register stands for after the text: its start moved up by the text, and the text. */
  function Standing(reg: nat, s: string): nat {
    Xor(reg * Pow2(8 * |s|), WORD * Number(s))
  }

  lemma PowEight(n: nat)
    ensures Pow2(n + 8) == 256 * Pow2(n)
  {
    assert Pow2(n + 2) == 4 * Pow2(n);
    assert Pow2(n + 4) == 4 * Pow2(n + 2);
    assert Pow2(n + 6) == 4 * Pow2(n + 4);
    assert Pow2(n + 8) == 4 * Pow2(n + 6);
  }

  lemma StandingSnoc(reg: nat, s: string, c: char)
    requires c < 128 as char
    ensures Standing(reg, s + [c]) == Xor(Standing(reg, s) * 256, c as nat * WORD)
  {
    var p, n, b := Pow2(8 * |s|), Number(s), c as nat;
    assert (s + [c])[..|s|] == s;
    PowEight(8 * |s|);
    Regroup(reg, p);
    PowValues();
    XorScale(reg * p, WORD * n, 8, 256);
    NumbersJoin(n, b);
    XorAssociates(reg * p * 256, WORD * n * 256, b * WORD);
  }

  lemma Regroup(reg: nat, p: nat)
    ensures reg * (256 * p) == reg * p * 256
  {
  }

  lemma NumbersJoin(n: nat, b: nat)
    requires b < 256
    ensures WORD * (256 * n + b) == Xor(WORD * n * 256, b * WORD)
  {
    HalvesDoNotMeet(n, b);
    PowValues();
    XorScale(256 * n, b, 16, WORD);
  }

  lemma {:induction false} TextDivides(reg: nat, s: string) returns (q: nat)
    requires reg < WORD && Ascii(s)
    ensures FeedAll(reg, s, 8) < WORD && Same(Standing(reg, s), FeedAll(reg, s, 8), q)
  {
    FeedAllConcat(reg, s, "", 8);
    if s == "" {
      XorZero(reg);
      XorSelf(reg);
      q := 0;
    } else {
      var n := |s| - 1;
      var before := TextDivides(reg, s[..n]);
      PowValues();
      q := ByteDivides(Standing(reg, s[..n]), FeedAll(reg, s[..n], 8), before, s[n] as nat, 8);
      assert s == s[..n] + [s[n]];
      StandingSnoc(reg, s[..n], s[n]);
      FeedLast(reg, s[..n], s[n]);
    }
  }

  lemma FeedLast(reg: nat, s: string, c: char)
    requires reg < WORD && Ascii(s)
    ensures FeedAll(reg, s + [c], 8) == Feed(FeedAll(reg, s, 8), c as nat, 8)
  {
    FeedAllConcat(reg, s, [c], 8);
    var r := FeedAll(reg, s, 8);
    assert [c][1..] == "";
    assert FeedAll(r, [c], 8) == FeedAll(Feed(r, c as nat, 8), "", 8);
  }

  /** The checksum of a text is the remainder of its dividend. */
  lemma ChecksumIsRemainder(s: string)
    requires Ascii(s)
    ensures Remainder(Dividend(s), Checksum(s))
  {
    var q := TextDivides(0xFFFF, s);
    var a, r := Dividend(s), Checksum(s);
    XorAssociates(a, r, r);
    XorSelf(r);
    XorZero(a);
    assert a == Xor(Times(q, DIVISOR), r);
  }

  // ----- there is only one remainder

  /** A multiple of the divisor that is not zero does not fit a word. */
  lemma {:induction false} MultiplesAreLong(q: nat)
    requires q > 0
    ensures Times(q, DIVISOR) >= WORD
  {
    if q == 1 {
      TimesOne(DIVISOR);
    } else {
      MultiplesAreLong(q / 2);
      TimesUnfold(q, DIVISOR);
      LongStaysLong(Times(q / 2, DIVISOR), Low(q, DIVISOR));
    }
  }

  lemma LongStaysLong(t: nat, low: nat)
    requires t >= WORD && low < 2 * WORD
    ensures Xor(2 * t, low) >= WORD
  {
    PowValues();
    var p := Pow2(17);
    assert p == 2 * WORD;
    var a, b := 2 * t / p, 2 * t % p;
    XorByParts(2 * t, low, a, b, 0, low, 17, p);
    XorZero(a);
    AtLeastOne(a, p);
  }

  lemma AtLeastOne(a: nat, p: nat)
    requires a >= 1
    ensures a * p >= p
  {
  }

  lemma OneRemainder(a: nat, r: nat, t: nat)
    requires Remainder(a, r) && Remainder(a, t)
    ensures r == t
  {
    var q: nat :| a == Xor(Times(q, DIVISOR), r);
    var v: nat :| a == Xor(Times(v, DIVISOR), t);
    XorSelf(a);
    XorSwap(Times(q, DIVISOR), r, Times(v, DIVISOR), t);
    TimesAdds(q, v, DIVISOR);
    XorIsZero(Times(Xor(q, v), DIVISOR), Xor(r, t));
    XorInWord(r, t);
    if Xor(q, v) > 0 {
      MultiplesAreLong(Xor(q, v));
    }
    XorIsZero(r, t);
  }
}
