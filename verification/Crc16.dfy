/** The CRC-16/CCITT-FALSE checksum that closes a payment QR payload. */
module Crc16 {
  import opened Common

  /** Exclusive or of two naturals, bit by bit. */
  function Xor(x: nat, y: nat): nat
    decreases x + y
  {
    if x == 0 && y == 0 then 0 else 2 * Xor(x / 2, y / 2) + if x % 2 == y % 2 then 0 else 1
  }

  const POLYNOMIAL: nat := 0x1021
  const WORD: nat := 0x1_0000

  /** What one shift adds to the register: the polynomial when the top bit falls out. */
  function Added(x: nat): nat {
    if x / 0x8000 % 2 == 1 then POLYNOMIAL else 0
  }

  function Round(x: nat): nat {
    Xor(2 * x, Added(x)) % WORD
  }

  function Rounds(x: nat, n: nat): nat {
    if n == 0 then x else Round(Rounds(x, n - 1))
  }

  predicate Ascii(s: string) {
    forall i | 0 <= i < |s| :: s[i] < 128 as char
  }

  /** One byte enters the high half of the register and goes through `n` rounds. */
  function Feed(reg: nat, byte: nat, n: nat): nat {
    Rounds(Xor(reg, 256 * byte), n)
  }

  function FeedAll(reg: nat, s: string, n: nat): nat
    decreases |s|
  {
    if s == "" then reg else FeedAll(Feed(reg, s[0] as nat, n), s[1..], n)
  }

  function Checksum(s: string): nat {
    FeedAll(0xFFFF, s, 8)
  }

  function HexDigit(n: nat): char
    requires n < 16
  {
    "0123456789ABCDEF"[n]
  }

  function Hex4(x: nat): string {
    [HexDigit(x / 16 / 16 / 16 % 16), HexDigit(x / 16 / 16 % 16), HexDigit(x / 16 % 16), HexDigit(x % 16)]
  }

  /** The four-digit checksum, or nothing when the text does not encode as ASCII. */
  method Crc16CcittFalse(value: string) returns (r: Option<string>)
    ensures r == if Ascii(value) then Some(Hex4(Checksum(value))) else None
  {
    if !Ascii(value) {
      return None;
    }
    var crc: nat := 0xFFFF;
    for i := 0 to |value|
      invariant FeedAll(crc, value[i..], 8) == Checksum(value)
    {
      var before := crc;
      crc := Xor(crc, 256 * (value[i] as nat));
      ghost var start := crc;
      for k := 0 to 8
        invariant crc == Rounds(start, k)
      {
        if crc / 0x8000 % 2 == 1 {
          crc := Xor(2 * crc, 0x1021);
        } else {
          crc := 2 * crc;
          XorZero(crc);
        }
        crc := crc % 0x1_0000;
      }
      assert crc == Feed(before, value[i] as nat, 8);
      assert value[i..][0] == value[i] && value[i..][1..] == value[i + 1..];
    }
    return Some(Hex4(crc));
  }

  // ----- exclusive or

  lemma XorUnfold(x: nat, y: nat)
    ensures Xor(x, y) / 2 == Xor(x / 2, y / 2)
    ensures Xor(x, y) % 2 == if x % 2 == y % 2 then 0 else 1
  {
  }

  lemma SameHalves(x: nat, y: nat)
    requires x / 2 == y / 2 && x % 2 == y % 2
    ensures x == y
  {
  }

  lemma {:induction false} XorZero(x: nat)
    ensures Xor(x, 0) == x
  {
    if x == 0 {
    } else {
      XorZero(x / 2);
    }
  }

  lemma {:induction false} XorSelf(x: nat)
    ensures Xor(x, x) == 0
  {
    if x == 0 {
    } else {
      XorSelf(x / 2);
    }
  }

  lemma {:induction false} XorIsZero(x: nat, y: nat)
    requires Xor(x, y) == 0
    ensures x == y
    decreases x + y
  {
    if x + y == 0 {
    } else {
      XorIsZero(x / 2, y / 2);
    }
  }

  lemma {:induction false} XorCommutes(x: nat, y: nat)
    ensures Xor(x, y) == Xor(y, x)
    decreases x + y
  {
    if x + y == 0 {
    } else {
      XorCommutes(x / 2, y / 2);
    }
  }

  lemma {:induction false} XorAssociates(x: nat, y: nat, z: nat)
    ensures Xor(Xor(x, y), z) == Xor(x, Xor(y, z))
    decreases x + y + z
  {
    if x + y + z == 0 {
    } else {
      XorUnfold(x, y);
      XorUnfold(y, z);
      XorUnfold(Xor(x, y), z);
      XorUnfold(x, Xor(y, z));
      XorAssociates(x / 2, y / 2, z / 2);
      SameHalves(Xor(Xor(x, y), z), Xor(x, Xor(y, z)));
    }
  }

  lemma XorSwap(a: nat, b: nat, c: nat, d: nat)
    ensures Xor(Xor(a, b), Xor(c, d)) == Xor(Xor(a, c), Xor(b, d))
  {
    XorAssociates(Xor(a, b), c, d);
    XorAssociates(a, b, c);
    XorCommutes(b, c);
    XorAssociates(a, c, b);
    XorAssociates(Xor(a, c), b, d);
  }

  lemma XorDouble(x: nat, y: nat)
    ensures Xor(2 * x, 2 * y) == 2 * Xor(x, y)
  {
  }

  lemma XorCancels(x: nat, y: nat, p: nat)
    requires Xor(x, p) == Xor(y, p)
    ensures x == y
  {
  }

  function Pow2(k: nat): (p: nat)
    ensures p > 0
  {
    if k == 0 then 1 else 2 * Pow2(k - 1)
  }

  lemma Halves(x: nat, a: nat, q: nat, b: nat)
    requires x == a * (2 * q) + b
    ensures x / 2 == a * q + b / 2 && x % 2 == b % 2
  {
  }

  lemma HalvesBack(v: nat, z: nat, q: nat, w: nat)
    requires v / 2 == z * q + w / 2 && v % 2 == w % 2
    ensures v == z * (2 * q) + w
  {
  }

  /** The bits above and below position `k` do not meet. */
  lemma {:induction false} XorByParts(x: nat, y: nat, a: nat, b: nat, c: nat, d: nat, k: nat, p: nat)
    requires p == Pow2(k) && b < p && d < p && x == a * p + b && y == c * p + d
    ensures Xor(x, y) == Xor(a, c) * p + Xor(b, d) && Xor(b, d) < p
    decreases k
  {
    if k == 0 {
    } else {
      var q := Pow2(k - 1);
      Halves(x, a, q, b);
      Halves(y, c, q, d);
      XorByParts(x / 2, y / 2, a, b / 2, c, d / 2, k - 1, q);
      XorUnfold(x, y);
      XorUnfold(b, d);
      HalvesBack(Xor(x, y), Xor(a, c), q, Xor(b, d));
    }
  }

  // ----- one round is an injective linear map

  lemma PowValues()
    ensures Pow2(7) == 0x80 && Pow2(8) == 0x100 && Pow2(15) == 0x8000 && Pow2(16) == 0x1_0000
  {
  }

  lemma WordParts(x: nat, high: nat, low: nat)
    requires low < WORD && x == high * WORD + low
    ensures x % WORD == low && x / WORD == high && (x < WORD ==> x == low)
  {
  }

  lemma XorInWord(x: nat, y: nat)
    ensures Xor(x, y) % WORD == Xor(x % WORD, y % WORD)
    ensures x < WORD && y < WORD ==> Xor(x, y) < WORD
  {
    var a, b, c, d := x / WORD, x % WORD, y / WORD, y % WORD;
    assert Pow2(16) == WORD by { PowValues(); }
    XorByParts(x, y, a, b, c, d, 16, WORD);
    WordParts(Xor(x, y), Xor(a, c), Xor(b, d));
    WordParts(x, a, b);
    WordParts(y, c, d);
  }

  lemma TopHalf(x: nat, y: nat)
    ensures Xor(x, y) / 0x8000 == Xor(x / 0x8000, y / 0x8000)
  {
    var a, b, c, d := x / 0x8000, x % 0x8000, y / 0x8000, y % 0x8000;
    assert Pow2(15) == 0x8000 by { PowValues(); }
    XorByParts(x, y, a, b, c, d, 15, 0x8000);
  }

  lemma TopBit(x: nat, y: nat)
    ensures Xor(x, y) / 0x8000 % 2 == if x / 0x8000 % 2 == y / 0x8000 % 2 then 0 else 1
  {
    TopHalf(x, y);
    XorUnfold(x / 0x8000, y / 0x8000);
  }

  lemma AddedLinear(x: nat, y: nat)
    ensures Added(Xor(x, y)) == Xor(Added(x), Added(y))
  {
    TopBit(x, y);
    XorZero(Added(x));
    XorZero(Added(y));
    XorCommutes(Added(x), Added(y));
    XorSelf(Added(x));
  }

  lemma RoundLinear(x: nat, y: nat)
    requires x < WORD && y < WORD
    ensures Xor(x, y) < WORD && Round(Xor(x, y)) == Xor(Round(x), Round(y))
  {
    XorInWord(x, y);
    XorDouble(x, y);
    AddedLinear(x, y);
    XorSwap(2 * x, 2 * y, Added(x), Added(y));
    XorInWord(Xor(2 * x, Added(x)), Xor(2 * y, Added(y)));
  }

  lemma NothingAdded(x: nat)
    requires x < 0x8000
    ensures Added(x) == 0 && 2 * x % WORD == 2 * x
  {
  }

  lemma RoundDoubles(x: nat)
    requires Added(x) == 0 && 2 * x % WORD == 2 * x
    ensures Round(x) == 2 * x
  {
    XorZero(2 * x);
  }

  lemma PolynomialAdded(x: nat)
    requires 0x8000 <= x < WORD
    ensures Added(x) % 2 == 1
  {
  }

  lemma OddInWord(v: nat)
    requires v % WORD == 0
    ensures v % 2 == 0
  {
  }

  /** The polynomial is odd and a shifted register even, so no round loses the register. */
  lemma RoundKernel(x: nat)
    requires x < WORD && Round(x) == 0
    ensures x == 0
  {
    if x < 0x8000 {
      NothingAdded(x);
      RoundDoubles(x);
    } else {
      PolynomialAdded(x);
      OddInWord(Xor(2 * x, Added(x)));
      XorUnfold(2 * x, Added(x));
    }
  }

  lemma {:induction false} RoundsLinear(x: nat, y: nat, n: nat)
    requires x < WORD && y < WORD
    ensures Xor(x, y) < WORD && Rounds(x, n) < WORD && Rounds(y, n) < WORD
    ensures Rounds(Xor(x, y), n) == Xor(Rounds(x, n), Rounds(y, n))
  {
    XorInWord(x, y);
    if n == 0 {
    } else {
      RoundsLinear(x, y, n - 1);
      RoundLinear(Rounds(x, n - 1), Rounds(y, n - 1));
    }
  }

  lemma {:induction false} RoundsKernel(x: nat, n: nat)
    requires x < WORD && Rounds(x, n) == 0
    ensures x == 0
  {
    if n == 0 {
    } else {
      RoundsLinear(x, x, n - 1);
      RoundKernel(Rounds(x, n - 1));
      RoundsKernel(x, n - 1);
    }
  }

  lemma RoundsInjective(x: nat, y: nat, n: nat)
    requires x < WORD && y < WORD && Rounds(x, n) == Rounds(y, n)
    ensures x == y
  {
    RoundsLinear(x, y, n);
    XorSelf(Rounds(x, n));
    RoundsKernel(Xor(x, y), n);
    XorIsZero(x, y);
  }

  // ----- errors within two adjacent characters are always caught

  lemma RoomFor(b: nat, p: nat)
    requires b < 256 && p <= 128
    ensures b * p < 0x8000 && b * (2 * p) == 2 * (b * p)
  {
  }

  lemma OneMoreDoubling(b: nat, p: nat, n: nat)
    requires b < 256 && p <= 128 && n > 0 && Rounds(b, n - 1) == b * p
    ensures Rounds(b, n) == b * (2 * p)
  {
    RoomFor(b, p);
    NothingAdded(b * p);
    RoundDoubles(b * p);
  }

  /** A byte in the low half only moves to the high half: no bit falls out on the way. */
  lemma {:induction false} LowByteMovesUp(b: nat, n: nat)
    requires b < 256 && n <= 8
    ensures Rounds(b, n) == b * Pow2(n)
  {
    if n == 0 {
    } else {
      LowByteMovesUp(b, n - 1);
      PowGrows(n - 1, 7);
      PowValues();
      OneMoreDoubling(b, Pow2(n - 1), n);
    }
  }

  lemma {:induction false} PowGrows(n: nat, m: nat)
    requires n <= m
    ensures Pow2(n) <= Pow2(m)
  {
    if n == m {
    } else {
      PowGrows(n, m - 1);
    }
  }

  lemma HalvesDoNotMeet(a: nat, b: nat)
    requires b < 256
    ensures Xor(256 * a, b) == 256 * a + b
  {
    PowValues();
    XorByParts(256 * a, b, a, 0, 0, b, 8, 256);
    XorZero(a);
    XorCommutes(0, b);
    XorZero(b);
  }

  ghost predicate MovesBytesUp(n: nat) {
    forall b: nat :: b < 256 ==> Rounds(b, n) == 256 * b
  }

  lemma EightMovesBytesUp()
    ensures MovesBytesUp(8)
  {
    PowValues();
    forall b: nat | b < 256 ensures Rounds(b, 8) == 256 * b {
      LowByteMovesUp(b, 8);
    }
  }

  /** Feeding two bytes is feeding one 16-bit word through sixteen rounds. */
  lemma TwoBytesAreOneWord(r: nat, a: nat, b: nat, n: nat)
    requires r < WORD && a < 256 && b < 256 && MovesBytesUp(n)
    ensures Xor(r, 256 * a + b) < WORD
    ensures Feed(Feed(r, a, n), b, n) == Rounds(Rounds(Xor(r, 256 * a + b), n), n)
  {
    HalvesDoNotMeet(a, b);
    TwoBytesJoin(r, 256 * a, b, n);
  }

  lemma TwoBytesJoin(r: nat, high: nat, b: nat, n: nat)
    requires r < WORD && high < WORD && b < 256 && Rounds(b, n) == 256 * b
    ensures Xor(r, Xor(high, b)) < WORD
    ensures Feed(Rounds(Xor(r, high), n), b, n) == Rounds(Rounds(Xor(r, Xor(high, b)), n), n)
  {
    XorAssociates(r, high, b);
    XorInWord(r, high);
    SecondByteJoins(Xor(r, high), b, n);
  }

  lemma SecondByteJoins(x: nat, b: nat, n: nat)
    requires x < WORD && b < 256 && Rounds(b, n) == 256 * b
    ensures Xor(x, b) < WORD && Feed(Rounds(x, n), b, n) == Rounds(Rounds(Xor(x, b), n), n)
  {
    RoundsLinear(x, b, n);
  }

  lemma RoundsInjectiveTwice(x: nat, y: nat, n: nat)
    requires x < WORD && y < WORD && Rounds(Rounds(x, n), n) == Rounds(Rounds(y, n), n)
    ensures x == y
  {
    RoundsLinear(x, y, n);
    RoundsInjective(Rounds(x, n), Rounds(y, n), n);
    RoundsInjective(x, y, n);
  }

  lemma SameWord(r: nat, p: nat, q: nat)
    requires Xor(r, p) == Xor(r, q)
    ensures p == q
  {
  }

  /** Two bytes enter the register injectively, whatever it held. */
  lemma TwoBytesInjective(r: nat, a: nat, b: nat, c: nat, d: nat, n: nat)
    requires r < WORD && a < 256 && b < 256 && c < 256 && d < 256 && MovesBytesUp(n)
    requires Feed(Feed(r, a, n), b, n) == Feed(Feed(r, c, n), d, n)
    ensures a == c && b == d
  {
    TwoBytesAreOneWord(r, a, b, n);
    TwoBytesAreOneWord(r, c, d, n);
    var x, y := Xor(r, 256 * a + b), Xor(r, 256 * c + d);
    RoundsInjectiveTwice(x, y, n);
    SameWord(r, 256 * a + b, 256 * c + d);
  }

  lemma FeedInWord(r: nat, q: nat, byte: nat, n: nat)
    requires r < WORD && q < WORD && byte < 256
    ensures Feed(r, byte, n) < WORD
    ensures Feed(r, byte, n) == Feed(q, byte, n) ==> r == q
  {
    XorInWord(r, 256 * byte);
    XorInWord(q, 256 * byte);
    var x, y := Xor(r, 256 * byte), Xor(q, 256 * byte);
    RoundsLinear(x, y, n);
    if Rounds(x, n) == Rounds(y, n) {
      RoundsInjective(x, y, n);
      XorCancels(r, q, 256 * byte);
    }
  }

  /** The rest of the text never brings two different registers together. */
  lemma {:induction false} FeedAllInjective(r: nat, q: nat, s: string, n: nat)
    requires r < WORD && q < WORD && Ascii(s) && FeedAll(r, s, n) == FeedAll(q, s, n)
    ensures r == q
    decreases |s|
  {
    if s == "" {
    } else {
      FeedInWord(r, q, s[0] as nat, n);
      FeedInWord(q, r, s[0] as nat, n);
      FeedAllInjective(Feed(r, s[0] as nat, n), Feed(q, s[0] as nat, n), s[1..], n);
    }
  }

  lemma {:induction false} FeedAllConcat(r: nat, s: string, t: string, n: nat)
    requires r < WORD && Ascii(s)
    ensures FeedAll(r, s + t, n) == FeedAll(FeedAll(r, s, n), t, n) && FeedAll(r, s, n) < WORD
    decreases |s|
  {
    if s == "" {
      assert s + t == t;
    } else {
      FeedInWord(r, r, s[0] as nat, n);
      FeedAllConcat(Feed(r, s[0] as nat, n), s[1..], t, n);
      assert (s + t)[1..] == s[1..] + t;
    }
  }

  /** Equal outside the two positions `i` and `i + 1`. */
  ghost predicate DifferOnlyAt(s: string, t: string, i: nat) {
    |s| == |t| && i < |s| && forall k :: 0 <= k < |s| && k != i && k != i + 1 ==> s[k] == t[k]
  }

  lemma SameTwo(r: nat, s: string, t: string, n: nat)
    requires r < WORD && MovesBytesUp(n)
    requires |s| == |t| == 2 && Ascii(s) && Ascii(t) && FeedAll(r, s, n) == FeedAll(r, t, n)
    ensures s == t
  {
    assert s[1..][0] == s[1] && t[1..][0] == t[1] && s[1..][1..] == t[1..][1..] == "";
    assert FeedAll(r, s, n) == FeedAll(Feed(r, s[0] as nat, n), s[1..], n);
    assert FeedAll(r, t, n) == FeedAll(Feed(r, t[0] as nat, n), t[1..], n);
    TwoBytesInjective(r, s[0] as nat, s[1] as nat, t[0] as nat, t[1] as nat, n);
  }

  /** A one-character text is caught as the two-character one that continues it. */
  lemma SameOne(r: nat, s: string, t: string, n: nat)
    requires r < WORD && MovesBytesUp(n)
    requires |s| == |t| == 1 && Ascii(s) && Ascii(t) && FeedAll(r, s, n) == FeedAll(r, t, n)
    ensures s == t
  {
    FeedAllConcat(r, s, "0", n);
    FeedAllConcat(r, t, "0", n);
    SameTwo(r, s + "0", t + "0", n);
    assert s[0] == (s + "0")[0] && t[0] == (t + "0")[0];
  }

  lemma FeedThree(reg: nat, p: string, m: string, e: string, n: nat)
    requires reg < WORD && Ascii(p) && Ascii(m)
    ensures FeedAll(reg, p + m + e, n) == FeedAll(FeedAll(FeedAll(reg, p, n), m, n), e, n)
    ensures FeedAll(reg, p, n) < WORD && FeedAll(FeedAll(reg, p, n), m, n) < WORD
  {
    FeedAllConcat(reg, p + m, e, n);
    FeedAllConcat(reg, p, m, n);
    FeedAllConcat(FeedAll(reg, p, n), m, "", n);
  }

  lemma MiddleIsCaught(reg: nat, p: string, m: string, w: string, e: string, n: nat)
    requires reg < WORD && MovesBytesUp(n) && Ascii(p) && Ascii(m) && Ascii(w) && Ascii(e)
    requires |m| == |w| && 1 <= |m| <= 2 && FeedAll(reg, p + m + e, n) == FeedAll(reg, p + w + e, n)
    ensures m == w
  {
    FeedThree(reg, p, m, e, n);
    FeedThree(reg, p, w, e, n);
    var r := FeedAll(reg, p, n);
    FeedAllInjective(FeedAll(r, m, n), FeedAll(r, w, n), e, n);
    if |m| == 1 {
      SameOne(r, m, w, n);
    } else {
      SameTwo(r, m, w, n);
    }
  }

  lemma ThreeParts(s: string, t: string, i: nat) returns (p: string, m: string, w: string, e: string)
    requires Ascii(s) && Ascii(t) && DifferOnlyAt(s, t, i)
    ensures s == p + m + e && t == p + w + e && |m| == |w| && 1 <= |m| <= 2
    ensures Ascii(p) && Ascii(m) && Ascii(w) && Ascii(e)
  {
    var j := if i + 2 < |s| then i + 2 else |s|;
    p, m, w, e := s[..i], s[i..j], t[i..j], s[j..];
    assert p == t[..i] && e == t[j..];
  }

  lemma RegisterFindsAdjacentErrors(reg: nat, s: string, t: string, i: nat, n: nat)
    requires reg < WORD && MovesBytesUp(n) && Ascii(s) && Ascii(t) && DifferOnlyAt(s, t, i)
    requires FeedAll(reg, s, n) == FeedAll(reg, t, n)
    ensures s == t
  {
    var p, m, w, e := ThreeParts(s, t, i);
    MiddleIsCaught(reg, p, m, w, e, n);
  }

  // ----- the printed form

  function HexValue(c: char): nat {
    if '0' <= c <= '9' then c as nat - '0' as nat else if 'A' <= c <= 'F' then c as nat - 'A' as nat + 10 else 16
  }

  /** The four digits are the register in hexadecimal, highest first. */
  lemma Hex4Reads(x: nat)
    requires x < WORD
    ensures var h := Hex4(x);
      && |h| == 4 && (forall k :: 0 <= k < 4 ==> HexValue(h[k]) < 16)
      && x == 4096 * HexValue(h[0]) + 256 * HexValue(h[1]) + 16 * HexValue(h[2]) + HexValue(h[3])
  {
    HexParts(x);
    HexReads(x / 16 / 16 / 16 % 16);
    HexReads(x / 16 / 16 % 16);
    HexReads(x / 16 % 16);
    HexReads(x % 16);
  }

  lemma HexReads(n: nat)
    requires n < 16
    ensures HexValue(HexDigit(n)) == n
  {
  }

  lemma Hex4Injective(x: nat, y: nat)
    requires x < WORD && y < WORD && Hex4(x) == Hex4(y)
    ensures x == y
  {
    HexParts(x);
    HexParts(y);
    assert forall k :: 0 <= k < 4 ==> Hex4(x)[k] == Hex4(y)[k];
    HexDigitInjective(x / 16 / 16 / 16 % 16, y / 16 / 16 / 16 % 16);
    HexDigitInjective(x / 16 / 16 % 16, y / 16 / 16 % 16);
    HexDigitInjective(x / 16 % 16, y / 16 % 16);
    HexDigitInjective(x % 16, y % 16);
  }

  lemma HexParts(x: nat)
    requires x < WORD
    ensures x == 4096 * (x / 16 / 16 / 16 % 16) + 256 * (x / 16 / 16 % 16) + 16 * (x / 16 % 16) + x % 16
  {
  }

  lemma HexDigitInjective(n: nat, m: nat)
    requires n < 16 && m < 16 && HexDigit(n) == HexDigit(m)
    ensures n == m
  {
  }

  lemma ChecksumInWord(s: string, n: nat)
    requires Ascii(s)
    ensures FeedAll(0xFFFF, s, n) < WORD
  {
    FeedAllConcat(0xFFFF, s, "", n);
  }

  /** Payloads of any length that differ, but only within two adjacent characters, never print the
      same checksum. */
  lemma AdjacentErrorsChangeTheChecksum(s: string, t: string, i: nat)
    requires Ascii(s) && Ascii(t) && DifferOnlyAt(s, t, i) && s != t
    ensures Hex4(Checksum(s)) != Hex4(Checksum(t))
  {
    ChecksumInWord(s, 8);
    ChecksumInWord(t, 8);
    if Hex4(Checksum(s)) == Hex4(Checksum(t)) {
      Hex4Injective(Checksum(s), Checksum(t));
      EightMovesBytesUp();
      RegisterFindsAdjacentErrors(0xFFFF, s, t, i, 8);
    }
  }
}
