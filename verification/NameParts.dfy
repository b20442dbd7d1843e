/**
 The parts of the shipped names, read from the end: the last few letters of a surname, a middle name
 or a given name tell its length, whatever stands before it.
 */
module NameParts {
  import opened PaymentNames

  /** The `i`-th character from the end, a blank beyond the front. */
  function FromEnd(t: string, i: nat): char
    requires i > 0
  {
    if i <= |t| then t[|t| - i] else ' '
  }

  /** The length of the given name that ends a text, told by its last characters. */
  function GivenLen(t: string): nat {
    var c1, c2, c3, c4 := FromEnd(t, 1), FromEnd(t, 2), FromEnd(t, 3), FromEnd(t, 4);
    if c1 == 'N' then
      if c2 == 'A' then (if c3 == 'U' && c4 == 'Q' then 4 else 2)
      else if c2 == 'E' then (if c3 == 'Y' then 3 else if c4 == 'K' then 4 else 5)
      else 3
    else if c1 == 'H' then (if c3 == 'Y' || c4 == 'H' then 5 else 4)
    else if c1 == 'G' then (if c3 == 'U' || c4 == 'L' then 4 else 5)
    else if c1 == 'U' then (if c4 == 'H' then 4 else 5)
    else if c1 == 'A' then (if c4 == 'K' then 4 else 3)
    else if c1 == 'C' || c1 == 'O' then 4
    else 3
  }

  /** The same for a middle name. */
  function MiddleLen(t: string): nat {
    var c1, c2, c3, c4, c5 := FromEnd(t, 1), FromEnd(t, 2), FromEnd(t, 3), FromEnd(t, 4), FromEnd(t, 5);
    if c1 == 'N' then (if c2 == 'E' || c3 == 'U' then 4 else 3)
    else if c1 == 'H' then (if c3 == 'I' then 4 else if c4 == 'H' && (c5 == 'T' || c5 == 'K') then 5 else 3)
    else if c1 == 'G' then 5
    else if c1 == 'C' then (if c2 == 'O' then 4 else 3)
    else if c1 == 'T' then 4
    else 3
  }

  /** The same for a surname. */
  function SurnameLen(t: string): nat {
    var c1, c2, c3, c4, c5 := FromEnd(t, 1), FromEnd(t, 2), FromEnd(t, 3), FromEnd(t, 4), FromEnd(t, 5);
    if c1 == 'N' then (if c2 == 'E' then 6 else 4)
    else if c1 == 'M' then (if c3 == 'L' then 3 else 4)
    else if c1 == 'G' then (if c3 == 'A' then (if c4 == 'D' then 4 else 5) else if c5 == 'R' then 6 else 5)
    else if c1 == 'H' then (if c2 == 'C' then 5 else if c3 == 'Y' || c4 == 'R' then 5 else 4)
    else if c1 == 'I' then 3
    else if c1 == 'O' then (if c2 == 'G' || c2 == 'A' then 3 else 2)
    else if c1 == 'U' then (if c2 == 'U' then 3 else if c2 == 'A' then 4 else 2)
    else 2
  }

  lemma Ends(p: string, x: string)
    ensures forall i: nat :: i > 0 ==> FromEnd(p + x, i) == if i <= |x| then FromEnd(x, i) else FromEnd(p, i - |x|)
  {
  }

  // ----- the parts, read off the lists

  predicate GivenOk(x: string) {
    && |x| >= 2 && Upper(x)
    && (forall i | 0 <= i < |x| :: x[i] == 'Y' ==> i == 0 || i + 1 == |x| || x[i + 1] != 'E')
  }

  predicate MiddleOk(x: string) {
    && |x| >= 3 && Upper(x) && x[0] != 'E' && 'Y' !in x
    && FromEnd(x, 1) != 'K' && !(FromEnd(x, 1) == 'U' && FromEnd(x, 2) in {'Q', 'H'})
  }

  predicate SurnameOk(x: string) {
    && |x| >= 2 && Upper(x) && !(FromEnd(x, 1) == 'H' && FromEnd(x, 2) in {'T', 'K'})
    && (forall i | 2 <= i < |x| - 1 :: x[i] == 'Y' ==> x[i + 1] != 'E' || x[i - 2] != 'H')
  }

  predicate Upper(x: string) {
    forall i | 0 <= i < |x| :: 'A' <= x[i] <= 'Z'
  }

  predicate NoGivenEnd(p: string) {
    FromEnd(p, 1) != 'K' && !(FromEnd(p, 1) == 'U' && FromEnd(p, 2) == 'Q')
  }

  predicate NoMiddleEnd(p: string) {
    !(FromEnd(p, 1) == 'H' && FromEnd(p, 2) in {'T', 'K'})
  }

  /** Every given name of the list shows its length at the end of a text. */
  ghost predicate GivensShow(xs: seq<string>) {
    forall p, x :: x in xs && NoGivenEnd(p) ==> GivenLen(p + x) == |x|
  }

  lemma Givens1()
    ensures GivensShow(GIVEN[0..6])
  {
    forall p, x | x in GIVEN[0..6] && NoGivenEnd(p) ensures GivenLen(p + x) == |x| {
      Ends(p, x);
    }
  }

  lemma Givens2()
    ensures GivensShow(GIVEN[6..12])
  {
    forall p, x | x in GIVEN[6..12] && NoGivenEnd(p) ensures GivenLen(p + x) == |x| {
      Ends(p, x);
    }
  }

  lemma Givens3()
    ensures GivensShow(GIVEN[12..18])
  {
    forall p, x | x in GIVEN[12..18] && NoGivenEnd(p) ensures GivenLen(p + x) == |x| {
      Ends(p, x);
    }
  }

  lemma Givens4()
    ensures GivensShow(GIVEN[18..24])
  {
    forall p, x | x in GIVEN[18..24] && NoGivenEnd(p) ensures GivenLen(p + x) == |x| {
      Ends(p, x);
    }
  }

  lemma Givens5()
    ensures GivensShow(GIVEN[24..30])
  {
    forall p, x | x in GIVEN[24..30] && NoGivenEnd(p) ensures GivenLen(p + x) == |x| {
      Ends(p, x);
    }
  }

  lemma GivenOk1()
    ensures forall x :: x in GIVEN[0..10] ==> GivenOk(x)
  {
  }

  lemma GivenOk2()
    ensures forall x :: x in GIVEN[10..20] ==> GivenOk(x)
  {
  }

  lemma GivenOk3()
    ensures forall x :: x in GIVEN[20..30] ==> GivenOk(x)
  {
  }

  lemma GivensTogether(xs: seq<string>)
    requires |xs| == 30
    requires GivensShow(xs[0..6]) && GivensShow(xs[6..12]) && GivensShow(xs[12..18]) && GivensShow(xs[18..24]) && GivensShow(xs[24..30])
    requires forall x :: x in xs[0..10] ==> GivenOk(x)
    requires forall x :: x in xs[10..20] ==> GivenOk(x)
    requires forall x :: x in xs[20..30] ==> GivenOk(x)
    ensures GivensShow(xs) && forall x :: x in xs ==> GivenOk(x)
  {
    forall x | x in xs ensures x in xs[0..6] || x in xs[6..12] || x in xs[12..18] || x in xs[18..24] || x in xs[24..30]
    {
    }
    forall x | x in xs ensures x in xs[0..10] || x in xs[10..20] || x in xs[20..30]
    {
    }
  }

  lemma GivensRead()
    ensures GivensShow(GIVEN) && forall x :: x in GIVEN ==> GivenOk(x)
  {
    Givens1();
    Givens2();
    Givens3();
    Givens4();
    Givens5();
    GivenOk1();
    GivenOk2();
    GivenOk3();
    GivensTogether(GIVEN);
  }

  /** Every middle name of the list shows its length at the end of a text. */
  ghost predicate MiddlesShow(xs: seq<string>) {
    forall p, x :: x in xs && NoMiddleEnd(p) ==> MiddleLen(p + x) == |x|
  }

  lemma Middles1()
    ensures MiddlesShow(MIDDLES[0..5])
  {
    forall p, x | x in MIDDLES[0..5] && NoMiddleEnd(p) ensures MiddleLen(p + x) == |x| {
      Ends(p, x);
    }
  }

  lemma Middles2()
    ensures MiddlesShow(MIDDLES[5..10])
  {
    forall p, x | x in MIDDLES[5..10] && NoMiddleEnd(p) ensures MiddleLen(p + x) == |x| {
      Ends(p, x);
    }
  }

  lemma Middles3()
    ensures MiddlesShow(MIDDLES[10..15])
  {
    forall p, x | x in MIDDLES[10..15] && NoMiddleEnd(p) ensures MiddleLen(p + x) == |x| {
      Ends(p, x);
    }
  }

  lemma Middles4()
    ensures MiddlesShow(MIDDLES[15..20])
  {
    forall p, x | x in MIDDLES[15..20] && NoMiddleEnd(p) ensures MiddleLen(p + x) == |x| {
      Ends(p, x);
    }
  }

  lemma MiddleOk1()
    ensures forall x :: x in MIDDLES[0..10] ==> MiddleOk(x)
  {
  }

  lemma MiddleOk2()
    ensures forall x :: x in MIDDLES[10..20] ==> MiddleOk(x)
  {
  }

  lemma MiddlesTogether(xs: seq<string>)
    requires |xs| == 20
    requires MiddlesShow(xs[0..5]) && MiddlesShow(xs[5..10]) && MiddlesShow(xs[10..15]) && MiddlesShow(xs[15..20])
    requires forall x :: x in xs[0..10] ==> MiddleOk(x)
    requires forall x :: x in xs[10..20] ==> MiddleOk(x)
    ensures MiddlesShow(xs) && forall x :: x in xs ==> MiddleOk(x)
  {
    forall x | x in xs ensures x in xs[0..5] || x in xs[5..10] || x in xs[10..15] || x in xs[15..20]
    {
    }
    forall x | x in xs ensures x in xs[0..10] || x in xs[10..20]
    {
    }
  }

  lemma MiddlesRead()
    ensures MiddlesShow(MIDDLES) && forall x :: x in MIDDLES ==> MiddleOk(x)
  {
    Middles1();
    Middles2();
    Middles3();
    Middles4();
    MiddleOk1();
    MiddleOk2();
    MiddlesTogether(MIDDLES);
  }

  /** Every surname of the list shows its length at the end of a text. */
  ghost predicate SurnamesShow(xs: seq<string>) {
    forall p, x :: x in xs ==> SurnameLen(p + x) == |x|
  }

  lemma Surnames1()
    ensures SurnamesShow(SURNAMES[0..6])
  {
    forall p, x | x in SURNAMES[0..6] ensures SurnameLen(p + x) == |x| {
      Ends(p, x);
    }
  }

  lemma Surnames2()
    ensures SurnamesShow(SURNAMES[6..12])
  {
    forall p, x | x in SURNAMES[6..12] ensures SurnameLen(p + x) == |x| {
      Ends(p, x);
    }
  }

  lemma Surnames3()
    ensures SurnamesShow(SURNAMES[12..18])
  {
    forall p, x | x in SURNAMES[12..18] ensures SurnameLen(p + x) == |x| {
      Ends(p, x);
    }
  }

  lemma Surnames4()
    ensures SurnamesShow(SURNAMES[18..24])
  {
    forall p, x | x in SURNAMES[18..24] ensures SurnameLen(p + x) == |x| {
      Ends(p, x);
    }
  }

  lemma Surnames5()
    ensures SurnamesShow(SURNAMES[24..30])
  {
    forall p, x | x in SURNAMES[24..30] ensures SurnameLen(p + x) == |x| {
      Ends(p, x);
    }
  }

  lemma SurnameOk1()
    ensures forall x :: x in SURNAMES[0..10] ==> SurnameOk(x)
  {
  }

  lemma SurnameOk2()
    ensures forall x :: x in SURNAMES[10..20] ==> SurnameOk(x)
  {
  }

  lemma SurnameOk3()
    ensures forall x :: x in SURNAMES[20..30] ==> SurnameOk(x)
  {
  }

  lemma SurnamesTogether(xs: seq<string>)
    requires |xs| == 30
    requires SurnamesShow(xs[0..6]) && SurnamesShow(xs[6..12]) && SurnamesShow(xs[12..18]) && SurnamesShow(xs[18..24]) && SurnamesShow(xs[24..30])
    requires forall x :: x in xs[0..10] ==> SurnameOk(x)
    requires forall x :: x in xs[10..20] ==> SurnameOk(x)
    requires forall x :: x in xs[20..30] ==> SurnameOk(x)
    ensures SurnamesShow(xs) && forall x :: x in xs ==> SurnameOk(x)
  {
    forall x | x in xs ensures x in xs[0..6] || x in xs[6..12] || x in xs[12..18] || x in xs[18..24] || x in xs[24..30]
    {
    }
    forall x | x in xs ensures x in xs[0..10] || x in xs[10..20] || x in xs[20..30]
    {
    }
  }

  lemma SurnamesRead()
    ensures SurnamesShow(SURNAMES) && forall x :: x in SURNAMES ==> SurnameOk(x)
  {
    Surnames1();
    Surnames2();
    Surnames3();
    Surnames4();
    Surnames5();
    SurnameOk1();
    SurnameOk2();
    SurnameOk3();
    SurnamesTogether(SURNAMES);
  }
}
