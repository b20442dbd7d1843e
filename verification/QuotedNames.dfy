/**
 No name of the shipped pool can be read into a transfer that quotes another one: once separators
 and case are gone, a name still shows where its parts begin.
 */
module QuotedNames {
  import opened PaymentNames
  import opened NameParts
  import opened Matcher
  import O = Orders
  import opened OrderSafety
  import opened OrderAttribution

  /** Surname, middle name and given name of a pool entry. */
  datatype Name = Name(surname: string, middle: string, given: string)

  function Stem(n: Name): string {
    n.surname + n.middle + n.given
  }

  const TAIL := "CHUYENTIEN"

  function Letters(n: Name): string {
    Stem(n) + TAIL
  }

  predicate Ok(n: Name) {
    SurnameOk(n.surname) && MiddleOk(n.middle) && GivenOk(n.given)
  }

  function Printed(n: Name): string {
    n.surname + " " + n.middle + " " + n.given + SUFFIX
  }

  ghost predicate From(n: Name, ss: seq<string>, ms: seq<string>, gs: seq<string>) {
    n.surname in ss && n.middle in ms && n.given in gs
  }

  // ----- every pool entry has its three parts

  lemma {:induction false} GivenShape(prefix: string, gs: seq<string>, n: string) returns (g: string)
    requires n in WithGiven(prefix, gs)
    ensures g in gs && n == prefix + g + SUFFIX
  {
    if n == prefix + gs[0] + SUFFIX {
      g := gs[0];
    } else {
      g := GivenShape(prefix, gs[1..], n);
    }
  }

  lemma {:induction false} MiddleShape(prefix: string, ms: seq<string>, gs: seq<string>, n: string)
    returns (m: string, g: string)
    requires n in WithMiddles(prefix, ms, gs)
    ensures m in ms && g in gs && n == prefix + m + " " + g + SUFFIX
  {
    if n in WithGiven(prefix + ms[0] + " ", gs) {
      m := ms[0];
      g := GivenShape(prefix + m + " ", gs, n);
    } else {
      m, g := MiddleShape(prefix, ms[1..], gs, n);
    }
  }

  lemma {:induction false} Shape(ss: seq<string>, ms: seq<string>, gs: seq<string>, n: string) returns (name: Name)
    requires n in WithSurnames(ss, ms, gs)
    ensures From(name, ss, ms, gs) && n == Printed(name)
  {
    if n in WithMiddles(ss[0] + " ", ms, gs) {
      var m, g := MiddleShape(ss[0] + " ", ms, gs, n);
      name := Name(ss[0], m, g);
    } else {
      name := Shape(ss[1..], ms, gs, n);
    }
  }

  // ----- what is left of a printed name

  function LowerChar(c: char): char {
    if 'A' <= c <= 'Z' then c + 32 as char else c
  }

  function Lower(x: string): string {
    seq(|x|, i requires 0 <= i < |x| => LowerChar(x[i]))
  }

  /** Letters are lowercased and kept, the blank is dropped. */
  ghost predicate Lowercases(fold: char -> string) {
    && (forall c: char :: 'A' <= c <= 'Z' || 'a' <= c <= 'z' ==> fold(c) == [LowerChar(c)])
    && fold(' ') == ""
  }

  lemma {:induction false} NormalizeLetters(fold: char -> string, x: string)
    requires Lowercases(fold) && Alphabetic(x)
    ensures Normalize(fold, x) == Lower(x)
  {
    if x == "" {
    } else {
      NormalizeLetters(fold, x[1..]);
      assert Lower(x) == [LowerChar(x[0])] + Lower(x[1..]);
    }
  }

  lemma NormalizeBlank(fold: char -> string)
    requires Lowercases(fold)
    ensures Normalize(fold, " ") == ""
  {
    assert " "[1..] == "";
    assert Normalize(fold, "") == "";
  }

  lemma LowerConcat(x: string, y: string)
    ensures Lower(x + y) == Lower(x) + Lower(y)
  {
  }

  predicate Alphabetic(x: string) {
    forall i | 0 <= i < |x| :: 'A' <= x[i] <= 'Z' || 'a' <= x[i] <= 'z'
  }

  /** Blanks between words leave nothing behind. */
  lemma NormalizeWords(fold: char -> string, x: string, y: string)
    requires Lowercases(fold) && Alphabetic(y)
    ensures Normalize(fold, x + " " + y) == Normalize(fold, x) + Lower(y)
  {
    NormalizeConcat(fold, x + " ", y);
    NormalizeConcat(fold, x, " ");
    NormalizeBlank(fold);
    NormalizeLetters(fold, y);
  }

  lemma SuffixWords()
    ensures SUFFIX == "" + " " + "chuyen" + " " + "tien" && Lower(TAIL) == Lower("chuyen") + Lower("tien")
  {
  }

  lemma NormalizeSuffix(fold: char -> string, a: string, b: string)
    requires Lowercases(fold) && Alphabetic(a) && Alphabetic(b)
    ensures Normalize(fold, "" + " " + a + " " + b) == Lower(a) + Lower(b)
  {
    NormalizeWords(fold, "", a);
    NormalizeWords(fold, "" + " " + a, b);
  }

  lemma NormalizeStem(fold: char -> string, s: string, m: string, g: string)
    requires Lowercases(fold) && Alphabetic(s) && Alphabetic(m) && Alphabetic(g)
    ensures Normalize(fold, s + " " + m + " " + g) == Lower(s + m + g)
  {
    NormalizeLetters(fold, s);
    NormalizeWords(fold, s, m);
    NormalizeWords(fold, s + " " + m, g);
    LowerConcat(s, m);
    LowerConcat(s + m, g);
  }

  lemma NormalizeShipped(fold: char -> string)
    requires Lowercases(fold)
    ensures Normalize(fold, SUFFIX) == Lower(TAIL)
  {
    SuffixWords();
    NormalizeSuffix(fold, "chuyen", "tien");
  }

  lemma NormalizeParts(fold: char -> string, n: Name, suffix: string, tail: string)
    requires Lowercases(fold) && Ok(n) && Normalize(fold, suffix) == Lower(tail)
    ensures Normalize(fold, n.surname + " " + n.middle + " " + n.given + suffix) == Lower(Stem(n) + tail)
  {
    NormalizeConcat(fold, n.surname + " " + n.middle + " " + n.given, suffix);
    NormalizeStem(fold, n.surname, n.middle, n.given);
    LowerConcat(Stem(n), tail);
  }

  lemma NormalizeName(fold: char -> string, n: Name)
    requires Lowercases(fold) && Ok(n)
    ensures Normalize(fold, Printed(n)) == Lower(Letters(n))
  {
    NormalizeShipped(fold);
    NormalizeParts(fold, n, SUFFIX, TAIL);
  }

  lemma LowerOccurrence(x: string, y: string, k: nat)
    requires Upper(x) && Upper(y) && OccursAt(Lower(x), Lower(y), k)
    ensures OccursAt(x, y, k)
  {
    forall i | 0 <= i < |y| ensures x[k + i] == y[i] {
      assert Lower(x)[k..k + |y|][i] == Lower(y)[i];
      assert 'A' <= x[k + i] <= 'Z' && 'A' <= y[i] <= 'Z';
    }
  }

  // ----- an occurrence sits at the end

  /** The stem of a name holds no "HUYE". */
  lemma NoHuye(n: Name, y: nat)
    requires Ok(n) && 2 <= y && y + 1 < |Stem(n)|
    ensures !(Stem(n)[y - 2] == 'H' && Stem(n)[y - 1] == 'U' && Stem(n)[y] == 'Y' && Stem(n)[y + 1] == 'E')
  {
    var a, s, m := Stem(n), |n.surname|, |n.middle|;
    if y < s {
      assert a[y] == n.surname[y] && a[y - 2] == n.surname[y - 2];
      assert a[y + 1] == if y + 1 < s then n.surname[y + 1] else n.middle[0];
    } else if y < s + m {
      assert a[y] == n.middle[y - s] && n.middle[y - s] in n.middle;
    } else {
      var i := y - s - m;
      assert a[y] == n.given[i] && a[y + 1] == n.given[i + 1];
      assert i == 0 ==> a[y - 1] == n.middle[m - 1] && a[y - 2] == n.middle[m - 2];
    }
  }

  lemma TailOnlyAtEnd(n: Name, e: nat)
    requires Ok(n) && 10 <= e < |Letters(n)|
    ensures Letters(n)[e - 10..e] != TAIL
  {
    var x, a := Letters(n), |Stem(n)|;
    if e <= a {
      NoHuye(n, e - 7);
      var w := x[e - 10..e];
      assert w[1] == Stem(n)[e - 9] && w[2] == Stem(n)[e - 8] && w[3] == Stem(n)[e - 7] && w[4] == Stem(n)[e - 6];
      assert TAIL[1] == 'H' && TAIL[2] == 'U' && TAIL[3] == 'Y' && TAIL[4] == 'E';
    } else {
      var j := a - (e - 10);
      assert x[e - 10..e][j] == x[a] == TAIL[0];
    }
  }

  lemma OccurrenceIsSuffix(n: Name, m: Name, k: nat)
    requires Ok(n) && Ok(m) && OccursAt(Letters(n), Letters(m), k)
    ensures Stem(n) == Stem(n)[..k] + Stem(m) && k <= |Stem(n)|
  {
    var x, y := Letters(n), Letters(m);
    var e := k + |y|;
    assert x[e - 10..e] == x[k..e][|y| - 10..] == TAIL;
    if e < |x| {
      TailOnlyAtEnd(n, e);
    }
    assert Stem(m) == y[..|y| - 10] == x[k..e][..|y| - 10];
  }

  // ----- and then the parts are the same

  ghost predicate Readable(ss: seq<string>, ms: seq<string>, gs: seq<string>) {
    && SurnamesShow(ss) && MiddlesShow(ms) && GivensShow(gs)
    && (forall x :: x in ss ==> SurnameOk(x)) && (forall x :: x in ms ==> MiddleOk(x))
    && (forall x :: x in gs ==> GivenOk(x))
  }

  lemma SameLast(a: string, x: string, b: string, y: string)
    requires a + x == b + y && |x| == |y|
    ensures a == b && x == y
  {
    assert a == (a + x)[..|a|] && b == (b + y)[..|b|];
    assert x == (a + x)[|a|..] && y == (b + y)[|b|..];
  }

  lemma SameGiven(p: string, g: string, q: string, h: string, gs: seq<string>)
    requires GivensShow(gs) && g in gs && h in gs && NoGivenEnd(p) && NoGivenEnd(q) && p + g == q + h
    ensures p == q && g == h
  {
    assert GivenLen(p + g) == |g| && GivenLen(q + h) == |h|;
    SameLast(p, g, q, h);
  }

  lemma SameMiddle(p: string, m: string, q: string, k: string, ms: seq<string>)
    requires MiddlesShow(ms) && m in ms && k in ms && NoMiddleEnd(p) && NoMiddleEnd(q) && p + m == q + k
    ensures p == q && m == k
  {
    assert MiddleLen(p + m) == |m| && MiddleLen(q + k) == |k|;
    SameLast(p, m, q, k);
  }

  lemma SameSurname(s: string, c: string, r: string, ss: seq<string>)
    requires SurnamesShow(ss) && s in ss && r in ss && s == c + r
    ensures s == r
  {
    assert "" + s == s;
    assert SurnameLen("" + s) == |s| && SurnameLen(c + r) == |r|;
    SameLast("", s, c, r);
  }

  lemma MiddleEnds(p: string, x: string)
    requires MiddleOk(x)
    ensures NoGivenEnd(p + x)
  {
    Ends(p, x);
  }

  lemma SurnameEnds(p: string, x: string)
    requires SurnameOk(x)
    ensures NoMiddleEnd(p + x) && NoMiddleEnd(x)
  {
    Ends(p, x);
  }

  lemma SameParts(n: Name, m: Name, c: string, ss: seq<string>, ms: seq<string>, gs: seq<string>)
    requires Readable(ss, ms, gs) && From(n, ss, ms, gs) && From(m, ss, ms, gs)
    requires Stem(n) == c + Stem(m)
    ensures n == m
  {
    var q := c + m.surname;
    assert c + Stem(m) == q + m.middle + m.given;
    MiddleEnds(n.surname, n.middle);
    MiddleEnds(q, m.middle);
    SameGiven(n.surname + n.middle, n.given, q + m.middle, m.given, gs);
    SurnameEnds("", n.surname);
    SurnameEnds(c, m.surname);
    SameMiddle(n.surname, n.middle, q, m.middle, ms);
    SameSurname(n.surname, c, m.surname, ss);
  }

  lemma UpperLetters(n: Name)
    requires Ok(n)
    ensures Upper(Letters(n))
  {
    assert Upper(TAIL);
  }

  lemma OnlyItself(fold: char -> string, n: Name, m: Name, ss: seq<string>, ms: seq<string>, gs: seq<string>)
    requires Lowercases(fold) && Readable(ss, ms, gs) && From(n, ss, ms, gs) && From(m, ss, ms, gs)
    requires Mentions(fold, Printed(n), Printed(m))
    ensures n == m
  {
    NormalizeName(fold, n);
    NormalizeName(fold, m);
    var k: nat :| k <= |Normalize(fold, Printed(n))| && OccursAt(Normalize(fold, Printed(n)), Normalize(fold, Printed(m)), k);
    UpperLetters(n);
    UpperLetters(m);
    LowerOccurrence(Letters(n), Letters(m), k);
    OccurrenceIsSuffix(n, m, k);
    SameParts(n, m, Stem(n)[..k], ss, ms, gs);
  }

  /** A transfer that quotes a name of the pool, with any separators in it, quotes no other. */
  lemma NamesQuoteThemselvesOnly(fold: char -> string, n: string, text: string,
                                 ss: seq<string>, ms: seq<string>, gs: seq<string>)
    requires Lowercases(fold) && Readable(ss, ms, gs) && n in WithSurnames(ss, ms, gs)
    requires Strip(fold, text) == Strip(fold, n)
    ensures QuotesOneName(fold, WithSurnames(ss, ms, gs), text)
  {
    NormalizeStrip(fold, text);
    NormalizeStrip(fold, n);
    var name := Shape(ss, ms, gs, n);
    forall m | m in WithSurnames(ss, ms, gs) && Mentions(fold, text, m) ensures m == n {
      var other := Shape(ss, ms, gs, m);
      assert Mentions(fold, Printed(name), Printed(other));
      OnlyItself(fold, name, other, ss, ms, gs);
    }
  }

  /** The shipped lists are such: the last letters of every part give it away. */
  lemma ShippedListsRead()
    ensures Readable(SURNAMES, MIDDLES, GIVEN)
  {
    SurnamesRead();
    MiddlesRead();
    GivensRead();
  }

  // ----- end to end

  lemma {:induction false} RunKeepsPool(db: O.Db, fold: char -> string, es: seq<O.Event>)
    ensures O.Run(db, fold, es).pool == db.pool
  {
    if es == [] {
    } else {
      RunKeepsPool(db, fold, es[..|es| - 1]);
    }
  }

  /** With a pool made from readable lists, after any run: a transfer that quotes the name of an
      order, with any separators in it, is never ambiguous and pays exactly the payable order. */
  lemma QuotingANamePaysItsOrder(start: O.Db, fold: char -> string, es: seq<O.Event>, account: string, b: O.BankTx,
                                 n: string, ss: seq<string>, ms: seq<string>, gs: seq<string>)
    requires Init(start) && start.pool == WithSurnames(ss, ms, gs) && Readable(ss, ms, gs) && Lowercases(fold)
    requires n in start.pool && Strip(fold, b.text) == Strip(fold, n)
    requires NoLegacyRival(O.Run(start, fold, es), fold, account, b)
    ensures var db := O.Run(start, fold, es);
      && O.Decide(db, fold, account, b) != Ambiguous
      && (forall i: nat :: i < |db.orders| ==>
            (O.Decide(db, fold, account, b) == Matched(i) <==> Payable(db, fold, account, b, i)))
  {
    RunKeepsPool(start, fold, es);
    NamesQuoteThemselvesOnly(fold, n, b.text, ss, ms, gs);
    EveryRunPaysTheOwner(start, fold, es, account, b);
  }
}
