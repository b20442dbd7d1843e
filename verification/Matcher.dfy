/**
 Attribution of a bank transfer to an order by the text the payer typed.

 Unicode normalisation is a parameter: `fold` sends one character to the lowercase
 ASCII letters and digits it contributes (none for separators), which is what NFD,
 mark removal, lowercasing and the final filter amount to, one code point at a time.
 */
module Matcher {
  import opened OrderLifecycle

  datatype Candidate = Candidate(id: nat, code: string, amount: int, status: Status, expiredAt: int)

  /** A transfer to attribute, at a given time. */
  datatype Query = Query(fold: char -> string, amount: int, text: string, now: int)

  datatype Decision = Matched(id: nat) | Ambiguous | Unmatched

  predicate AsciiAlnum(c: char) {
    'a' <= c <= 'z' || 'A' <= c <= 'Z' || '0' <= c <= '9'
  }

  /** What every normalisation agrees on: ASCII separators vanish, ASCII letters and digits
      contribute exactly one character, and nothing but [a-z0-9] ever comes out. */
  ghost predicate ValidFold(fold: char -> string) {
    && (forall c: char :: c < 128 as char && !AsciiAlnum(c) ==> fold(c) == "")
    && (forall c: char :: AsciiAlnum(c) ==> |fold(c)| == 1)
    && (forall c: char, d :: d in fold(c) ==> 'a' <= d <= 'z' || '0' <= d <= '9')
  }

  function Normalize(fold: char -> string, s: string): string {
    if s == "" then "" else fold(s[0]) + Normalize(fold, s[1..])
  }

  predicate OccursAt(hay: string, needle: string, k: nat) {
    k + |needle| <= |hay| && hay[k..k + |needle|] == needle
  }

  predicate Contains(hay: string, needle: string) {
    exists k: nat | k <= |hay| :: OccursAt(hay, needle, k)
  }

  predicate Mentions(fold: char -> string, text: string, code: string) {
    Contains(Normalize(fold, text), Normalize(fold, code))
  }

  /** The needle is somewhere in the text, with anything before and after it. */
  ghost predicate Stands(hay: string, needle: string) {
    exists before, after :: hay == before + needle + after
  }

  lemma MentionsIffStands(fold: char -> string, text: string, code: string)
    ensures Mentions(fold, text, code) <==> Stands(Normalize(fold, text), Normalize(fold, code))
  {
    var hay, needle := Normalize(fold, text), Normalize(fold, code);
    if Mentions(fold, text, code) {
      var k: nat :| k <= |hay| && OccursAt(hay, needle, k);
      assert hay == hay[..k] + needle + hay[k + |needle|..];
    }
    if Stands(hay, needle) {
      var before, after :| hay == before + needle + after;
      assert OccursAt(hay, needle, |before|);
    }
  }

  predicate Hit(q: Query, c: Candidate) {
    && c.status == Pending
    && c.expiredAt > q.now
    && c.amount == q.amount
    && Mentions(q.fold, q.text, c.code)
  }

  function Hits(q: Query, cands: seq<Candidate>): seq<Candidate> {
    if cands == [] then []
    else (if Hit(q, cands[0]) then [cands[0]] else []) + Hits(q, cands[1..])
  }

  function FindOrderMatch(q: Query, cands: seq<Candidate>): Decision {
    var hits := Hits(q, cands);
    if |hits| == 1 then Matched(hits[0].id) else if |hits| > 1 then Ambiguous else Unmatched
  }

  /** A candidate is a hit exactly when it is pending, has not run out, asks for this amount and its
      normalised code stands in the normalised text. */
  lemma HitIffCodeStands(q: Query, c: Candidate)
    ensures Hit(q, c) <==> c.status == Pending && q.now < c.expiredAt && c.amount == q.amount
                           && Stands(Normalize(q.fold, q.text), Normalize(q.fold, c.code))
  {
    MentionsIffStands(q.fold, q.text, c.code);
  }

  lemma {:induction false} HitsCount(q: Query, cands: seq<Candidate>, c: Candidate)
    ensures multiset(Hits(q, cands))[c] == if Hit(q, c) then multiset(cands)[c] else 0
  {
    if cands == [] {
    } else {
      HitsCount(q, cands[1..], c);
      assert cands == [cands[0]] + cands[1..];
    }
  }

  /** The database may return candidates in any order: the decision is the same. */
  lemma ReorderKeepsDecision(q: Query, cands: seq<Candidate>, shuffled: seq<Candidate>)
    requires multiset(cands) == multiset(shuffled)
    ensures FindOrderMatch(q, cands) == FindOrderMatch(q, shuffled)
  {
    var a, b := Hits(q, cands), Hits(q, shuffled);
    assert multiset(a) == multiset(b) by {
      forall c: Candidate ensures multiset(a)[c] == multiset(b)[c] {
        HitsCount(q, cands, c);
        HitsCount(q, shuffled, c);
      }
    }
    assert |a| == |multiset(a)| == |multiset(b)| == |b|;
    if |a| == 1 {
      assert a[0] in multiset(b);
    }
  }

  lemma NormalizeCons(fold: char -> string, c: char, rest: string)
    ensures Normalize(fold, [c] + rest) == fold(c) + Normalize(fold, rest)
  {
    assert ([c] + rest)[1..] == rest;
  }

  lemma {:induction false} NormalizeConcat(fold: char -> string, s: string, t: string)
    ensures Normalize(fold, s + t) == Normalize(fold, s) + Normalize(fold, t)
  {
    if s == "" {
      assert s + t == t;
    } else {
      var c, rest := s[0], s[1..];
      NormalizeConcat(fold, rest, t);
      assert s == [c] + rest;
      ConcatAssociates([c], rest, t);
      NormalizeCons(fold, c, rest);
      NormalizeCons(fold, c, rest + t);
      ConcatAssociates(fold(c), Normalize(fold, rest), Normalize(fold, t));
    }
  }

  function Kept(fold: char -> string, c: char): string {
    if fold(c) == "" then "" else [c]
  }

  /** The text with every character that contributes nothing removed. */
  function Strip(fold: char -> string, s: string): string {
    if s == "" then "" else Kept(fold, s[0]) + Strip(fold, s[1..])
  }

  lemma {:induction false} NormalizeStrip(fold: char -> string, s: string)
    ensures Normalize(fold, s) == Normalize(fold, Strip(fold, s))
  {
    if s == "" {
    } else {
      NormalizeStrip(fold, s[1..]);
      if fold(s[0]) == "" {
        assert Strip(fold, s) == Strip(fold, s[1..]);
      } else {
        assert Strip(fold, s)[1..] == Strip(fold, s[1..]);
      }
    }
  }

  lemma {:induction false} HitsSameText(q: Query, noisy: string, cands: seq<Candidate>)
    requires Normalize(q.fold, q.text) == Normalize(q.fold, noisy)
    ensures Hits(q, cands) == Hits(q.(text := noisy), cands)
  {
    if cands == [] {
    } else {
      HitsSameText(q, noisy, cands[1..]);
    }
  }

  /** A bank may insert separators anywhere in the text: two texts that agree once the
      characters with an empty fold are dropped get the same decision. */
  lemma SeparatorsKeepDecision(q: Query, noisy: string, cands: seq<Candidate>)
    requires Strip(q.fold, q.text) == Strip(q.fold, noisy)
    ensures FindOrderMatch(q, cands) == FindOrderMatch(q.(text := noisy), cands)
  {
    NormalizeStrip(q.fold, q.text);
    NormalizeStrip(q.fold, noisy);
    HitsSameText(q, noisy, cands);
  }

  lemma StripCons(fold: char -> string, c: char, rest: string)
    ensures Strip(fold, [c] + rest) == Kept(fold, c) + Strip(fold, rest)
  {
    assert ([c] + rest)[1..] == rest;
  }

  lemma {:induction false} StripConcat(fold: char -> string, s: string, t: string)
    ensures Strip(fold, s + t) == Strip(fold, s) + Strip(fold, t)
  {
    if s == "" {
      assert s + t == t;
    } else {
      var c, rest := s[0], s[1..];
      StripConcat(fold, rest, t);
      assert s == [c] + rest;
      ConcatAssociates([c], rest, t);
      StripCons(fold, c, rest);
      StripCons(fold, c, rest + t);
      ConcatAssociates(Kept(fold, c), Strip(fold, rest), Strip(fold, t));
    }
  }

  lemma ConcatAssociates(a: string, b: string, c: string)
    ensures (a + b) + c == a + (b + c)
  {
  }

  /** Every run of ASCII separators inserted at any place is such noise. */
  lemma AsciiSeparatorsAreNoise(fold: char -> string, before: string, noise: string, after: string)
    requires ValidFold(fold)
    requires forall c :: c in noise ==> c < 128 as char && !AsciiAlnum(c)
    ensures Strip(fold, before + noise + after) == Strip(fold, before + after)
  {
    StripConcat(fold, before + noise, after);
    StripConcat(fold, before, noise);
    StripConcat(fold, before, after);
    NoiseStripsAway(fold, noise);
    assert Strip(fold, before) + "" == Strip(fold, before);
  }

  lemma {:induction false} NoiseStripsAway(fold: char -> string, noise: string)
    requires forall c :: c in noise ==> fold(c) == ""
    ensures Strip(fold, noise) == ""
  {
    if noise == "" {
    } else {
      NoiseStripsAway(fold, noise[1..]);
    }
  }

  lemma {:induction false} HitsAreHits(q: Query, cands: seq<Candidate>)
    ensures forall c :: c in Hits(q, cands) ==> c in cands && Hit(q, c)
  {
    if cands == [] {
    } else {
      HitsAreHits(q, cands[1..]);
    }
  }

  lemma {:induction false} NoHit(q: Query, cands: seq<Candidate>)
    requires forall c :: c in cands ==> !Hit(q, c)
    ensures Hits(q, cands) == []
  {
    if cands == [] {
    } else {
      NoHit(q, cands[1..]);
    }
  }

  lemma {:induction false} OneHit(q: Query, cands: seq<Candidate>, i: nat)
    requires i < |cands| && Hit(q, cands[i])
    requires forall j :: 0 <= j < |cands| && j != i ==> !Hit(q, cands[j])
    ensures Hits(q, cands) == [cands[i]]
  {
    if i == 0 {
      NoHit(q, cands[1..]);
    } else {
      OneHit(q, cands[1..], i - 1);
    }
  }

  ghost predicate Increasing(cands: seq<Candidate>) {
    forall j, k :: 0 <= j < k < |cands| ==> cands[j].id < cands[k].id
  }

  lemma {:induction false} HitsIncreasing(q: Query, cands: seq<Candidate>)
    requires Increasing(cands)
    ensures Increasing(Hits(q, cands))
  {
    if cands == [] {
    } else {
      HitsIncreasing(q, cands[1..]);
      HitsAreHits(q, cands[1..]);
      var rest := Hits(q, cands[1..]);
      forall k | 0 <= k < |rest| ensures cands[0].id < rest[k].id {
        assert rest[k] in cands[1..];
      }
    }
  }

  ghost predicate OnlyHit(q: Query, cands: seq<Candidate>, i: nat)
    requires i < |cands|
  {
    Hit(q, cands[i]) && forall j :: 0 <= j < |cands| && j != i ==> !Hit(q, cands[j])
  }

  lemma MatchedHasNoRival(q: Query, cands: seq<Candidate>, h: Candidate)
    requires Hits(q, cands) == [h]
    ensures forall j :: 0 <= j < |cands| && Hit(q, cands[j]) ==> cands[j] == h
  {
    forall j | 0 <= j < |cands| && Hit(q, cands[j]) ensures cands[j] == h {
      HitsCount(q, cands, cands[j]);
      assert cands[j] in multiset([h]);
    }
  }

  /** With candidates listed by id, `Matched(id)` says exactly one candidate hits, and it is that one. */
  lemma MatchedMeansUnique(q: Query, cands: seq<Candidate>, i: nat)
    requires i < |cands|
    requires Increasing(cands)
    ensures FindOrderMatch(q, cands) == Matched(cands[i].id) <==> OnlyHit(q, cands, i)
  {
    var hits := Hits(q, cands);
    if OnlyHit(q, cands, i) {
      OneHit(q, cands, i);
    }
    if FindOrderMatch(q, cands) == Matched(cands[i].id) {
      HitsAreHits(q, cands);
      assert hits[0] in hits && hits == [hits[0]];
      MatchedHasNoRival(q, cands, hits[0]);
    }
  }
}
