/** The pool of human-looking names that orders borrow as transfer content. */
module PaymentNames {
  const SUFFIX := " chuyen tien"

  const SURNAMES: seq<string> := [
    "NGUYEN", "TRAN", "LE", "PHAM", "HOANG", "HUYNH", "PHAN", "VU", "VO", "DANG",
    "BUI", "DO", "HO", "NGO", "DUONG", "LY", "DINH", "TRINH", "MA", "CAO",
    "LUONG", "LUU", "TRUONG", "TA", "DAO", "LAM", "CHAU", "TO", "LA", "QUACH"]

  const MIDDLES: seq<string> := [
    "VAN", "THI", "TIEN", "MINH", "QUANG", "DUC", "HUU", "NGOC", "THANH", "HOANG",
    "GIA", "BAO", "TUAN", "HAI", "XUAN", "NHAT", "TRUNG", "KIM", "ANH", "KHANH"]

  const GIVEN: seq<string> := [
    "DAT", "AN", "BINH", "CUONG", "DUNG", "DUY", "GIANG", "HIEU", "HOA", "HUNG",
    "HUY", "KHANG", "KHOA", "KIEN", "LINH", "LONG", "NAM", "PHONG", "PHUC", "QUAN",
    "QUYNH", "SON", "TAM", "THAO", "THIEN", "THINH", "TRANG", "TRIEU", "VINH", "YEN"]

  function WithGiven(prefix: string, given: seq<string>): seq<string> {
    if given == [] then [] else [prefix + given[0] + SUFFIX] + WithGiven(prefix, given[1..])
  }

  function WithMiddles(prefix: string, middles: seq<string>, given: seq<string>): seq<string> {
    if middles == [] then []
    else WithGiven(prefix + middles[0] + " ", given) + WithMiddles(prefix, middles[1..], given)
  }

  function WithSurnames(surnames: seq<string>, middles: seq<string>, given: seq<string>): seq<string> {
    if surnames == [] then []
    else WithMiddles(surnames[0] + " ", middles, given) + WithSurnames(surnames[1..], middles, given)
  }

  /** Surname by surname, then middle name by middle name: 30 * 20 * 30 names. */
  function Pool(): seq<string> {
    WithSurnames(SURNAMES, MIDDLES, GIVEN)
  }

  predicate EndsWith(s: string, suffix: string) {
    |suffix| <= |s| && s[|s| - |suffix|..] == suffix
  }

  lemma {:induction false} WithGivenEnds(prefix: string, given: seq<string>)
    ensures forall n :: n in WithGiven(prefix, given) ==> EndsWith(n, SUFFIX)
    ensures |WithGiven(prefix, given)| == |given|
  {
    if given == [] {
    } else {
      WithGivenEnds(prefix, given[1..]);
    }
  }

  lemma {:induction false} WithMiddlesEnds(prefix: string, middles: seq<string>, given: seq<string>)
    ensures forall n :: n in WithMiddles(prefix, middles, given) ==> EndsWith(n, SUFFIX)
    ensures |WithMiddles(prefix, middles, given)| == |middles| * |given|
  {
    if middles == [] {
    } else {
      WithMiddlesEnds(prefix, middles[1..], given);
      WithGivenEnds(prefix + middles[0] + " ", given);
    }
  }

  lemma {:induction false} WithSurnamesEnds(surnames: seq<string>, middles: seq<string>, given: seq<string>, each: nat)
    requires each == |middles| * |given|
    ensures forall n :: n in WithSurnames(surnames, middles, given) ==> EndsWith(n, SUFFIX)
    ensures |WithSurnames(surnames, middles, given)| == |surnames| * each
  {
    if surnames == [] {
    } else {
      WithSurnamesEnds(surnames[1..], middles, given, each);
      WithMiddlesEnds(surnames[0] + " ", middles, given);
      assert |surnames| * each == (|surnames| - 1) * each + each;
    }
  }

  /** The pool has 18000 entries and each ends with the transfer suffix. */
  lemma PoolNames()
    ensures |Pool()| == 18000
    ensures forall n :: n in Pool() ==> EndsWith(n, SUFFIX)
  {
    var s, m, g := SURNAMES, MIDDLES, GIVEN;
    assert |s| == 30 && |m| == 20 && |g| == 30;
    PoolOf(s, m, g);
  }

  lemma PoolOf(s: seq<string>, m: seq<string>, g: seq<string>)
    requires |s| == 30 && |m| == 20 && |g| == 30
    ensures |WithSurnames(s, m, g)| == 18000
    ensures forall n :: n in WithSurnames(s, m, g) ==> EndsWith(n, SUFFIX)
  {
    WithSurnamesEnds(s, m, g, 600);
  }
}
