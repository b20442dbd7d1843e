/** The tag-length-value text of a bank transfer QR code, and a strict reader for it. */
module VietQr {
  import opened Common
  import opened Crc16

  datatype Field = Field(tag: string, value: string)

  datatype Transfer = Transfer(bin: string, account: string, amount: int, content: string)

  // ----- printing

  function Digit(n: nat): char
    requires n < 10
  {
    '0' + n as char
  }

  function Digits(n: nat): string {
    if n < 10 then [Digit(n)] else Digits(n / 10) + [Digit(n % 10)]
  }

  function Str(m: int): string {
    if m < 0 then "-" + Digits(-m) else Digits(m)
  }

  /** Decimal, padded with a zero to at least two digits. */
  function Pad2(n: nat): string {
    if n < 10 then "0" + Digits(n) else Digits(n)
  }

  function Tlv(f: Field): string {
    f.tag + Pad2(|f.value|) + f.value
  }

  function Print(fs: seq<Field>): string {
    if fs == [] then "" else Tlv(fs[0]) + Print(fs[1..])
  }

  function Beneficiary(t: Transfer): seq<Field> {
    [Field("00", t.bin), Field("01", t.account)]
  }

  function Merchant(t: Transfer): seq<Field> {
    [Field("00", "A000000727"), Field("01", Print(Beneficiary(t)))]
  }

  function Purpose(t: Transfer): seq<Field> {
    [Field("08", t.content)]
  }

  function Fields(t: Transfer): seq<Field> {
    [Field("00", "01"), Field("01", "11"), Field("38", Print(Merchant(t))), Field("53", "704"),
     Field("54", Str(t.amount)), Field("58", "VN"), Field("62", Print(Purpose(t)))]
  }

  const CRC_HEADER := "6304"

  /** The whole payload, or nothing where the text does not encode as ASCII. */
  method Generate(t: Transfer) returns (r: Option<string>)
    ensures r == Payload(t)
  {
    var body := Print(Fields(t)) + CRC_HEADER;
    var crc := Crc16CcittFalse(body);
    match crc
    case None => return None;
    case Some(digits) => return Some(body + digits);
  }

  function Payload(t: Transfer): Option<string> {
    var body := Print(Fields(t)) + CRC_HEADER;
    if Ascii(body) then Some(body + Hex4(Checksum(body))) else None
  }

  // ----- reading

  function ParseNat(s: string): Option<nat> {
    if s == "" then
      None
    else
      var c := s[|s| - 1];
      if !('0' <= c <= '9') then None
      else if |s| == 1 then Some(c as nat - '0' as nat)
      else
        match ParseNat(s[..|s| - 1])
        case None => None
        case Some(n) => Some(10 * n + (c as nat - '0' as nat))
  }

  /** Two characters of tag, two digits of length, and the fields after it; nothing left over. */
  function ReadAll(s: string): Option<seq<Field>> {
    if s == "" then
      Some([])
    else if |s| < 4 || ParseNat(s[2..4]).None? || |s| < 4 + ParseNat(s[2..4]).value then
      None
    else
      var n := ParseNat(s[2..4]).value;
      match ReadAll(s[4 + n..])
      case None => None
      case Some(fs) => Some([Field(s[..2], s[4..4 + n])] + fs)
  }

  function ReadBeneficiary(s: string): Option<(string, string)> {
    match ReadAll(s)
    case None => None
    case Some(fs) =>
      if |fs| == 2 && fs[0].tag == "00" && fs[1].tag == "01" then Some((fs[0].value, fs[1].value)) else None
  }

  function ReadMerchant(s: string): Option<(string, string)> {
    match ReadAll(s)
    case None => None
    case Some(fs) =>
      if |fs| == 2 && fs[0] == Field("00", "A000000727") && fs[1].tag == "01"
      then ReadBeneficiary(fs[1].value) else None
  }

  function ReadPurpose(s: string): Option<string> {
    match ReadAll(s)
    case None => None
    case Some(fs) => if |fs| == 1 && fs[0].tag == "08" then Some(fs[0].value) else None
  }

  predicate Framed(fs: seq<Field>) {
    && |fs| == 7
    && fs[0] == Field("00", "01") && fs[1] == Field("01", "11") && fs[2].tag == "38"
    && fs[3] == Field("53", "704") && fs[4].tag == "54" && fs[5] == Field("58", "VN") && fs[6].tag == "62"
  }

  function ReadTransfer(s: string): Option<Transfer> {
    match ReadAll(s)
    case None => None
    case Some(fs) =>
      if !Framed(fs) then None
      else
        match (ReadMerchant(fs[2].value), ParseNat(fs[4].value), ReadPurpose(fs[6].value))
        case (Some(who), Some(amount), Some(content)) => Some(Transfer(who.0, who.1, amount, content))
        case _ => None
  }

  /** Checks the characters and the checksum before it looks at the fields. */
  function Read(s: string): Option<Transfer> {
    if |s| < 8 || !Ascii(s) then
      None
    else
      var n := |s| - 4;
      if s[n - 4..n] == CRC_HEADER && s[n..] == Hex4(Checksum(s[..n])) then ReadTransfer(s[..n - 4]) else None
  }

  // ----- numbers

  lemma {:induction false} DigitsParse(n: nat)
    ensures ParseNat(Digits(n)) == Some(n) && |Digits(n)| >= 1
  {
    if n < 10 {
    } else {
      DigitsParse(n / 10);
      var s := Digits(n);
      assert s[..|s| - 1] == Digits(n / 10);
    }
  }

  /** A whole number, with a minus sign in front if it is negative. */
  function ParseInt(s: string): Option<int> {
    if s != "" && s[0] == '-' then
      match ParseNat(s[1..])
      case None => None
      case Some(n) =>
        var k: int := n;
        Some(-k)
    else
      match ParseNat(s)
      case None => None
      case Some(n) => Some(n)
  }

  lemma {:induction false} DigitsAreDigits(n: nat)
    ensures |Digits(n)| >= 1 && '0' <= Digits(n)[0] <= '9'
  {
    if n < 10 {
    } else {
      DigitsAreDigits(n / 10);
    }
  }

  /** The printed amount is the amount. */
  lemma StrParses(m: int)
    ensures ParseInt(Str(m)) == Some(m)
  {
    var n: nat := if m < 0 then -m else m;
    DigitsParse(n);
    DigitsAreDigits(n);
    assert m < 0 ==> Str(m)[1..] == Digits(n);
  }

  lemma {:induction false} ParsedFits(s: string)
    requires ParseNat(s).Some?
    ensures |Digits(ParseNat(s).value)| <= |s|
  {
    if |s| <= 1 {
    } else {
      ParsedFits(s[..|s| - 1]);
    }
  }

  lemma Pad2Parses(n: nat)
    requires n <= 99
    ensures |Pad2(n)| == 2 && ParseNat(Pad2(n)) == Some(n)
  {
    DigitsParse(n);
    if n < 10 {
      var s := Pad2(n);
      assert s[..1] == "0";
      assert ParseNat("0") == Some(0);
    } else {
      DigitsParse(n / 10);
    }
  }

  lemma TwoDigitsAtMost99(s: string)
    requires |s| == 2 && ParseNat(s).Some?
    ensures ParseNat(s).value <= 99
  {
  }

  // ----- fields

  ghost predicate Sized(fs: seq<Field>) {
    forall i :: 0 <= i < |fs| ==> |fs[i].tag| == 2 && |fs[i].value| <= 99
  }

  ghost predicate TwoCharTags(fs: seq<Field>) {
    forall i :: 0 <= i < |fs| ==> |fs[i].tag| == 2
  }

  lemma ReadFirst(f: Field, rest: string)
    requires |f.tag| == 2 && |f.value| <= 99
    ensures var s := Tlv(f) + rest;
      |s| >= 4 + |f.value| && s[..2] == f.tag && ParseNat(s[2..4]) == Some(|f.value|)
      && s[4..4 + |f.value|] == f.value && s[4 + |f.value|..] == rest
  {
    Pad2Parses(|f.value|);
    var s := Tlv(f) + rest;
    assert s[2..4] == Pad2(|f.value|);
  }

  lemma {:induction false} SizedReadsBack(fs: seq<Field>)
    requires Sized(fs)
    ensures ReadAll(Print(fs)) == Some(fs)
  {
    if fs == [] {
    } else {
      SizedReadsBack(fs[1..]);
      ReadFirst(fs[0], Print(fs[1..]));
      assert [Field(fs[0].tag, fs[0].value)] + fs[1..] == fs;
    }
  }

  lemma {:induction false} ReadIsSized(s: string)
    requires ReadAll(s).Some?
    ensures Sized(ReadAll(s).value) && |s| == Length(ReadAll(s).value)
    decreases |s|
  {
    if s == "" {
    } else {
      TwoDigitsAtMost99(s[2..4]);
      var n := ParseNat(s[2..4]).value;
      ReadIsSized(s[4 + n..]);
      var fs := ReadAll(s).value;
      assert fs[1..] == ReadAll(s[4 + n..]).value;
    }
  }

  /** Characters that fields of two-digit length take. */
  function Length(fs: seq<Field>): nat {
    if fs == [] then 0 else 4 + |fs[0].value| + Length(fs[1..])
  }

  /** Printed fields read back exactly when every value fits a two-digit length. */
  lemma FieldsReadBackIffSized(fs: seq<Field>)
    requires TwoCharTags(fs)
    ensures ReadAll(Print(fs)) == Some(fs) <==> forall i :: 0 <= i < |fs| ==> |fs[i].value| <= 99
  {
    if Sized(fs) {
      SizedReadsBack(fs);
    } else if ReadAll(Print(fs)) == Some(fs) {
      ReadIsSized(Print(fs));
    }
  }

  lemma {:induction false} PrintLength(fs: seq<Field>)
    requires Sized(fs)
    ensures |Print(fs)| == Length(fs)
  {
    if fs == [] {
    } else {
      Pad2Parses(|fs[0].value|);
      PrintLength(fs[1..]);
    }
  }

  lemma LengthOfTwo(fs: seq<Field>)
    requires |fs| == 2
    ensures Length(fs) == 8 + |fs[0].value| + |fs[1].value|
  {
    LengthOfOne(fs[1..]);
  }

  lemma LengthOfOne(fs: seq<Field>)
    requires |fs| == 1
    ensures Length(fs) == 4 + |fs[0].value|
  {
  }

  // ----- ASCII

  lemma {:induction false} DigitsAscii(n: nat)
    ensures Ascii(Digits(n))
  {
    if n < 10 {
    } else {
      DigitsAscii(n / 10);
    }
  }

  lemma AsciiConcat(s: string, t: string)
    ensures Ascii(s + t) <==> Ascii(s) && Ascii(t)
  {
    if Ascii(s + t) {
      assert forall i | 0 <= i < |s| :: s[i] == (s + t)[i];
      assert forall i | 0 <= i < |t| :: t[i] == (s + t)[|s| + i];
    }
  }

  ghost predicate AsciiFields(fs: seq<Field>) {
    forall i :: 0 <= i < |fs| ==> Ascii(fs[i].tag) && Ascii(fs[i].value)
  }

  lemma {:induction false} PrintAscii(fs: seq<Field>)
    ensures Ascii(Print(fs)) <==> AsciiFields(fs)
  {
    if fs == [] {
    } else {
      var f := fs[0];
      PrintAscii(fs[1..]);
      DigitsAscii(|f.value|);
      AsciiConcat("0", Digits(|f.value|));
      AsciiConcat(f.tag, Pad2(|f.value|));
      AsciiConcat(f.tag + Pad2(|f.value|), f.value);
      AsciiConcat(Tlv(f), Print(fs[1..]));
      assert forall i :: 0 < i < |fs| ==> fs[i] == fs[1..][i - 1];
      if AsciiFields(fs) {
        assert AsciiFields(fs[1..]);
      }
    }
  }

  predicate Encodes(t: Transfer) {
    Ascii(t.bin) && Ascii(t.account) && Ascii(t.content)
  }

  lemma StrAscii(m: int)
    ensures Ascii(Str(m))
  {
    DigitsAscii(if m < 0 then -m else m);
  }

  lemma AsciiTwo(fs: seq<Field>)
    requires |fs| == 2 && Ascii(fs[0].tag) && Ascii(fs[1].tag)
    ensures Ascii(Print(fs)) <==> Ascii(fs[0].value) && Ascii(fs[1].value)
  {
    PrintAscii(fs);
  }

  lemma AsciiOne(fs: seq<Field>)
    requires |fs| == 1 && Ascii(fs[0].tag)
    ensures Ascii(Print(fs)) <==> Ascii(fs[0].value)
  {
    PrintAscii(fs);
  }

  lemma AsciiFrame(fs: seq<Field>)
    requires Framed(fs) && Ascii(fs[4].value)
    ensures Ascii(Print(fs)) <==> Ascii(fs[2].value) && Ascii(fs[6].value)
  {
    PrintAscii(fs);
  }

  lemma MerchantAscii(t: Transfer)
    ensures Ascii(Print(Merchant(t))) <==> Ascii(t.bin) && Ascii(t.account)
  {
    AsciiTwo(Beneficiary(t));
    AsciiTwo(Merchant(t));
  }

  lemma FieldsAscii(t: Transfer)
    ensures Ascii(Print(Fields(t))) <==> Ascii(Print(Merchant(t))) && Ascii(Print(Purpose(t)))
  {
    StrAscii(t.amount);
    AsciiFrame(Fields(t));
  }

  /** Only the three texts a caller supplies can keep a payload from being printed. */
  lemma PayloadExistsIffAscii(t: Transfer)
    ensures Payload(t).Some? <==> Encodes(t)
  {
    MerchantAscii(t);
    AsciiOne(Purpose(t));
    FieldsAscii(t);
    AsciiConcat(Print(Fields(t)), CRC_HEADER);
  }

  // ----- the payload

  predicate Fits(t: Transfer) {
    |t.bin| + |t.account| <= 73 && |t.content| <= 95 && t.amount >= 0 && |Str(t.amount)| <= 99
  }

  lemma BeneficiaryReadsBack(t: Transfer)
    requires |t.bin| + |t.account| <= 73
    ensures ReadBeneficiary(Print(Beneficiary(t))) == Some((t.bin, t.account))
    ensures |Print(Beneficiary(t))| == 8 + |t.bin| + |t.account|
  {
    SizedReadsBack(Beneficiary(t));
    PrintLength(Beneficiary(t));
    LengthOfTwo(Beneficiary(t));
  }

  lemma MerchantReadsBack(t: Transfer)
    requires |t.bin| + |t.account| <= 73
    ensures ReadMerchant(Print(Merchant(t))) == Some((t.bin, t.account))
    ensures |Print(Merchant(t))| <= 99
  {
    BeneficiaryReadsBack(t);
    SizedReadsBack(Merchant(t));
    PrintLength(Merchant(t));
    LengthOfTwo(Merchant(t));
  }

  lemma PurposeReadsBack(t: Transfer)
    requires |t.content| <= 95
    ensures ReadPurpose(Print(Purpose(t))) == Some(t.content)
    ensures |Print(Purpose(t))| <= 99
  {
    SizedReadsBack(Purpose(t));
    PrintLength(Purpose(t));
    LengthOfOne(Purpose(t));
  }

  lemma FittingFieldsReadBack(t: Transfer)
    requires Fits(t)
    ensures ReadTransfer(Print(Fields(t))) == Some(t)
  {
    MerchantReadsBack(t);
    PurposeReadsBack(t);
    DigitsParse(t.amount);
    FrameReadsBack(Fields(t), t);
  }

  lemma FrameReadsBack(fs: seq<Field>, t: Transfer)
    requires Framed(fs) && |fs[2].value| <= 99 && |fs[4].value| <= 99 && |fs[6].value| <= 99
    requires ReadMerchant(fs[2].value) == Some((t.bin, t.account))
    requires ParseNat(fs[4].value) == Some(t.amount) && ReadPurpose(fs[6].value) == Some(t.content)
    ensures ReadTransfer(Print(fs)) == Some(t)
  {
    FramedIsSized(fs);
    SizedReadsBack(fs);
    OpenFrame(Print(fs), fs, t);
  }

  lemma FramedIsSized(fs: seq<Field>)
    requires Framed(fs) && |fs[2].value| <= 99 && |fs[4].value| <= 99 && |fs[6].value| <= 99
    ensures Sized(fs)
  {
  }

  lemma OpenFrame(s: string, fs: seq<Field>, t: Transfer)
    requires ReadAll(s) == Some(fs) && Framed(fs) && ReadMerchant(fs[2].value) == Some((t.bin, t.account))
    requires ParseNat(fs[4].value) == Some(t.amount) && ReadPurpose(fs[6].value) == Some(t.content)
    ensures ReadTransfer(s) == Some(t)
  {
  }

  /** Whatever the reader accepts fits: two-digit lengths leave no room for more. */
  lemma ReadMeansFits(s: string)
    requires ReadTransfer(s).Some?
    ensures Fits(ReadTransfer(s).value)
  {
    ReadIsSized(s);
    var fs := ReadAll(s).value;
    var m := ReadAll(fs[2].value).value;
    ReadIsSized(fs[2].value);
    LengthOfTwo(m);
    var b := ReadAll(m[1].value).value;
    ReadIsSized(m[1].value);
    LengthOfTwo(b);
    var p := ReadAll(fs[6].value).value;
    ReadIsSized(fs[6].value);
    LengthOfOne(p);
    ParsedFits(fs[4].value);
  }

  lemma FrameOpens(body: string)
    requires Ascii(body)
    ensures var s := body + CRC_HEADER;
      Ascii(s) && Read(s + Hex4(Checksum(s))) == ReadTransfer(body)
  {
    var s := body + CRC_HEADER;
    AsciiConcat(body, CRC_HEADER);
    var h := Hex4(Checksum(s));
    HexAscii(Checksum(s));
    AsciiConcat(s, h);
    var p, n := s + h, |s|;
    assert p[..n] == s && p[n..] == h && p[n - 4..n] == CRC_HEADER && p[..n - 4] == body;
  }

  lemma HexAscii(x: nat)
    ensures Ascii(Hex4(x))
  {
  }

  lemma PayloadFrame(t: Transfer)
    requires Encodes(t)
    ensures Payload(t).Some? && Read(Payload(t).value) == ReadTransfer(Print(Fields(t)))
  {
    PayloadExistsIffAscii(t);
    AsciiConcat(Print(Fields(t)), CRC_HEADER);
    FrameOpens(Print(Fields(t)));
  }

  /** The reader recovers all four parts, through both levels of nesting, exactly when the lengths
      stay in two digits and the amount is not negative. */
  lemma PayloadReadsBackIffFits(t: Transfer)
    requires Encodes(t)
    ensures Payload(t).Some?
    ensures Read(Payload(t).value) == Some(t) <==> Fits(t)
  {
    PayloadFrame(t);
    if Fits(t) {
      FittingFieldsReadBack(t);
    } else if ReadTransfer(Print(Fields(t))) == Some(t) {
      ReadMeansFits(Print(Fields(t)));
    }
  }

  /** With a six-digit BIN the tight limit is 67 characters of account number. */
  lemma SixDigitBin(t: Transfer)
    requires Encodes(t) && |t.bin| == 6 && |t.content| <= 95 && 0 <= t.amount && |Str(t.amount)| <= 99
    ensures Payload(t).Some?
    ensures Read(Payload(t).value) == Some(t) <==> |t.account| <= 67
  {
    PayloadReadsBackIffFits(t);
  }

  /** A payload damaged within any two adjacent characters is refused. */
  lemma DamageIsRefused(t: Transfer, s: string, i: nat)
    requires Payload(t).Some? && DifferOnlyAt(Payload(t).value, s, i) && s != Payload(t).value
    ensures Read(s) == None
  {
    var p := Payload(t).value;
    var n := |p| - 4;
    var body := Print(Fields(t)) + CRC_HEADER;
    assert p[..n] == body && p[n..] == Hex4(Checksum(body));
    if Read(s).Some? {
      assert s[n - 4..n] == CRC_HEADER && p[n - 4..n] == CRC_HEADER;
      assert s[n - 1] == s[n - 4..n][3] && p[n - 1] == p[n - 4..n][3];
      assert s == s[..n] + s[n..] && p == p[..n] + p[n..];
      if s[..n] != body {
        BodyDamage(s, p, i, n);
        AdjacentErrorsChangeTheChecksum(body, s[..n], i);
      }
    }
  }

  lemma BodyDamage(s: string, p: string, i: nat, n: nat)
    requires DifferOnlyAt(p, s, i) && n <= |s| && s[..n] != p[..n] && Ascii(s)
    ensures DifferOnlyAt(p[..n], s[..n], i) && Ascii(s[..n])
    ensures n >= 1 && s[n - 1] == p[n - 1] ==> s[n..] == p[n..]
  {
  }
}
