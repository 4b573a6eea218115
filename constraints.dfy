/**
 * The field constraints every message and response attribute is built
 * from: formats, closed enumerations and length bounds. Each format is
 * checked against the whole string; `LineAnchored` models how Ruby's
 * `^...$` actually applies a format (to any one line of the string).
 */
module Constraints {
  import opened Text

  /** An order number: one to ten ASCII digits. */
  predicate OrderNo(s: string) {
    1 <= |s| <= 10 && AllDigits(s)
  }

  predicate MonthDigits(a: char, b: char) {
    (a == '0' && '1' <= b <= '9') || (a == '1' && '0' <= b <= '2')
  }

  predicate DayDigits(a: char, b: char) {
    (a == '0' && '1' <= b <= '9') || ((a == '1' || a == '2') && IsDigit(b)) || (a == '3' && (b == '0' || b == '1'))
  }

  predicate HourDigits(a: char, b: char) {
    ((a == '0' || a == '1') && IsDigit(b)) || (a == '2' && '0' <= b <= '3')
  }

  predicate SexagesimalDigits(a: char, b: char) {
    '0' <= a <= '5' && IsDigit(b)
  }

  /** The `dttm` format YYYYMMDDhhmmss, alternative by alternative. */
  predicate DtTm(s: string) {
    && |s| == 14
    && s[0] == '2' && IsDigit(s[1]) && IsDigit(s[2]) && IsDigit(s[3])
    && MonthDigits(s[4], s[5])
    && DayDigits(s[6], s[7])
    && HourDigits(s[8], s[9])
    && SexagesimalDigits(s[10], s[11])
    && SexagesimalDigits(s[12], s[13])
  }

  /** The two-digit number at position i. */
  function TwoDigits(s: string, i: nat): nat
    requires i + 2 <= |s| && IsDigit(s[i]) && IsDigit(s[i + 1])
  {
    10 * DigitValue(s[i]) + DigitValue(s[i + 1])
  }

  /** Calendar reading of a 14-digit timestamp (the day is not checked against the month). */
  predicate TimestampInRange(s: string) {
    && |s| == 14 && AllDigits(s) && s[0] == '2'
    && 1 <= TwoDigits(s, 4) <= 12
    && 1 <= TwoDigits(s, 6) <= 31
    && TwoDigits(s, 8) <= 23
    && TwoDigits(s, 10) <= 59
    && TwoDigits(s, 12) <= 59
  }

  /** The format accepts exactly the in-range timestamps of years 2000-2999. */
  lemma DtTmMeaning(s: string)
    ensures DtTm(s) <==> TimestampInRange(s)
  {
    if |s| == 14 && AllDigits(s) {
      assert DigitValue(s[4]) <= 1 && TwoDigits(s, 4) >= 1 ==> MonthDigits(s[4], s[5]) || TwoDigits(s, 4) > 12;
    }
  }

  const PayOperations: seq<string> := ["payment", "oneclickPayment", "customPayment"]
  const PayMethods: seq<string> := ["card"]
  const Currencies: seq<string> := ["CZK", "EUR", "USD", "GBP", "HUF", "PLN", "HRK", "RON", "NOK", "SEK"]
  const ReturnMethods: seq<string> := ["POST", "GET"]
  const Languages: seq<string> :=
    ["CZ", "EN", "DE", "FR", "HU", "IT", "JP", "PL", "PT", "RO", "RU", "SK", "ES", "TR", "VN", "HR", "SI"]

  predicate IsBase64Char(c: char) {
    'A' <= c <= 'Z' || 'a' <= c <= 'z' || '0' <= c <= '9' || c == '+' || c == '/'
  }

  predicate AllBase64(s: string) {
    forall i :: 0 <= i < |s| ==> IsBase64Char(s[i])
  }

  predicate AllPad(s: string) {
    forall i :: 0 <= i < |s| ==> s[i] == '='
  }

  /** Drops at most n trailing '=' characters. */
  function DropPads(s: string, n: nat): (r: string)
    ensures |r| <= |s| && r == s[..|r|] && |s| - |r| <= n
    ensures AllPad(s[|r|..])
    ensures r != [] && |s| - |r| < n ==> r[|r| - 1] != '='
  {
    if n > 0 && s != [] && s[|s| - 1] == '=' then DropPads(s[..|s| - 1], n - 1) else s
  }

  /** The Base64 format: base64 alphabet characters, then at most two '='. */
  predicate Base64(s: string) {
    var body := DropPads(s, 2);
    |body| >= 1 && AllBase64(body)
  }

  /** The same format read as the regular expression states it. */
  ghost predicate Base64Split(s: string) {
    exists k :: 1 <= k <= |s| && |s| - k <= 2 && AllBase64(s[..k]) && AllPad(s[k..])
  }

  lemma Base64Meaning(s: string)
    ensures Base64(s) <==> Base64Split(s)
  {
    var body := DropPads(s, 2);
    if Base64(s) {
      assert s[..|body|] == body;
    }
    if Base64Split(s) {
      var k :| 1 <= k <= |s| && |s| - k <= 2 && AllBase64(s[..k]) && AllPad(s[k..]);
      assert s[k - 1] != '=' by { assert s[..k][k - 1] == s[k - 1]; }
      assert body == s[..k];
    }
  }

  predicate ReturnUrl(s: string) { |s| <= 300 }

  predicate MerchantData(s: string) { Base64(s) && |s| <= 255 }

  predicate CustomerId(s: string) { |s| <= 50 }

  predicate PayId(s: string) { |s| == 15 }

  /** How Ruby applies a `^...$` format: some line of the string matches it. */
  predicate LineAnchored(s: string, format: string -> bool) {
    exists i :: 0 <= i < |Lines(s)| && format(Lines(s)[i])
  }

  /** On a single-line string the line-anchored format is the whole-string one. */
  lemma LineAnchoredSingleLine(s: string, format: string -> bool)
    requires NewlineFree(s)
    ensures LineAnchored(s, format) <==> format(s)
  {
    SingleLine(s);
    assert Lines(s)[0] == s;
  }

  /** A second line smuggles any prefix past a line-anchored format. */
  lemma LineAnchoredAcceptsForeignLine(junk: string, s: string, format: string -> bool)
    requires NewlineFree(junk) && NewlineFree(s) && format(s)
    ensures LineAnchored(junk + "\n" + s, format)
  {
    LinesAround(junk, s);
    SingleLine(s);
    assert Lines(junk + "\n" + s)[1] == s;
  }

  /** Concrete cases: "abc\n5547" passes the order-number format as written but is not an order number. */
  lemma OrderNoAsWrittenAcceptsTwoLines()
    ensures LineAnchored("abc\n5547", OrderNo)
    ensures !OrderNo("abc\n5547")
  {
    LineAnchoredAcceptsForeignLine("abc", "5547", OrderNo);
    assert "abc" + "\n" + "5547" == "abc\n5547";
  }

  lemma {:induction false} OrderNoExamples()
    ensures !OrderNo("01234567890")
    ensures OrderNo("0") && OrderNo("01") && OrderNo("0123") && OrderNo("0123456789")
  {
  }

  /** The timestamps the constraint test accepts. */
  lemma DtTmExamplesAccepted()
    ensures DtTm("20000101000000") && DtTm("20190209010101") && DtTm("20200311091010") && DtTm("20290415112222")
    ensures DtTm("20510722123737") && DtTm("20680929134545") && DtTm("20731030175151") && DtTm("29991131235959")
  {
  }

  /** The timestamps the constraint test rejects: year, month, day, hour, minute and second out of range. */
  lemma DtTmExamplesRejected()
    ensures !DtTm("19990622135501") && !DtTm("30000622135501")
    ensures !DtTm("20201322135501") && !DtTm("20200732135501")
    ensures !DtTm("20200715245501") && !DtTm("20200715236001") && !DtTm("20200715235960")
  {
  }

  /** A body that does not end in '=' followed by at most two pads loses exactly the pads. */
  lemma DropPadsExact(body: string, pads: string)
    requires body != [] && body[|body| - 1] != '='
    requires AllPad(pads) && |pads| <= 2
    ensures DropPads(body + pads, 2) == body
  {
    var s := body + pads;
    var r := DropPads(s, 2);
    assert forall j :: |r| <= j < |s| ==> s[j] == '=' by {
      forall j | |r| <= j < |s| ensures s[j] == '=' {
        assert s[|r|..][j - |r|] == s[j];
      }
    }
    assert s[|body| - 1] != '=';
    assert forall j :: |body| <= j < |s| ==> s[j] == '=' by {
      forall j | |body| <= j < |s| ensures s[j] == '=' {
        assert s[j] == pads[j - |body|];
      }
    }
    assert r == s[..|r|];
    assert s[..|body|] == body;
  }

  lemma Base64Examples()
    ensures Base64("md") && Base64("bogus+ignature")
    ensures !Base64("") && !Base64("==") && !Base64("ab===") && !Base64("a=b")
  {
    DropPadsExact("md", "");
    assert "md" + "" == "md";
    DropPadsExact("bogus+ignature", "");
    assert "bogus+ignature" + "" == "bogus+ignature";
    assert "=="[0] == '=';
    var r := DropPads("ab===", 2);
    assert |r| >= 3 && r[2] == '=' && !IsBase64Char(r[2]);
    DropPadsExact("a=b", "");
    assert "a=b" + "" == "a=b";
    assert !IsBase64Char("a=b"[1]);
  }

  /** The enumerations as the constraint tests exercise them. */
  lemma EnumExamples()
    ensures "payment" in PayOperations && "oneclickPayment" in PayOperations && "customPayment" in PayOperations
    ensures "bogus" !in PayOperations
    ensures "card" in PayMethods && "bogus" !in PayMethods
    ensures "XLF" !in Currencies && "XY" !in Languages
  {
  }

  /** Every currency the currency test lists is accepted. */
  lemma CurrencyExamples()
    ensures "CZK" in Currencies && "EUR" in Currencies && "USD" in Currencies && "GBP" in Currencies
    ensures "HUF" in Currencies && "PLN" in Currencies && "HRK" in Currencies && "RON" in Currencies
    ensures "NOK" in Currencies && "SEK" in Currencies
  {
  }

  /** Every language the language test lists is accepted. */
  lemma LanguageExamples()
    ensures "CZ" in Languages && "EN" in Languages && "DE" in Languages && "FR" in Languages
    ensures "HU" in Languages && "IT" in Languages && "JP" in Languages && "PL" in Languages
    ensures "PT" in Languages && "RO" in Languages && "RU" in Languages && "SK" in Languages
    ensures "ES" in Languages && "TR" in Languages && "VN" in Languages && "HR" in Languages
    ensures "SI" in Languages
  {
  }

  lemma AllBase64Concat(a: string, b: string)
    requires AllBase64(a) && AllBase64(b)
    ensures AllBase64(a + b)
  {
    forall i | 0 <= i < |a + b| ensures IsBase64Char((a + b)[i]) {
      if i >= |a| {
        assert (a + b)[i] == b[i - |a|];
      }
    }
  }

  /** The 60 alphabet characters the Base64 and merchant-data tests start with (the test omits 'W' and 'w'). */
  const SampleUpper := "ABCDEFGHIJKLMNOPQRSTUVXYZ"
  const SampleLower := "abcdefghijklmnopqrstuvxyz"
  const SampleDigits := "0123456789"

  lemma SampleAlphabet()
    ensures |SampleUpper + SampleLower + SampleDigits| == 60
    ensures AllBase64(SampleUpper + SampleLower + SampleDigits)
  {
    assert AllBase64(SampleUpper);
    assert AllBase64(SampleLower);
    assert AllBase64(SampleDigits);
    AllBase64Concat(SampleUpper, SampleLower);
    AllBase64Concat(SampleUpper + SampleLower, SampleDigits);
  }

  /** A 64-character body-and-padding string of the alphabet is Base64. */
  lemma PaddedSample(tail: string, pads: string)
    requires tail == "/+" || tail == "/++"
    requires pads == "==" || pads == "="
    requires |tail + pads| == 4
    ensures |SampleUpper + SampleLower + SampleDigits + tail + pads| == 64
    ensures Base64(SampleUpper + SampleLower + SampleDigits + tail + pads)
  {
    var body := SampleUpper + SampleLower + SampleDigits + tail;
    SampleAlphabet();
    assert AllBase64(tail);
    AllBase64Concat(SampleUpper + SampleLower + SampleDigits, tail);
    assert body[|body| - 1] == '+';
    DropPadsExact(body, pads);
  }

  /**
   * The Base64 and merchant-data tests: the 64-character sample passes both,
   * and the sample repeated four times (256 characters) is too long for
   * merchant data.
   */
  lemma MerchantDataExamples()
    ensures Base64(SampleUpper + SampleLower + SampleDigits + "/+" + "==")
    ensures MerchantData(SampleUpper + SampleLower + SampleDigits + "/++" + "=")
    ensures var good := SampleUpper + SampleLower + SampleDigits + "/++" + "=";
      |good + good + good + good| == 256 && !MerchantData(good + good + good + good)
  {
    PaddedSample("/+", "==");
    PaddedSample("/++", "=");
  }
}
