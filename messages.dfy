/**
 * The request messages: each kind's attributes in declaration order and
 * its path, construction from a hash, the signed hash sent as a JSON body,
 * and the URL of the two kinds sent by GET.
 */
module Messages {
  import opened Wrappers
  import opened Text
  import opened Constraints
  import opened Canonical
  import opened Schema
  import opened Signature
  import opened Escape

  /** A calendar date and time of day, as the caller's clock gives it. */
  datatype DateTime = DateTime(year: nat, month: nat, day: nat, hour: nat, minute: nat, second: nat)

  /** The decimal digits of n, zero-padded on the left to at least the given width. */
  function ZeroPad(n: nat, width: nat): (r: string)
    ensures |r| >= width && AllDigits(r)
  {
    var d := NatToString(n);
    if |d| >= width then d else seq(width - |d|, _ => '0') + d
  }

  /** Message.timestamp: strftime("%Y%m%d%H%M%S"). */
  function Timestamp(t: DateTime): string {
    ZeroPad(t.year, 4) + ZeroPad(t.month, 2) + ZeroPad(t.day, 2)
      + ZeroPad(t.hour, 2) + ZeroPad(t.minute, 2) + ZeroPad(t.second, 2)
  }

  /** A date-time the dttm format is meant for. */
  predicate InRange(t: DateTime) {
    2000 <= t.year <= 2999 && 1 <= t.month <= 12 && 1 <= t.day <= 31
    && t.hour <= 23 && t.minute <= 59 && t.second <= 59
  }

  lemma PadTwo(n: nat)
    requires n < 100
    ensures ZeroPad(n, 2) == [DigitChar(n / 10), DigitChar(n % 10)]
  {
    if n >= 10 {
      assert NatToString(n) == NatToString(n / 10) + [DigitChar(n % 10)];
    }
  }

  lemma PadYear(y: nat)
    requires 1000 <= y <= 9999
    ensures ZeroPad(y, 4) == NatToString(y)
    ensures ZeroPad(y, 4) == [DigitChar(y / 1000), DigitChar(y / 100 % 10), DigitChar(y / 10 % 10), DigitChar(y % 10)]
  {
    assert NatToString(y / 100) == NatToString(y / 1000) + [DigitChar(y / 100 % 10)];
    assert NatToString(y / 10) == NatToString(y / 100) + [DigitChar(y / 10 % 10)];
    assert NatToString(y) == NatToString(y / 10) + [DigitChar(y % 10)];
  }

  /** The fourteen characters a timestamp of t is made of. */
  function TimestampDigits(t: DateTime): (r: string)
    requires InRange(t)
    ensures |r| == 14
  {
    [DigitChar(t.year / 1000), DigitChar(t.year / 100 % 10), DigitChar(t.year / 10 % 10), DigitChar(t.year % 10),
     DigitChar(t.month / 10), DigitChar(t.month % 10), DigitChar(t.day / 10), DigitChar(t.day % 10),
     DigitChar(t.hour / 10), DigitChar(t.hour % 10), DigitChar(t.minute / 10), DigitChar(t.minute % 10),
     DigitChar(t.second / 10), DigitChar(t.second % 10)]
  }

  lemma TimestampChars(t: DateTime)
    requires InRange(t)
    ensures Timestamp(t) == TimestampDigits(t)
  {
    PadYear(t.year);
    PadTwo(t.month);
    PadTwo(t.day);
    PadTwo(t.hour);
    PadTwo(t.minute);
    PadTwo(t.second);
  }

  lemma TwoDigitsOf(s: string, i: nat, n: nat)
    requires n < 100 && i + 2 <= |s|
    requires s[i] == DigitChar(n / 10) && s[i + 1] == DigitChar(n % 10)
    ensures IsDigit(s[i]) && IsDigit(s[i + 1]) && TwoDigits(s, i) == n
  {
  }

  lemma YearDigits(t: DateTime)
    requires InRange(t)
    ensures TimestampDigits(t)[..4] == NatToString(t.year)
  {
    PadYear(t.year);
  }

  lemma CenturyDigit(t: DateTime)
    requires InRange(t)
    ensures TimestampDigits(t)[0] == '2'
  {
    assert t.year / 1000 == 2;
  }

  /** The digits read back as the components of t, which are in range. */
  lemma DigitsRoundTrip(t: DateTime)
    requires InRange(t)
    ensures TimestampInRange(TimestampDigits(t))
    ensures ValueIn(TimestampDigits(t)[..4], 10) == t.year
    ensures TwoDigits(TimestampDigits(t), 4) == t.month && TwoDigits(TimestampDigits(t), 6) == t.day
    ensures TwoDigits(TimestampDigits(t), 8) == t.hour && TwoDigits(TimestampDigits(t), 10) == t.minute
    ensures TwoDigits(TimestampDigits(t), 12) == t.second
  {
    var s := TimestampDigits(t);
    YearDigits(t);
    DecimalRoundTrip(t.year);
    CenturyDigit(t);
    TwoDigitsOf(s, 4, t.month);
    TwoDigitsOf(s, 6, t.day);
    TwoDigitsOf(s, 8, t.hour);
    TwoDigitsOf(s, 10, t.minute);
    TwoDigitsOf(s, 12, t.second);
  }

  /**
   * A timestamp of an in-range date-time is its fourteen digits and
   * satisfies the dttm format (DigitsRoundTrip reads the fields back).
   */
  lemma TimestampRoundTrip(t: DateTime)
    requires InRange(t)
    ensures Timestamp(t) == TimestampDigits(t)
    ensures DtTm(Timestamp(t))
  {
    TimestampChars(t);
    DigitsRoundTrip(t);
    DtTmMeaning(TimestampDigits(t));
  }

  datatype Kind = Init | Echo | Process | Status | Reverse | Close | Refund

  const MerchantId := Attribute("merchantId", AnyString, false)
  const PayIdAttr := Attribute("payId", PayIdRule, false)
  const DtTmAttr := Attribute("dttm", DtTmRule, false)

  /** Each kind's attributes, in the order the signing string takes them. */
  function RequestSchema(kind: Kind): seq<Attribute> {
    match kind
    case Init => [
      MerchantId,
      Attribute("orderNo", OrderNoRule, false),
      DtTmAttr,
      Attribute("payOperation", OneOf(PayOperations), false),
      Attribute("payMethod", OneOf(PayMethods), false),
      Attribute("totalAmount", AnyInteger, false),
      Attribute("currency", OneOf(Currencies), false),
      Attribute("closePayment", Boolean, false),
      Attribute("returnUrl", ReturnUrlRule, false),
      Attribute("returnMethod", OneOf(ReturnMethods), false),
      Attribute("cart", CartRule, false),
      Attribute("merchantData", MerchantDataRule, true),
      Attribute("customerId", CustomerIdRule, true),
      Attribute("language", OneOf(Languages), false)]
    case Echo => [MerchantId, DtTmAttr]
    case Process => [MerchantId, PayIdAttr, DtTmAttr]
    case Status => [MerchantId, PayIdAttr, DtTmAttr]
    case Reverse => [MerchantId, PayIdAttr, DtTmAttr]
    case Close => [MerchantId, PayIdAttr, DtTmAttr, Attribute("amount", AnyInteger, true)]
    case Refund => [MerchantId, PayIdAttr, DtTmAttr, Attribute("amount", AnyInteger, true)]
  }

  /** The gateway path of each kind. */
  function Path(kind: Kind): string {
    match kind
    case Init => "payment/init"
    case Echo => "echo"
    case Process => "payment/process"
    case Status => "payment/status"
    case Reverse => "payment/reverse"
    case Close => "payment/close"
    case Refund => "payment/refund"
  }

  /** Each kind has its own path; every path but the echo's lies under "payment/". */
  lemma PathsDistinct(k1: Kind, k2: Kind)
    ensures Path(k1) == Path(k2) <==> k1 == k2
    ensures k1 != Echo <==> |Path(k1)| > 8 && Path(k1)[..8] == "payment/"
  {
    if k1 != k2 && |Path(k1)| == |Path(k2)| {
      assert Path(k1)[8] != Path(k2)[8];
    }
  }

  /** A constructed message: its kind and its validated attributes. */
  datatype Message = Message(kind: Kind, attrs: map<string, Value>)

  /** Init.new(hash), Echo.new(hash), ...: validate the hash against the kind's schema. */
  function NewMessage(kind: Kind, h: map<string, Raw>): (r: Result<Message, Violation>)
    ensures r.Ok? ==> r.value.kind == kind
  {
    match Build(RequestSchema(kind), h)
    case Ok(attrs) => Ok(Message(kind, attrs))
    case Err(e) => Err(e)
  }

  /** to_s of a message: its signing string. */
  function MessageString(m: Message): string {
    SigningString(Lookup(Names(RequestSchema(m.kind)), m.attrs))
  }

  /** Signable#sign. */
  function Sign(c: Crypto, key: PrivateKey, m: Message): string {
    SignEncode(c, key, MessageString(m))
  }

  /** Signable#signed: the attribute hash with the signature of to_s added under "signature". */
  method Signed(c: Crypto, key: PrivateKey, m: Message) returns (hash: map<string, Value>)
    ensures "signature" in hash && hash["signature"] == Str(Sign(c, key, m))
    ensures hash - {"signature"} == m.attrs - {"signature"}
  {
    hash := m.attrs;
    var signature := Sign(c, key, m);
    hash := hash["signature" := Str(signature)];
  }

  /** No request kind declares a "signature" attribute. */
  lemma NoSignatureAttribute(kind: Kind)
    ensures "signature" !in Names(RequestSchema(kind))
  {
  }

  /** Adding an undeclared key to the attributes leaves the signing string as it was. */
  lemma UndeclaredKeyInvisible(names: seq<string>, attrs: map<string, Value>, k: string, v: Value)
    requires k !in names
    ensures SigningString(Lookup(names, attrs[k := v])) == SigningString(Lookup(names, attrs))
  {
    assert Lookup(names, attrs[k := v]) == Lookup(names, attrs);
  }

  /**
   * The signature never covers itself: the signed hash, read back as a
   * message of the same kind, has the signing string that was signed, so
   * the signature verifies against it.
   */
  lemma SignedHashVerifies(c: Crypto, key: PrivateKey, m: Message, hash: map<string, Value>)
    requires Sound(c) && CodecRoundTrips(c)
    requires "signature" !in m.attrs
    requires hash == m.attrs["signature" := Str(Sign(c, key, m))]
    ensures MessageString(Message(m.kind, hash)) == MessageString(m)
    ensures DecodeVerify(c, PublicOf(key), hash["signature"].s, MessageString(Message(m.kind, hash)))
  {
    NoSignatureAttribute(m.kind);
    UndeclaredKeyInvisible(Names(RequestSchema(m.kind)), m.attrs, "signature", Str(Sign(c, key, m)));
    SignThenVerify(c, key, MessageString(m));
  }

  /** An attribute as string interpolation renders it (nil renders as ""). */
  function Interpolate(m: Message, name: string): string {
    if name in m.attrs then ToS(m.attrs[name]) else ""
  }

  predicate IsGetRequest(kind: Kind) {
    kind == Process || kind == Status
  }

  /** merchantId/payId/dttm, each as string interpolation renders it. */
  function UrlFields(m: Message): string {
    Interpolate(m, "merchantId") + "/" + Interpolate(m, "payId") + "/" + Interpolate(m, "dttm")
  }

  /** GetRequest#get_url: path/merchantId/payId/dttm/escaped signature. */
  function GetUrl(c: Crypto, key: PrivateKey, m: Message): string
    requires IsGetRequest(m.kind)
  {
    Path(m.kind) + "/" + UrlFields(m) + "/" + CgiEscape(Sign(c, key, m))
  }

  /** The text after the last "/" of a string. */
  function LastSegment(s: string): (r: string)
    ensures forall i :: 0 <= i < |r| ==> r[i] != '/'
  {
    if s == [] then ""
    else if s[|s| - 1] == '/' then ""
    else LastSegment(s[..|s| - 1]) + [s[|s| - 1]]
  }

  lemma {:induction false} LastSegmentAfterSlash(prefix: string, e: string)
    requires forall i :: 0 <= i < |e| ==> e[i] != '/'
    ensures LastSegment(prefix + "/" + e) == e
  {
    if e == [] {
      assert prefix + "/" + e == prefix + "/";
    } else {
      var e' := e[..|e| - 1];
      LastSegmentAfterSlash(prefix, e');
      assert (prefix + "/" + e)[..|prefix + "/" + e| - 1] == prefix + "/" + e';
      assert e' + [e[|e| - 1]] == e;
    }
  }

  /** Appending keeps a prefix. */
  lemma PrefixKept(p: string, s: string, t: string)
    requires |p| <= |s| && s[..|p|] == p
    ensures (s + t)[..|p|] == p
  {
    assert (s + t)[..|p|] == s[..|p|];
  }

  /** A URL of this shape begins with the path and a slash, and its last segment is the escaped text. */
  lemma UrlShape(path: string, fields: string, text: string)
    ensures (path + "/" + fields + "/" + CgiEscape(text))[..|path| + 1] == path + "/"
    ensures LastSegment(path + "/" + fields + "/" + CgiEscape(text)) == CgiEscape(text)
  {
    var head := path + "/";
    assert head[..|head|] == head;
    PrefixKept(head, head, fields);
    PrefixKept(head, head + fields, "/");
    PrefixKept(head, head + fields + "/", CgiEscape(text));
    EscapedHasNoSlash(text);
    LastSegmentAfterSlash(path + "/" + fields, CgiEscape(text));
  }

  /**
   * The URL starts with the kind's path and ends with one segment that,
   * unescaped, is the signature of the message; that signature verifies
   * against the message's signing string with the client's public key.
   */
  lemma GetUrlCarriesSignature(c: Crypto, key: PrivateKey, m: Message)
    requires IsGetRequest(m.kind)
    requires Sound(c) && CodecRoundTrips(c)
    ensures GetUrl(c, key, m)[..|Path(m.kind)| + 1] == Path(m.kind) + "/"
    ensures GetUrl(c, key, m) == Path(m.kind) + "/" + UrlFields(m) + "/" + LastSegment(GetUrl(c, key, m))
    ensures CgiUnescape(LastSegment(GetUrl(c, key, m))) == Sign(c, key, m)
    ensures DecodeVerify(c, PublicOf(key), CgiUnescape(LastSegment(GetUrl(c, key, m))), MessageString(m))
  {
    var sig := Sign(c, key, m);
    UrlShape(Path(m.kind), UrlFields(m), sig);
    SignThenVerify(c, key, MessageString(m));
    Base64IsAscii(sig);
    UnescapeEscape(sig);
  }

  lemma Base64IsAscii(s: string)
    requires Base64(s)
    ensures IsAscii(s)
  {
    var body := DropPads(s, 2);
    forall i | 0 <= i < |s| ensures s[i] as int < 0x80 {
      if i < |body| {
        assert IsBase64Char(body[i]);
      } else {
        assert s[|body|..][i - |body|] == '=';
      }
    }
  }

  lemma RequestNamesDistinct(kind: Kind)
    ensures DistinctNames(RequestSchema(kind))
  {
    if kind == Init {
      InitNamesDistinct();
    }
  }

  lemma InitNamesDistinct()
    ensures DistinctNames(RequestSchema(Init))
  {
    var s := RequestSchema(Init);
    assert forall i, j :: 0 <= i < j < |InitNames| ==> InitNames[i] != InitNames[j];
    assert Names(s) == InitNames;
  }

  /** The declared names of Init, in declaration order. */
  const InitNames: seq<string> := [
    "merchantId", "orderNo", "dttm", "payOperation", "payMethod", "totalAmount", "currency",
    "closePayment", "returnUrl", "returnMethod", "cart", "merchantData", "customerId", "language"]

  /**
   * Construction succeeds exactly when the hash satisfies the kind's
   * schema; the message then holds exactly the declared attributes the
   * hash gives, each as its rule validated it.
   */
  lemma NewMessageMeaning(kind: Kind, h: map<string, Raw>)
    ensures NewMessage(kind, h).Ok? <==> Admits(RequestSchema(kind), h)
    ensures NewMessage(kind, h).Ok? ==>
      var m := NewMessage(kind, h).value;
      && (forall k :: k in m.attrs <==> k in Names(RequestSchema(kind)) && k in h)
      && (forall i :: 0 <= i < |RequestSchema(kind)| && RequestSchema(kind)[i].name in h ==>
            Check(RequestSchema(kind)[i].rule, h[RequestSchema(kind)[i].name]) == Some(m.attrs[RequestSchema(kind)[i].name]))
  {
    RequestNamesDistinct(kind);
    BuildMeaning(RequestSchema(kind), h);
  }

  /** The cart of the payment-initialisation example. */
  const ExampleCart: seq<Item> := [
    Item("N\U{00E1}kup: vasobchod.cz", 1, 1789600, "Lenovo ThinkPad Edge E540"),
    Item("Po\U{0161}tovn\U{00E9}", 1, 0, "Doprava PPL")]

  /** The payment-initialisation example, as constructed (no customerId). */
  const ExampleInit := Message(Init, map[
    "merchantId" := Str("012345"), "orderNo" := Str("5547"), "dttm" := Str("20190925131559"),
    "payOperation" := Str("payment"), "payMethod" := Str("card"), "totalAmount" := Int(1789600),
    "currency" := Str("CZK"), "closePayment" := Bool(true),
    "returnUrl" := Str("https://vasobchod.cz/gateway-return"), "returnMethod" := Str("POST"),
    "cart" := Cart(ExampleCart), "merchantData" := Str("md"), "language" := Str("CZ")])

  lemma Amount()
    ensures IntToString(1789600) == "1789600"
  {
    assert NatToString(17) == "1" + "7";
    assert NatToString(178) == "17" + "8";
    assert NatToString(1789) == "178" + "9";
    assert NatToString(17896) == "1789" + "6";
    assert NatToString(178960) == "17896" + "0";
    assert NatToString(1789600) == "178960" + "0";
  }

  /** When every value is present and renders non-empty, each is one segment. */
  lemma {:induction false} AllPresent(vs: seq<Option<Value>>)
    requires forall i :: 0 <= i < |vs| ==> vs[i].Some? && ToS(vs[i].value) != ""
    ensures Segments(vs) == seq(|vs|, i requires 0 <= i < |vs| => ToS(vs[i].value))
  {
    if vs != [] {
      var init := vs[..|vs| - 1];
      AllPresent(init);
      SegmentsSnoc(init, vs[|vs| - 1]);
      assert init + [vs[|vs| - 1]] == vs;
    }
  }

  const ExampleValues: seq<Option<Value>> := [
    Some(Str("012345")), Some(Str("5547")), Some(Str("20190925131559")), Some(Str("payment")),
    Some(Str("card")), Some(Int(1789600)), Some(Str("CZK")), Some(Bool(true)),
    Some(Str("https://vasobchod.cz/gateway-return")), Some(Str("POST")), Some(Cart(ExampleCart)),
    Some(Str("md")), None, Some(Str("CZ"))]

  lemma ExampleLookup()
    ensures Lookup(Names(RequestSchema(Init)), ExampleInit.attrs) == ExampleValues
  {
  }

  const ExampleHead: seq<string> := ["012345", "5547", "20190925131559", "payment", "card", "1789600",
    "CZK", "true", "https://vasobchod.cz/gateway-return", "POST"]
  const ExampleItems: seq<string> := [
    "N\U{00E1}kup: vasobchod.cz" + Sep + "1" + Sep + "1789600" + Sep + "Lenovo ThinkPad Edge E540",
    "Po\U{0161}tovn\U{00E9}" + Sep + "1" + Sep + "0" + Sep + "Doprava PPL"]

  /** The expected signing string of the example, segment by segment. */
  const ExampleString: string :=
    (("012345" + Sep + "5547" + Sep + "20190925131559" + Sep + "payment" + Sep + "card")
    + Sep + ("1789600" + Sep + "CZK" + Sep + "true" + Sep + "https://vasobchod.cz/gateway-return" + Sep + "POST"))
    + Sep + (ExampleItems[0] + Sep + ExampleItems[1])
    + Sep + ("md" + Sep + "CZ")

  lemma ExampleHeadSegments()
    ensures Segments(ExampleValues[..10]) == ExampleHead
  {
    Amount();
    AllPresent(ExampleValues[..10]);
  }

  /** A single value is its own segment, if any. */
  lemma OneSegment(o: Option<Value>)
    ensures Segments([o]) == SegmentOf(o)
  {
    SegmentsSnoc([], o);
    assert [] + [o] == [o];
  }

  lemma ExampleTailSegments()
    ensures Segments(ExampleValues[11..]) == ["md", "CZ"]
  {
    ExampleTailValues();
    AbsentBetween(Some(Str("md")), Some(Str("CZ")));
  }

  lemma ExampleTailValues()
    ensures ExampleValues[11..] == [Some(Str("md")), None, Some(Str("CZ"))]
  {
  }

  /** An absent value between two others leaves no segment of its own. */
  lemma AbsentBetween(a: Option<Value>, b: Option<Value>)
    ensures Segments([a, None, b]) == SegmentOf(a) + SegmentOf(b)
  {
    OneSegment(a);
    OneSegment(None);
    OneSegment(b);
    assert [a, None] == [a] + [None];
    SegmentsAppend([a], [None]);
    assert [a, None, b] == [a, None] + [b];
    SegmentsAppend([a, None], [b]);
  }

  lemma JoinTwo(a: string, b: string)
    ensures Join([a, b], Sep) == a + Sep + b
  {
    assert [a, b][1..] == [b];
  }

  lemma JoinFour(a: string, b: string, c: string, d: string)
    ensures Join([a, b, c, d], Sep) == a + Sep + b + Sep + c + Sep + d
  {
    assert [a, b, c, d][1..] == [b, c, d];
    assert [b, c, d][1..] == [c, d];
    JoinTwo(c, d);
  }

  lemma JoinFive(a: string, b: string, c: string, d: string, e: string)
    ensures Join([a, b, c, d, e], Sep) == a + Sep + b + Sep + c + Sep + d + Sep + e
  {
    assert [a, b, c, d, e][1..] == [b, c, d, e];
    JoinFour(b, c, d, e);
  }

  lemma ExampleItemStrings()
    ensures ItemStrings(ExampleCart) == ExampleItems
  {
    Amount();
    assert IntToString(1) == "1" && IntToString(0) == "0";
    var a, b := ExampleCart[0], ExampleCart[1];
    NonEmptyKeepsAll([a.name, "1", "1789600", a.description]);
    NonEmptyKeepsAll([b.name, "1", "0", b.description]);
    JoinFour(a.name, "1", "1789600", a.description);
    JoinFour(b.name, "1", "0", b.description);
  }

  lemma ExampleJoin()
    ensures Join(ExampleHead + ExampleItems + ["md", "CZ"], Sep) == ExampleString
  {
    var h1, h2 := ExampleHead[..5], ExampleHead[5..];
    assert h1 == ["012345", "5547", "20190925131559", "payment", "card"];
    assert h2 == ["1789600", "CZK", "true", "https://vasobchod.cz/gateway-return", "POST"];
    JoinAppend(h1, h2, Sep);
    assert h1 + h2 == ExampleHead;
    JoinAppend(ExampleHead, ExampleItems, Sep);
    JoinAppend(ExampleHead + ExampleItems, ["md", "CZ"], Sep);
    JoinFive("012345", "5547", "20190925131559", "payment", "card");
    JoinFive("1789600", "CZK", "true", "https://vasobchod.cz/gateway-return", "POST");
    JoinTwo(ExampleItems[0], ExampleItems[1]);
    JoinTwo("md", "CZ");
  }

  /** The example's signing string: cart items inlined, the absent customerId skipped. */
  lemma InitExampleString()
    ensures MessageString(ExampleInit) == ExampleString
  {
    var vs := ExampleValues;
    ExampleLookup();
    assert vs == vs[..10] + [Some(Cart(ExampleCart))] + vs[11..];
    CartInlined(vs[..10], ExampleCart, vs[11..]);
    ExampleHeadSegments();
    ExampleTailSegments();
    ExampleItemStrings();
    ExampleJoin();
  }
}
