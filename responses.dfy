/**
 * The gateway's responses: their attributes, construction (which takes the
 * signature out of the attributes), ok?, and verification of the
 * gateway's signature over the signing string.
 */
module Responses {
  import opened Wrappers
  import opened Constraints
  import opened Canonical
  import opened Schema
  import opened Signature
  import Codes
  import Text

  datatype ResponseKind = GeneralResponse | EchoResponse | NullResponse

  const ResultCodeAttr := Attribute("resultCode", ResultCodeRule, false)
  const ResultMessageAttr := Attribute("resultMessage", AnyString, false)
  const DtTmAttr := Attribute("dttm", DtTmRule, false)

  /**
   * Each kind's attributes in declaration order. The signature comes first
   * where it is declared: optional for the general response, required for
   * the echo response, absent from the null response.
   */
  function ResponseSchema(kind: ResponseKind): seq<Attribute> {
    match kind
    case GeneralResponse => [
      Attribute("signature", Base64Rule, true),
      Attribute("payId", PayIdRule, false),
      DtTmAttr,
      ResultCodeAttr,
      ResultMessageAttr,
      Attribute("paymentStatus", PaymentStatusRule, true),
      Attribute("authCode", AnyString, true),
      Attribute("customerCode", AnyString, true),
      Attribute("statusDetail", AnyString, true)]
    case EchoResponse => [
      Attribute("signature", Base64Rule, false),
      DtTmAttr,
      ResultCodeAttr,
      ResultMessageAttr]
    case NullResponse => [ResultCodeAttr, ResultMessageAttr]
  }

  /** A constructed response: its attributes without the signature, and the signature apart. */
  datatype Response = Response(kind: ResponseKind, attrs: map<string, Value>, signature: Option<string>)

  /** What every constructed response satisfies. */
  predicate WellFormed(r: Response) {
    && "signature" !in r.attrs
    && "resultCode" in r.attrs && r.attrs["resultCode"].Int? && Codes.IsResultCode(r.attrs["resultCode"].i)
    && "resultMessage" in r.attrs && r.attrs["resultMessage"].Str?
    && (r.kind == EchoResponse ==> r.signature.Some?)
    && (r.kind == NullResponse ==> r.signature.None?)
    && (r.signature.Some? ==> Base64(r.signature.value))
  }

  lemma ResponseNamesDistinct(kind: ResponseKind)
    ensures DistinctNames(ResponseSchema(kind))
  {
  }

  lemma ResultCodeValue(raw: Raw)
    requires Check(ResultCodeRule, raw).Some?
    ensures Check(ResultCodeRule, raw).value.Int? && Codes.IsResultCode(Check(ResultCodeRule, raw).value.i)
  {
  }

  lemma StringValue(raw: Raw)
    requires Check(AnyString, raw).Some?
    ensures raw.RStr? && Check(AnyString, raw).value == Str(raw.s)
  {
  }

  lemma SignatureValue(raw: Raw)
    requires Check(Base64Rule, raw).Some?
    ensures raw.RStr? && Base64(raw.s) && Check(Base64Rule, raw).value == Str(raw.s)
  {
  }

  /** A declared attribute the hash gives is in the validated map, as its rule validated it. */
  lemma BuiltValue(kind: ResponseKind, h: map<string, Raw>, i: nat)
    requires Build(ResponseSchema(kind), h).Ok?
    requires i < |ResponseSchema(kind)| && ResponseSchema(kind)[i].name in h
    ensures ResponseSchema(kind)[i].name in Build(ResponseSchema(kind), h).value
    ensures Check(ResponseSchema(kind)[i].rule, h[ResponseSchema(kind)[i].name])
         == Some(Build(ResponseSchema(kind), h).value[ResponseSchema(kind)[i].name])
  {
    ResponseNamesDistinct(kind);
    BuildMeaning(ResponseSchema(kind), h);
  }

  /** A required attribute is in the hash whenever validation succeeds. */
  lemma BuiltRequired(kind: ResponseKind, h: map<string, Raw>, i: nat)
    requires Build(ResponseSchema(kind), h).Ok?
    requires i < |ResponseSchema(kind)| && !ResponseSchema(kind)[i].omittable
    ensures ResponseSchema(kind)[i].name in h
  {
    ResponseAdmits(kind, h);
  }

  lemma BuiltKeys(kind: ResponseKind, h: map<string, Raw>)
    requires Build(ResponseSchema(kind), h).Ok?
    ensures forall k :: k in Build(ResponseSchema(kind), h).value <==> k in Names(ResponseSchema(kind)) && k in h
  {
    ResponseNamesDistinct(kind);
    BuildMeaning(ResponseSchema(kind), h);
  }

  /** The index of resultCode in each schema; resultMessage follows it. */
  function CodeIndex(kind: ResponseKind): (i: nat)
    ensures i + 1 < |ResponseSchema(kind)|
    ensures ResponseSchema(kind)[i] == ResultCodeAttr && ResponseSchema(kind)[i + 1] == ResultMessageAttr
  {
    match kind
    case GeneralResponse => 3
    case EchoResponse => 2
    case NullResponse => 0
  }

  lemma BuiltCode(kind: ResponseKind, h: map<string, Raw>)
    requires Build(ResponseSchema(kind), h).Ok?
    ensures var a := Build(ResponseSchema(kind), h).value;
      "resultCode" in a && a["resultCode"].Int? && Codes.IsResultCode(a["resultCode"].i)
  {
    BuiltRequired(kind, h, CodeIndex(kind));
    BuiltValue(kind, h, CodeIndex(kind));
    ResultCodeValue(h["resultCode"]);
  }

  lemma BuiltMessage(kind: ResponseKind, h: map<string, Raw>)
    requires Build(ResponseSchema(kind), h).Ok?
    ensures var a := Build(ResponseSchema(kind), h).value;
      "resultMessage" in a && a["resultMessage"].Str?
  {
    BuiltRequired(kind, h, CodeIndex(kind) + 1);
    BuiltValue(kind, h, CodeIndex(kind) + 1);
    StringValue(h["resultMessage"]);
  }

  lemma BuiltSignature(kind: ResponseKind, h: map<string, Raw>)
    requires Build(ResponseSchema(kind), h).Ok? && kind != NullResponse
    ensures var a := Build(ResponseSchema(kind), h).value;
      && (kind == EchoResponse ==> "signature" in a)
      && ("signature" in a <==> "signature" in h)
      && ("signature" in a ==> h["signature"].RStr? && a["signature"] == Str(h["signature"].s) && Base64(h["signature"].s))
  {
    var schema := ResponseSchema(kind);
    assert schema[0].name == "signature" && schema[0].rule == Base64Rule;
    BuiltKeys(kind, h);
    if "signature" in h {
      BuiltValue(kind, h, 0);
      SignatureValue(h["signature"]);
    }
    if kind == EchoResponse {
      BuiltRequired(kind, h, 0);
    }
  }

  /** What a successful validation of a response hash holds, before the signature is taken out. */
  lemma BuiltFacts(kind: ResponseKind, h: map<string, Raw>)
    requires Build(ResponseSchema(kind), h).Ok?
    ensures var a := Build(ResponseSchema(kind), h).value;
      && (forall k :: k in a <==> k in Names(ResponseSchema(kind)) && k in h)
      && "resultCode" in a && a["resultCode"].Int? && Codes.IsResultCode(a["resultCode"].i)
      && "resultMessage" in a && a["resultMessage"].Str?
      && (kind == EchoResponse ==> "signature" in a)
      && (kind == NullResponse ==> "signature" !in a)
      && (kind != NullResponse ==> ("signature" in a <==> "signature" in h))
      && ("signature" in a ==> h["signature"].RStr? && a["signature"] == Str(h["signature"].s) && Base64(h["signature"].s))
  {
    BuiltKeys(kind, h);
    BuiltCode(kind, h);
    BuiltMessage(kind, h);
    if kind != NullResponse {
      BuiltSignature(kind, h);
    } else {
      assert "signature" !in Names(ResponseSchema(kind));
    }
  }

  /**
   * Every declared attribute the hash gives, other than the signature, is
   * kept with the value its rule makes of the hash's value.
   */
  ghost predicate ValuesFrom(schema: seq<Attribute>, h: map<string, Raw>, attrs: map<string, Value>) {
    forall i :: 0 <= i < |schema| && schema[i].name in h && schema[i].name != "signature" ==>
      schema[i].name in attrs && Check(schema[i].rule, h[schema[i].name]) == Some(attrs[schema[i].name])
  }

  /** The validated values, signature deleted, are what the rules make of the hash's values. */
  lemma BuiltValues(kind: ResponseKind, h: map<string, Raw>)
    requires Build(ResponseSchema(kind), h).Ok?
    ensures ValuesFrom(ResponseSchema(kind), h, Build(ResponseSchema(kind), h).value - {"signature"})
  {
    ResponseNamesDistinct(kind);
    BuildMeaning(ResponseSchema(kind), h);
  }

  lemma ResponseAdmits(kind: ResponseKind, h: map<string, Raw>)
    ensures Build(ResponseSchema(kind), h).Ok? <==> Admits(ResponseSchema(kind), h)
  {
    ResponseNamesDistinct(kind);
    BuildMeaning(ResponseSchema(kind), h);
  }

  /**
   * Response.new(hash): the whole hash is validated against the kind's
   * schema, then the signature is deleted from the validated attributes
   * and kept apart.
   */
  method NewResponse(kind: ResponseKind, h: map<string, Raw>) returns (r: Result<Response, Violation>)
    ensures r.Ok? <==> Admits(ResponseSchema(kind), h)
    ensures r.Ok? ==> r.value.kind == kind && WellFormed(r.value)
    ensures r.Ok? ==> forall k :: k in r.value.attrs <==> k in Names(ResponseSchema(kind)) && k in h && k != "signature"
    ensures r.Ok? ==> (r.value.signature.Some? <==> kind != NullResponse && "signature" in h)
    ensures r.Ok? && r.value.signature.Some? ==> h["signature"] == RStr(r.value.signature.value)
    ensures r.Ok? ==> ValuesFrom(ResponseSchema(kind), h, r.value.attrs)
  {
    ResponseAdmits(kind, h);
    var built := Build(ResponseSchema(kind), h);
    if built.Err? {
      return Err(built.error);
    }
    BuiltFacts(kind, h);
    BuiltValues(kind, h);
    var signature: Option<string> := None;
    if "signature" in built.value {
      signature := Some(built.value["signature"].s);
    }
    r := Ok(Response(kind, built.value - {"signature"}, signature));
  }

  /** to_s of a response: the signing string over its attributes, in which the signature never appears. */
  function ResponseString(r: Response): string {
    SigningString(Lookup(Names(ResponseSchema(r.kind)), r.attrs))
  }

  /** ok?: the result code names OK; a null response is never ok. */
  predicate IsOk(r: Response) {
    && r.kind != NullResponse
    && "resultCode" in r.attrs && r.attrs["resultCode"].Int?
    && Codes.IsOk(r.attrs["resultCode"].i)
  }

  lemma OkMeaning(r: Response)
    requires WellFormed(r)
    ensures IsOk(r) <==> r.kind != NullResponse && r.attrs["resultCode"] == Int(0)
  {
    Codes.OkOnlyForZero(r.attrs["resultCode"].i);
  }

  datatype VerifyError = MissingSignature

  /** Verifiable#verify: decode the signature and verify it over to_s; without a signature there is nothing to decode. */
  function Verify(c: Crypto, pub: PublicKey, r: Response): (v: Result<bool, VerifyError>)
    requires r.kind != NullResponse
    ensures v.Err? <==> r.signature.None?
  {
    match r.signature
    case None => Err(MissingSignature)
    case Some(sig) => Ok(DecodeVerify(c, pub, sig, ResponseString(r)))
  }

  /**
   * The signature is never covered by its own string: without a
   * "signature" attribute the signing string is the one over the
   * attributes after it.
   */
  lemma SignatureNeverCovered(r: Response)
    requires r.kind != NullResponse && "signature" !in r.attrs
    ensures ResponseString(r) == SigningString(Lookup(Names(ResponseSchema(r.kind))[1..], r.attrs))
  {
    var names := Names(ResponseSchema(r.kind));
    var vs := Lookup(names, r.attrs);
    assert vs == [] + [None] + vs[1..];
    assert vs[1..] == Lookup(names[1..], r.attrs);
    SkippedValueInvisible([], None, vs[1..]);
    assert [] + vs[1..] == vs[1..];
  }

  /** A response the gateway signed over its own string verifies with the gateway's public key. */
  lemma GatewaySignedVerifies(c: Crypto, gateway: PrivateKey, r: Response)
    requires Sound(c) && CodecRoundTrips(c)
    requires r.kind != NullResponse
    requires r.signature == Some(SignEncode(c, gateway, ResponseString(r)))
    ensures Verify(c, PublicOf(gateway), r) == Ok(true)
  {
    SignThenVerify(c, gateway, ResponseString(r));
  }

  /** A response signed with any other key does not verify. */
  lemma ForgedResponseFails(c: Crypto, gateway: PrivateKey, forger: PrivateKey, r: Response)
    requires Sound(c) && CollisionFree(c) && CodecRoundTrips(c)
    requires r.kind != NullResponse && forger != gateway
    requires r.signature == Some(SignEncode(c, forger, ResponseString(r)))
    ensures Verify(c, PublicOf(gateway), r) == Ok(false)
  {
    OtherKeyFails(c, forger, gateway, ResponseString(r));
  }

  /** Updating a declared attribute changes only its own place in the looked-up values. */
  lemma LookupUpdate(names: seq<string>, attrs: map<string, Value>, j: nat, v: Value)
    requires j < |names|
    requires forall i :: 0 <= i < |names| && i != j ==> names[i] != names[j]
    ensures Lookup(names, attrs[names[j] := v]) == Lookup(names, attrs)[j := Some(v)]
  {
  }

  lemma SplitAt<T>(xs: seq<T>, j: nat, x: T)
    requires j < |xs|
    ensures xs == xs[..j] + [xs[j]] + xs[j + 1..]
    ensures xs[j := x] == xs[..j] + [x] + xs[j + 1..]
  {
  }

  /** Replacing one attribute of a distinct-named list by a value of another rendering changes its signing string. */
  lemma ReplacedAttributeChangesString(names: seq<string>, attrs: map<string, Value>, j: nat, v: Value)
    requires j < |names|
    requires forall i :: 0 <= i < |names| && i != j ==> names[i] != names[j]
    requires SegmentOf(Some(v)) != SegmentOf(Lookup(names, attrs)[j])
    ensures SigningString(Lookup(names, attrs[names[j] := v])) != SigningString(Lookup(names, attrs))
  {
    var vs := Lookup(names, attrs);
    LookupUpdate(names, attrs, j, v);
    SplitAt(vs, j, Some(v));
    ChangedValueChangesString(vs[..j], Some(v), vs[j], vs[j + 1..]);
  }

  /**
   * Tampering: changing any declared attribute of a gateway-signed
   * response so that it renders differently makes verification fail.
   */
  lemma TamperedResponseFails(c: Crypto, gateway: PrivateKey, r: Response, j: nat, v: Value)
    requires Sound(c) && CollisionFree(c) && CodecRoundTrips(c)
    requires r.kind != NullResponse
    requires j < |ResponseSchema(r.kind)|
    requires SegmentOf(Some(v)) != SegmentOf(Lookup(Names(ResponseSchema(r.kind)), r.attrs)[j])
    requires r.signature == Some(SignEncode(c, gateway, ResponseString(r)))
    ensures Verify(c, PublicOf(gateway), r.(attrs := r.attrs[ResponseSchema(r.kind)[j].name := v])) == Ok(false)
  {
    var names := Names(ResponseSchema(r.kind));
    ResponseNamesDistinct(r.kind);
    ReplacedAttributeChangesString(names, r.attrs, j, v);
    var t := r.(attrs := r.attrs[names[j] := v]);
    OtherStringFails(c, gateway, ResponseString(r), ResponseString(t));
  }

  /** The strings of the integer-coercion test meet their constraints. */
  lemma CoercionTestStrings()
    ensures PayId("abcdefghijklmno") && DtTm("20150101000000") && Base64("bogus+ignature")
  {
    Base64Examples();
  }

  lemma CoercionTestCodes(code: Raw, status: Raw)
    requires code == RStr("0") && status == RStr("7")
    ensures Check(ResultCodeRule, code) == Some(Int(0))
    ensures Check(PaymentStatusRule, status) == Some(Int(7))
  {
    assert Text.IntegerOfDigits("0") == 0 && Text.IntegerOfDigits("7") == 7;
    Codes.OkOnlyForZero(0);
    Codes.LifecycleDomain(7);
    CheckResultCodeRule(code);
    CheckPaymentStatusRule(status);
  }

  /** A general-response hash is admitted when its required values pass and every optional one present passes. */
  lemma GeneralAdmits(h: map<string, Raw>)
    requires "payId" in h && h["payId"].RStr? && PayId(h["payId"].s)
    requires "dttm" in h && h["dttm"].RStr? && DtTm(h["dttm"].s)
    requires "resultCode" in h && Check(ResultCodeRule, h["resultCode"]).Some?
    requires "resultMessage" in h && h["resultMessage"].RStr?
    requires "signature" in h ==> h["signature"].RStr? && Base64(h["signature"].s)
    requires "paymentStatus" in h ==> Check(PaymentStatusRule, h["paymentStatus"]).Some?
    requires "authCode" in h ==> h["authCode"].RStr?
    requires "customerCode" in h ==> h["customerCode"].RStr?
    requires "statusDetail" in h ==> h["statusDetail"].RStr?
    ensures Admits(ResponseSchema(GeneralResponse), h)
  {
    var schema := ResponseSchema(GeneralResponse);
    forall i | 0 <= i < |schema|
      ensures if schema[i].name in h then Check(schema[i].rule, h[schema[i].name]).Some? else schema[i].omittable
    {
      if i == 0 { assert schema[i] == Attribute("signature", Base64Rule, true); }
      else if i == 1 { assert schema[i] == Attribute("payId", PayIdRule, false); }
      else if i == 2 { assert schema[i] == DtTmAttr; }
      else if i == 3 { assert schema[i] == ResultCodeAttr; }
      else if i == 4 { assert schema[i] == ResultMessageAttr; }
      else if i == 5 { assert schema[i] == Attribute("paymentStatus", PaymentStatusRule, true); }
      else if i == 6 { assert schema[i] == Attribute("authCode", AnyString, true); }
      else if i == 7 { assert schema[i] == Attribute("customerCode", AnyString, true); }
      else { assert schema[i] == Attribute("statusDetail", AnyString, true); }
    }
  }

  /**
   * The integer-coercion test: a hash whose result code and payment status
   * are the strings "0" and "7" (the other values valid, as the test's are
   * by CoercionTestStrings) makes a response whose codes are integers, and
   * the response is ok.
   */
  method CoercedResponseExample(h: map<string, Raw>, payId: string, dttm: string, message: string, signature: string)
    returns (r: Result<Response, Violation>)
    requires PayId(payId) && DtTm(dttm) && Base64(signature)
    requires "payId" in h && h["payId"] == RStr(payId)
    requires "dttm" in h && h["dttm"] == RStr(dttm)
    requires "resultCode" in h && h["resultCode"] == RStr("0")
    requires "resultMessage" in h && h["resultMessage"] == RStr(message)
    requires "paymentStatus" in h && h["paymentStatus"] == RStr("7")
    requires "signature" in h && h["signature"] == RStr(signature)
    requires "authCode" !in h && "customerCode" !in h && "statusDetail" !in h
    ensures r.Ok? && IsOk(r.value)
    ensures "resultCode" in r.value.attrs && r.value.attrs["resultCode"] == Int(0)
    ensures "paymentStatus" in r.value.attrs && r.value.attrs["paymentStatus"] == Int(7)
    ensures r.value.signature == Some(signature)
  {
    CoercionTestCodes(h["resultCode"], h["paymentStatus"]);
    GeneralAdmits(h);
    r := NewResponse(GeneralResponse, h);
    CoercedValues(h, r.value);
  }

  lemma CoercedValues(h: map<string, Raw>, resp: Response)
    requires "resultCode" in h && h["resultCode"] == RStr("0")
    requires "paymentStatus" in h && h["paymentStatus"] == RStr("7")
    requires resp.kind == GeneralResponse
    requires ValuesFrom(ResponseSchema(GeneralResponse), h, resp.attrs)
    ensures IsOk(resp)
    ensures "resultCode" in resp.attrs && resp.attrs["resultCode"] == Int(0)
    ensures "paymentStatus" in resp.attrs && resp.attrs["paymentStatus"] == Int(7)
  {
    var schema := ResponseSchema(GeneralResponse);
    assert schema[3] == ResultCodeAttr;
    assert schema[5] == Attribute("paymentStatus", PaymentStatusRule, true);
    CoercionTestCodes(h["resultCode"], h["paymentStatus"]);
    Codes.OkOnlyForZero(0);
  }

  /** The strings of the JSON response test meet their constraints. */
  lemma JsonTestStrings()
    ensures PayId("d165e3c4b624fBD") && DtTm("20190925131559") && Base64("ABCD")
  {
    DropPadsExact("ABCD", "");
    assert "ABCD" + "" == "ABCD";
  }

  lemma JsonTestCodes(code: Raw, status: Raw)
    requires code == RInt(0) && status == RInt(1)
    ensures Check(ResultCodeRule, code) == Some(Int(0))
    ensures Check(PaymentStatusRule, status) == Some(Int(1))
  {
    Codes.OkOnlyForZero(0);
    Codes.LifecycleDomain(1);
    CheckResultCodeRule(code);
    CheckPaymentStatusRule(status);
  }

  /**
   * The response-from-JSON test: integer codes are kept as given, every
   * string attribute is kept as given, and the optional attributes the
   * hash leaves out are absent.
   */
  method JsonResponseExample(h: map<string, Raw>, payId: string, dttm: string, message: string, signature: string)
    returns (r: Result<Response, Violation>)
    requires PayId(payId) && DtTm(dttm) && Base64(signature)
    requires "payId" in h && h["payId"] == RStr(payId)
    requires "dttm" in h && h["dttm"] == RStr(dttm)
    requires "resultCode" in h && h["resultCode"] == RInt(0)
    requires "resultMessage" in h && h["resultMessage"] == RStr(message)
    requires "paymentStatus" in h && h["paymentStatus"] == RInt(1)
    requires "signature" in h && h["signature"] == RStr(signature)
    requires "authCode" !in h && "customerCode" !in h && "statusDetail" !in h
    ensures r.Ok? && IsOk(r.value) && r.value.signature == Some(signature)
    ensures "payId" in r.value.attrs && r.value.attrs["payId"] == Str(payId)
    ensures "dttm" in r.value.attrs && r.value.attrs["dttm"] == Str(dttm)
    ensures "resultCode" in r.value.attrs && r.value.attrs["resultCode"] == Int(0)
    ensures "resultMessage" in r.value.attrs && r.value.attrs["resultMessage"] == Str(message)
    ensures "paymentStatus" in r.value.attrs && r.value.attrs["paymentStatus"] == Int(1)
    ensures "authCode" !in r.value.attrs && "customerCode" !in r.value.attrs && "statusDetail" !in r.value.attrs
  {
    JsonTestCodes(h["resultCode"], h["paymentStatus"]);
    GeneralAdmits(h);
    r := NewResponse(GeneralResponse, h);
    JsonValues(h, r.value, payId, dttm, message);
  }

  lemma JsonValues(h: map<string, Raw>, resp: Response, payId: string, dttm: string, message: string)
    requires "payId" in h && h["payId"] == RStr(payId)
    requires "dttm" in h && h["dttm"] == RStr(dttm)
    requires "resultCode" in h && h["resultCode"] == RInt(0)
    requires "resultMessage" in h && h["resultMessage"] == RStr(message)
    requires "paymentStatus" in h && h["paymentStatus"] == RInt(1)
    requires PayId(payId) && DtTm(dttm)
    requires resp.kind == GeneralResponse
    requires ValuesFrom(ResponseSchema(GeneralResponse), h, resp.attrs)
    ensures IsOk(resp)
    ensures "payId" in resp.attrs && resp.attrs["payId"] == Str(payId)
    ensures "dttm" in resp.attrs && resp.attrs["dttm"] == Str(dttm)
    ensures "resultCode" in resp.attrs && resp.attrs["resultCode"] == Int(0)
    ensures "resultMessage" in resp.attrs && resp.attrs["resultMessage"] == Str(message)
    ensures "paymentStatus" in resp.attrs && resp.attrs["paymentStatus"] == Int(1)
  {
    var schema := ResponseSchema(GeneralResponse);
    assert schema[1] == Attribute("payId", PayIdRule, false);
    assert schema[2] == DtTmAttr;
    assert schema[3] == ResultCodeAttr;
    assert schema[4] == ResultMessageAttr;
    assert schema[5] == Attribute("paymentStatus", PaymentStatusRule, true);
    JsonTestCodes(h["resultCode"], h["paymentStatus"]);
    CheckString(PayIdRule, h["payId"]);
    CheckString(DtTmRule, h["dttm"]);
    CheckString(AnyString, h["resultMessage"]);
    Codes.OkOnlyForZero(0);
  }
}
