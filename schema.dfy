/**
 * Typed construction of messages and responses from a hash of raw input
 * (a parsed JSON object or the caller's literal hash). Each kind declares
 * its attributes in order, each with a rule and whether it may be left out;
 * construction either yields every attribute validated or fails.
 */
module Schema {
  import opened Wrappers
  import opened Text
  import opened Constraints
  import Codes
  import opened Canonical

  /** An input value before validation, as JSON or a Ruby literal gives it. */
  datatype Raw = RStr(s: string) | RInt(i: int) | RBool(b: bool) | RNull | RList(elems: seq<Raw>) | RHash(fields: map<string, Raw>)

  /** The type of one attribute. */
  datatype Rule =
    | AnyString        // Types::Strict::String
    | AnyInteger       // Types::Integer
    | Boolean          // Types::Bool
    | OrderNoRule
    | DtTmRule
    | OneOf(values: seq<string>)
    | ReturnUrlRule
    | Base64Rule
    | MerchantDataRule
    | CustomerIdRule
    | PayIdRule
    | ResultCodeRule
    | PaymentStatusRule
    | CartRule

  datatype Attribute = Attribute(name: string, rule: Rule, omittable: bool)

  /** Why construction failed: a required key is missing, or a value breaks its rule. */
  datatype Violation = Missing(name: string) | Violates(name: string, value: Raw)

  /** Types::Coercible::Integer: integers pass, digit strings are read by Kernel#Integer. */
  function CoerceInteger(raw: Raw): Option<int> {
    match raw
    case RInt(i) => Some(i)
    case RStr(s) => if IntegerOfDigits(s) >= 0 then Some(IntegerOfDigits(s)) else None
    case _ => None
  }

  /** The constraint each string rule puts on the string. */
  predicate StringAccepts(rule: Rule, s: string) {
    match rule
    case AnyString => true
    case OrderNoRule => OrderNo(s)
    case DtTmRule => DtTm(s)
    case OneOf(values) => s in values
    case ReturnUrlRule => ReturnUrl(s)
    case Base64Rule => Base64(s)
    case MerchantDataRule => MerchantData(s)
    case CustomerIdRule => CustomerId(s)
    case PayIdRule => PayId(s)
    case _ => false
  }

  /** A strict integer with a lower bound. */
  function IntegerAtLeast(raw: Raw, min: int): Option<Value> {
    if raw.RInt? && raw.i >= min then Some(Int(raw.i)) else None
  }

  /** ResultCode: a coercible integer that is a key of the result-code table. */
  function ResultCodeValue(raw: Raw): Option<Value> {
    var c := CoerceInteger(raw);
    if c.Some? && Codes.IsResultCode(c.value) then Some(Int(c.value)) else None
  }

  /** PaymentStatus: a coercible integer that is a key of the lifecycle table. */
  function PaymentStatusValue(raw: Raw): Option<Value> {
    var c := CoerceInteger(raw);
    if c.Some? && Codes.IsPaymentStatus(c.value) then Some(Int(c.value)) else None
  }

  /** A string type stripped before its length bound is checked. */
  function StrippedAtMost(raw: Raw, max: nat): Option<Value> {
    if raw.RStr? && |Strip(raw.s)| <= max then Some(Str(Strip(raw.s))) else None
  }

  /** Checks one value against a rule that is not the cart rule. */
  function CheckScalar(rule: Rule, raw: Raw): Option<Value>
    requires !rule.CartRule?
  {
    match rule
    case AnyInteger => if raw.RInt? then Some(Int(raw.i)) else None
    case Boolean => if raw.RBool? then Some(Bool(raw.b)) else None
    case ResultCodeRule => ResultCodeValue(raw)
    case PaymentStatusRule => PaymentStatusValue(raw)
    case _ => if raw.RStr? && StringAccepts(rule, raw.s) then Some(Str(raw.s)) else None
  }

  /** Item.new from a hash. */
  function NewItem(h: map<string, Raw>): Option<Item> {
    if "name" in h && "quantity" in h && "amount" in h && "description" in h then
      var name := StrippedAtMost(h["name"], 20);
      var quantity := IntegerAtLeast(h["quantity"], 1);
      var amount := IntegerAtLeast(h["amount"], 0);
      var description := StrippedAtMost(h["description"], 40);
      if name.Some? && quantity.Some? && amount.Some? && description.Some? then
        Some(Item(name.value.s, quantity.value.i, amount.value.i, description.value.s))
      else None
    else None
  }

  /** A valid item: stripped name of at most 20 characters, quantity >= 1, amount >= 0, stripped description of at most 40. */
  predicate ValidItem(it: Item) {
    |it.name| <= 20 && it.quantity >= 1 && it.amount >= 0 && |it.description| <= 40
    && it.name == Strip(it.name) && it.description == Strip(it.description)
  }

  /** Types::Array.of('cart.item'): every element must build an item. */
  function NewItems(elems: seq<Raw>): (r: Option<seq<Item>>)
    ensures r.Some? ==> |r.value| == |elems|
  {
    if elems == [] then Some([])
    else
      var last := elems[|elems| - 1];
      var init := NewItems(elems[..|elems| - 1]);
      var it := if last.RHash? then NewItem(last.fields) else None;
      if init.Some? && it.Some? then Some(init.value + [it.value]) else None
  }

  /** Checks one value against its rule. */
  function Check(rule: Rule, raw: Raw): Option<Value> {
    if rule.CartRule? then
      if raw.RList? then
        var items := NewItems(raw.elems);
        if items.Some? then Some(Cart(items.value)) else None
      else None
    else CheckScalar(rule, raw)
  }

  function Names(schema: seq<Attribute>): (ns: seq<string>)
    ensures |ns| == |schema| && forall i :: 0 <= i < |schema| ==> ns[i] == schema[i].name
  {
    seq(|schema|, i requires 0 <= i < |schema| => schema[i].name)
  }

  ghost predicate DistinctNames(schema: seq<Attribute>) {
    forall i, j :: 0 <= i < j < |schema| ==> schema[i].name != schema[j].name
  }

  /** The hash satisfies the schema: required keys present, every present value valid. */
  ghost predicate Admits(schema: seq<Attribute>, h: map<string, Raw>) {
    forall i :: 0 <= i < |schema| ==>
      if schema[i].name in h then Check(schema[i].rule, h[schema[i].name]).Some? else schema[i].omittable
  }

  /** Struct.new(hash): validate every declared attribute, first failure wins. */
  function Build(schema: seq<Attribute>, h: map<string, Raw>): Result<map<string, Value>, Violation> {
    if schema == [] then Ok(map[])
    else
      var a := schema[0];
      var rest := Build(schema[1..], h);
      if a.name !in h then
        if a.omittable then rest else Err(Missing(a.name))
      else
        var v := Check(a.rule, h[a.name]);
        if v.None? then Err(Violates(a.name, h[a.name]))
        else if rest.Err? then rest
        else Ok(rest.value[a.name := v.value])
  }

  /**
   * Construction succeeds exactly when the hash satisfies the schema; the
   * result holds exactly the declared attributes the hash gives, each as
   * its rule validated it (keys the schema does not declare are ignored).
   */
  lemma {:induction false} BuildMeaning(schema: seq<Attribute>, h: map<string, Raw>)
    requires DistinctNames(schema)
    ensures Build(schema, h).Ok? <==> Admits(schema, h)
    ensures Build(schema, h).Ok? ==>
      (forall k :: k in Build(schema, h).value <==> k in Names(schema) && k in h)
      && (forall i :: 0 <= i < |schema| && schema[i].name in h ==>
            Check(schema[i].rule, h[schema[i].name]) == Some(Build(schema, h).value[schema[i].name]))
  {
    if schema != [] {
      var rest := schema[1..];
      assert DistinctNames(rest);
      BuildMeaning(rest, h);
      assert forall i :: 0 < i < |schema| ==> schema[i] == rest[i - 1];
      assert Admits(schema, h) <==> Admits(rest, h) && (schema[0].name in h ==> Check(schema[0].rule, h[schema[0].name]).Some?) && (schema[0].name !in h ==> schema[0].omittable);
      assert forall k :: k in Names(schema) <==> k == schema[0].name || k in Names(rest);
    }
  }

  /** A failure names a declared attribute that is missing though required, or whose value is invalid. */
  lemma {:induction false} BuildFailure(schema: seq<Attribute>, h: map<string, Raw>)
    requires Build(schema, h).Err?
    ensures match Build(schema, h).error
      case Missing(n) => exists i :: 0 <= i < |schema| && schema[i].name == n && n !in h && !schema[i].omittable
      case Violates(n, raw) => exists i :: 0 <= i < |schema| && schema[i].name == n && n in h && h[n] == raw && Check(schema[i].rule, raw).None?
  {
    var a := schema[0];
    if Build(schema[1..], h) == Build(schema, h) {
      BuildFailure(schema[1..], h);
      assert forall i :: 0 < i < |schema| ==> schema[i] == schema[1..][i - 1];
      match Build(schema, h).error
      case Missing(n) =>
        var i :| 0 <= i < |schema[1..]| && schema[1..][i].name == n && n !in h && !schema[1..][i].omittable;
        assert schema[i + 1] == schema[1..][i];
      case Violates(n, raw) =>
        var i :| 0 <= i < |schema[1..]| && schema[1..][i].name == n && n in h && h[n] == raw && Check(schema[1..][i].rule, raw).None?;
        assert schema[i + 1] == schema[1..][i];
    }
  }

  /** Items built from hashes satisfy the item rules, with name and description stripped. */
  lemma NewItemValid(h: map<string, Raw>)
    requires NewItem(h).Some?
    ensures ValidItem(NewItem(h).value)
    ensures NewItem(h).value.name == Strip(h["name"].s)
    ensures NewItem(h).value.description == Strip(h["description"].s)
  {
    StripIdempotent(h["name"].s);
    StripIdempotent(h["description"].s);
  }

  /**
   * An item hash is accepted exactly when its values meet the item rules;
   * keys other than the four item attributes are ignored.
   */
  lemma NewItemAccepts(h: map<string, Raw>, name: string, quantity: int, amount: int, description: string)
    requires "name" in h && h["name"] == RStr(name)
    requires "quantity" in h && h["quantity"] == RInt(quantity)
    requires "amount" in h && h["amount"] == RInt(amount)
    requires "description" in h && h["description"] == RStr(description)
    ensures NewItem(h).Some? <==> |Strip(name)| <= 20 && quantity >= 1 && amount >= 0 && |Strip(description)| <= 40
    ensures NewItem(h).Some? ==> NewItem(h).value == Item(Strip(name), quantity, amount, Strip(description))
  {
  }

  /** Item attributes are strict: a missing attribute, or one of the wrong type, rejects the item. */
  lemma NewItemRejects(h: map<string, Raw>)
    requires || !("name" in h && h["name"].RStr?)
             || !("quantity" in h && h["quantity"].RInt?)
             || !("amount" in h && h["amount"].RInt?)
             || !("description" in h && h["description"].RStr?)
    ensures NewItem(h).None?
  {
  }

  /** A name or description padded with whitespace is accepted by the length of its stripped text, and stored stripped. */
  lemma StrippedAtMostSurrounded(w1: string, t: string, w2: string, max: nat)
    requires AllSpace(w1) && AllSpace(w2)
    requires t == [] || (!IsStripSpace(t[0]) && !IsStripSpace(t[|t| - 1]))
    ensures StrippedAtMost(RStr(w1 + t + w2), max) == if |t| <= max then Some(Str(t)) else None
  {
    StripSurrounded(w1, t, w2);
  }

  /** Result codes and payment statuses accept their decimal strings, and only table keys. */
  lemma CodeCoercion(n: nat)
    ensures Check(ResultCodeRule, RStr(NatToString(n))) == if Codes.IsResultCode(n) then Some(Int(n)) else None
    ensures Check(PaymentStatusRule, RStr(NatToString(n))) == if Codes.IsPaymentStatus(n) then Some(Int(n)) else None
  {
    CoerceDecimal(n);
    CheckResultCodeRule(RStr(NatToString(n)));
    CheckPaymentStatusRule(RStr(NatToString(n)));
  }

  /**
   * Kernel#Integer's octal reading decides the code rules: a leading zero
   * selects octal, so "010" is the payment status 8 and "08" is no integer.
   */
  lemma OctalCodes()
    ensures Check(PaymentStatusRule, RStr("010")) == Some(Int(8))
    ensures Check(ResultCodeRule, RStr("08")) == None && Check(PaymentStatusRule, RStr("08")) == None
  {
    OctalDigits();
    Codes.LifecycleDomain(8);
    CheckPaymentStatusRule(RStr("010"));
    CheckResultCodeRule(RStr("08"));
    CheckPaymentStatusRule(RStr("08"));
  }

  lemma OctalDigits()
    ensures CoerceInteger(RStr("010")) == Some(8) && CoerceInteger(RStr("08")) == None
  {
    assert ValueIn("010", 8) == 8 by {
      assert "010"[..2] == "01" && "01"[..1] == "0" && "0"[..0] == "";
    }
    assert !IsOctalDigit("08"[1]);
  }

  /** Neither code rule accepts the empty string, a boolean, nil or an array. */
  lemma CodesRejectNonIntegers(raw: Raw)
    requires raw == RStr("") || raw.RNull? || raw.RBool? || raw.RList?
    ensures Check(ResultCodeRule, raw) == None && Check(PaymentStatusRule, raw) == None
  {
    CheckResultCodeRule(raw);
    CheckPaymentStatusRule(raw);
  }

  /** An integer status outside the lifecycle table is rejected, one inside it accepted as is. */
  lemma StatusRange(k: int)
    ensures Check(PaymentStatusRule, RInt(k)) == if 1 <= k <= 10 then Some(Int(k)) else None
  {
    CheckPaymentStatusRule(RInt(k));
    Codes.LifecycleDomain(k);
  }

  /** A string rule accepts exactly the strings its constraint admits, and nothing that is not a string. */
  lemma CheckString(rule: Rule, raw: Raw)
    requires !rule.CartRule? && !rule.AnyInteger? && !rule.Boolean? && !rule.ResultCodeRule? && !rule.PaymentStatusRule?
    ensures Check(rule, raw) == if raw.RStr? && StringAccepts(rule, raw.s) then Some(Str(raw.s)) else None
  {
  }

  /** The enumeration rules as the constraint tests use them. */
  lemma EnumRuleExamples()
    ensures Check(OneOf(PayOperations), RStr("oneclickPayment")) == Some(Str("oneclickPayment"))
    ensures Check(OneOf(PayOperations), RStr("bogus")) == None && Check(OneOf(PayMethods), RStr("bogus")) == None
    ensures Check(OneOf(Currencies), RStr("XLF")) == None && Check(OneOf(Languages), RStr("XY")) == None
  {
    EnumExamples();
    CheckString(OneOf(PayOperations), RStr("oneclickPayment"));
    CheckString(OneOf(PayOperations), RStr("bogus"));
    CheckString(OneOf(PayMethods), RStr("bogus"));
    CheckString(OneOf(Currencies), RStr("XLF"));
    CheckString(OneOf(Languages), RStr("XY"));
  }

  /** A pay id is exactly 15 characters; string rules are strict, so an integer is no string. */
  lemma PayIdAndStrictness()
    ensures Check(PayIdRule, RStr("d165e3c4b624fBD")) == Some(Str("d165e3c4b624fBD"))
    ensures Check(PayIdRule, RStr("d165e3c4b624fB")) == None
    ensures Check(AnyString, RInt(12345)) == None && Check(OrderNoRule, RInt(5547)) == None
  {
    CheckString(PayIdRule, RStr("d165e3c4b624fBD"));
    CheckString(PayIdRule, RStr("d165e3c4b624fB"));
    CheckString(AnyString, RInt(12345));
    CheckString(OrderNoRule, RInt(5547));
  }

  lemma CoerceDecimal(n: nat)
    ensures CoerceInteger(RStr(NatToString(n))) == Some(n)
  {
    IntegerOfDigitsRoundTrip(n);
  }

  lemma CheckResultCodeRule(raw: Raw)
    ensures Check(ResultCodeRule, raw) == ResultCodeValue(raw)
  {
    assert Check(ResultCodeRule, raw) == CheckScalar(ResultCodeRule, raw);
  }

  lemma CheckPaymentStatusRule(raw: Raw)
    ensures Check(PaymentStatusRule, raw) == PaymentStatusValue(raw)
  {
    assert Check(PaymentStatusRule, raw) == CheckScalar(PaymentStatusRule, raw);
  }
}
