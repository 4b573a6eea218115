# ČSOB payment gateway messages, in Dafny

A model of the message protocol layer of the `csob_pg` Ruby client for the
ČSOB payment gateway (`lib/csob_pg/message.rb`) and of its two closed code
tables (`lib/csob_pg/constants.rb`). It has three parts.

- **Field constraints.** `OrderNo`, `DtTm`, the enumerations, `Base64`,
  `MerchantData`, `CustomerId`, `PayId`, `ReturnUrl`, and the coercible
  `ResultCode` and `PaymentStatus` integers are predicates over strings and
  integers (module `Constraints`, with the coercion in `Schema`).
- **Messages and responses.** The model has one generic schema engine. It
  checks a hash against an ordered list of attributes, as `dry-struct` does
  (module `Schema`). It is instantiated with the attribute orders of the
  request classes `Init`, `Echo`, `Process`, `Status`, `Reverse`, `Close` and
  `Refund` (module `Messages`). It is also instantiated with the response
  classes `GeneralResponse`, `EchoResponse` and `NullResponse` (module
  `Responses`). The response constructor sets the signature aside.
- **Signing strings and signatures.** `SignaturePart#to_s` is modelled twice:
  - as the loop the source runs (the methods `Canonical.AttributesToString`
    and `Canonical.CartToString`);
  - as the specification function `Canonical.SigningString`.

  `Signable#sign`, `Verifiable#verify` and `GetRequest#get_url` are built on
  top of it (modules `Signature`, `Messages` and `Responses`).

The cryptography is a parameter: `Signature.Crypto`. It is a record holding a
signing function, a verifying function, a Base64 encoder and a Base64 decoder.
Keys are abstract, and `PublicOf` gives the public half of a private key. Three predicates state what the model assumes
of them, and lemmas that rely on them take them as preconditions:

- `Sound`: a public key verifies exactly the signatures its private key makes.
- `CollisionFree`: a signature verifies for only one string under only one key.
- `CodecRoundTrips`: decoding undoes encoding even once the line breaks are removed, and the encoded text without line breaks is Base64.

The module `Text` supplies the Ruby string primitives used:

- `Integer#to_s`;
- `Kernel#Integer` on digit strings;
- `String#strip`;
- `Array#join`;
- the line structure that `^` and `$` see.

`Escape` models `CGI.escape` and its inverse.

## Model

| member | source | states |
|---|---|---|
| Codes.ResultCodesKeys | lib/csob_pg/constants.rb:2-30 | the result-code table has exactly 27 keys, and every code of the literal maps to the name written beside it |
| Codes.OkOnlyForZero | lib/csob_pg/constants.rb:3 | a code maps to `:OK` exactly when it is 0 |
| Codes.NamedCodes | lib/csob_pg/constants.rb:5-29 | 110, 150, 900 and 10000 map to invalid_parameter, payment_not_in_valid_state, internal_error and application_error |
| Codes.LifecycleKeys | lib/csob_pg/constants.rb:32-43 | the lifecycle keys are exactly 1..10 (so 0 and 11 are not keys), with 1 → payment_initialized and 10 → payment_repaid |
| Codes.TablesInjective | lib/csob_pg/constants.rb:2-43 | neither table gives two codes the same name |
| Text.DecimalRoundTrip | lib/csob_pg/message.rb:20 | reading back the decimal digits `Integer#to_s` writes gives the number |
| Text.IntToStringInjective | lib/csob_pg/message.rb:20 | distinct integers render as distinct strings |
| Text.IntegerOfDigitsRoundTrip | lib/csob_pg/message.rb:83 | `Kernel#Integer` reads back the string `Integer#to_s` writes |
| Text.StripMeaning | lib/csob_pg/message.rb:89 | `strip` leaves an infix of its input, cuts only whitespace on either side, and neither begins nor ends with whitespace |
| Text.StripIdempotent | lib/csob_pg/message.rb:89 | stripping twice is stripping once |
| Text.StripSurrounded | lib/csob_pg/message.rb:89 | a text with no whitespace at either end, padded with whitespace on both sides, strips to exactly that text |
| Constraints.OrderNoExamples | lib/csob_pg/message.rb:72 | an order number is 1 to 10 digits: "0", "01", "0123" and "0123456789" pass, "01234567890" fails |
| Constraints.DtTmMeaning | lib/csob_pg/message.rb:71-73 | the date format accepts exactly the 14-digit strings of years 2000-2999 with month 1-12, day 1-31, hour 0-23, minute and second 0-59 |
| Constraints.DtTmExamplesAccepted | test/message_test.rb:27-28 | all eight timestamps the constraint test lists as good pass the date format |
| Constraints.DtTmExamplesRejected | test/message_test.rb:30-43 | the seven timestamps the constraint test rejects (year, month, day, hour, minute and second out of range) fail the date format |
| Constraints.EnumExamples | lib/csob_pg/message.rb:74-82 | the three pay operations and the pay method of the enum tests are members; "bogus" is neither, "XLF" is no currency and "XY" no language |
| Constraints.CurrencyExamples | test/message_test.rb:58-62 | all ten currencies the currency test lists are members |
| Constraints.LanguageExamples | test/message_test.rb:64-68 | all seventeen languages the language test lists are members |
| Constraints.Base64Meaning | lib/csob_pg/message.rb:79 | the Base64 format holds exactly when the string is one or more alphabet characters followed by at most two '=' |
| Constraints.DropPadsExact | lib/csob_pg/message.rb:79 | a body not ending in '=', followed by at most two pads, loses exactly the pads |
| Constraints.Base64Examples | lib/csob_pg/message.rb:79 | "md" and "bogus+ignature" pass; "", "==", "ab===" and "a=b" fail |
| Constraints.PaddedSample | test/message_test.rb:70-73 | the test's 64-character string of alphabet characters, '/', '+' and one or two '=' is Base64 |
| Constraints.MerchantDataExamples | test/message_test.rb:75-81 | the 64-character sample is Base64 and valid merchant data; the sample repeated four times has 256 characters and is rejected as merchant data |
| Constraints.LineAnchoredSingleLine | lib/csob_pg/message.rb:71-79 | on a string without newlines, Ruby's line-anchored match is the whole-string format |
| Constraints.LineAnchoredAcceptsForeignLine | lib/csob_pg/message.rb:71-79 | any line placed before a matching line passes a line-anchored format |
| Constraints.OrderNoAsWrittenAcceptsTwoLines | lib/csob_pg/message.rb:72 | "abc\n5547" passes the order-number regex as written but is not an order number |
| Canonical.AttributesToString | lib/csob_pg/message.rb:14-26 | the loop over declared attribute names yields the signing string of the looked-up values: absent values and empty strings skipped, the rest joined by "\|" |
| Canonical.CartToString | lib/csob_pg/message.rb:105-113 | the loop over the cart yields the items' strings joined by "\|", and "" for an empty cart |
| Canonical.CartStringItems | lib/csob_pg/message.rb:105-113 | the cart string is the join of its item strings, and it is empty exactly when the cart is |
| Canonical.ItemStringIsSigningString | lib/csob_pg/message.rb:87-93 | `Item#to_s` is the signing string over name, quantity, amount and description, in that order |
| Canonical.ItemStringNonEmpty | lib/csob_pg/message.rb:87-93 | an item's string is never empty, so no item is dropped from a cart string |
| Canonical.SkippedValueInvisible | lib/csob_pg/message.rb:19-21 | an absent value, or one rendering as "", leaves the signing string as if it were not declared |
| Canonical.CartInlined | lib/csob_pg/message.rb:105-113 | a cart inside a message contributes its item strings as segments of the message's own signing string |
| Canonical.ChangedValueChangesString | lib/csob_pg/message.rb:14-26 | replacing one value by one whose segment differs changes the signing string |
| Escape.UnescapeEscape | lib/csob_pg/message.rb:164 | unescaping `CGI.escape` of an ASCII string gives the string back |
| Escape.EscapedHasNoSlash | lib/csob_pg/message.rb:164 | an escaped string has no '/' |
| Escape.Base64Specials | lib/csob_pg/message.rb:164 | "+", "/" and "=" escape to "%2B", "%2F" and "%3D" |
| Schema.StrippedAtMostSurrounded | lib/csob_pg/message.rb:89-92 | a name or description padded with whitespace is accepted exactly when its unpadded text fits the bound, and that text is what is kept |
| Schema.CodeCoercion | lib/csob_pg/message.rb:83-85 | the decimal string of n is accepted as a result code or payment status exactly when n is one, and yields n |
| Schema.OctalCodes | lib/csob_pg/message.rb:83-85 | `Kernel#Integer` reads a leading zero as octal: "010" is the payment status 8, and "08" is rejected by both code rules |
| Schema.CodesRejectNonIntegers | lib/csob_pg/message.rb:83-85 | neither code rule accepts the empty string, nil, a boolean or an array |
| Schema.StatusRange | lib/csob_pg/message.rb:85 | an integer payment status is accepted, unchanged, exactly when it lies in 1..10 |
| Schema.EnumRuleExamples | test/message_test.rb:46-68 | an enumeration attribute keeps a listed value and rejects "bogus" (pay operation and pay method), "XLF" (currency) and "XY" (language) |
| Schema.PayIdAndStrictness | lib/csob_pg/message.rb:72-84 | a pay id of 15 characters passes and one of 14 fails; a strict string attribute rejects an integer |
| Schema.NewItemValid | lib/csob_pg/message.rb:87-93 | a constructed item satisfies every item rule, with name and description stripped |
| Schema.NewItemAccepts | lib/csob_pg/message.rb:87-93 | an item hash, whatever other keys it has, is accepted exactly when stripped name ≤ 20, quantity ≥ 1, amount ≥ 0 and stripped description ≤ 40, and the item keeps the stripped strings and the integers |
| Schema.NewItemRejects | lib/csob_pg/message.rb:87-93 | an item hash missing an attribute, or giving one with the wrong type (a quantity as a string, say), is rejected |
| Schema.BuildMeaning | lib/csob_pg/message.rb:131-208 | construction succeeds exactly when every required attribute is present and every present one is valid; the result holds exactly the declared keys the hash gives, each as its rule coerced it |
| Schema.BuildFailure | lib/csob_pg/message.rb:131-208 | a failure names a required attribute that is missing, or a present attribute and the value its rule rejects |
| Signature.SignThenVerify | lib/csob_pg/message.rb:38-67 | a string signed and encoded with a private key decodes and verifies with its public key, and the encoding is Base64 |
| Signature.OtherStringFails | lib/csob_pg/message.rb:38-67 | the signature of one string does not verify for another |
| Signature.OtherKeyFails | lib/csob_pg/message.rb:38-67 | a signature made with another key does not verify |
| Messages.TimestampRoundTrip | lib/csob_pg/message.rb:9-11 | `timestamp` of a date-time in years 2000-2999 is its 14 zero-padded digits and passes the `DtTm` format |
| Messages.DigitsRoundTrip | lib/csob_pg/message.rb:9-11 | reading the timestamp's digits back gives year, month, day, hour, minute and second |
| Messages.NewMessageMeaning | lib/csob_pg/message.rb:135-208 | a request of each kind is constructed exactly when the hash satisfies that kind's attribute list; the message keeps the declared keys the hash gives, each as validated |
| Messages.PathsDistinct | lib/csob_pg/message.rb:131-205 | the seven request kinds have seven different paths, and all but `echo` lie under "payment/" |
| Messages.RequestNamesDistinct | lib/csob_pg/message.rb:135-208 | no request class declares an attribute twice |
| Messages.NoSignatureAttribute | lib/csob_pg/message.rb:131-208 | no request declares a `signature` attribute |
| Messages.Signed | lib/csob_pg/message.rb:32-36 | the signed hash is the message's hash plus `signature` set to the encoded signature of its signing string |
| Messages.SignedHashVerifies | lib/csob_pg/message.rb:32-40 | adding the signature does not change the signing string, and the added signature verifies against it |
| Messages.UndeclaredKeyInvisible | lib/csob_pg/message.rb:14-26 | a key that is not a declared attribute does not affect the signing string |
| Messages.GetUrlCarriesSignature | lib/csob_pg/message.rb:162-166 | the URL of Process and Status is the path, the merchantId/payId/dttm fields and its last segment, joined by "/"; the last segment unescapes to the signature, and that signature verifies against the signing string |
| Messages.InitExampleString | test/message_test.rb:98-110 | the signing string of the documented `Init` example, with its two-item cart, absent customerId and non-ASCII item names, is the expected string |
| Responses.NewResponse | lib/csob_pg/message.rb:210-245 | a response is built exactly when its hash satisfies the class's schema, including the signature; the signature is set aside, present exactly when given (always for Echo, never for Null); the other declared keys are kept, each with the value its rule makes of the hash's value |
| Responses.GeneralAdmits | lib/csob_pg/message.rb:225-234 | a hash with valid pay id, timestamp, result code and message, and valid optional values where given, satisfies the `GeneralResponse` schema |
| Responses.JsonResponseExample | test/message_test.rb:83-96 | a general response built from integer codes 0 and 1 keeps pay id, timestamp, codes and message as given and the signature apart, has no authCode, customerCode or statusDetail, and is ok |
| Responses.CoercedResponseExample | test/message_test.rb:115-126 | a response whose result code and payment status arrive as the strings "0" and "7" is built with the integers 0 and 7, keeps its signature, and is ok |
| Responses.OkMeaning | lib/csob_pg/message.rb:220-249 | `ok?` holds exactly when the response is not a NullResponse and its result code is 0 |
| Responses.Verify | lib/csob_pg/message.rb:55-57 | verification fails with an error exactly when the response carries no signature |
| Responses.SignatureNeverCovered | lib/csob_pg/message.rb:210-218 | a response's signing string is computed over its declared attributes after `signature`, so the signature never covers itself |
| Responses.GatewaySignedVerifies | lib/csob_pg/message.rb:53-67 | a response signed by the gateway over its own signing string verifies with the gateway's public key |
| Responses.ForgedResponseFails | lib/csob_pg/message.rb:53-67 | a response signed with another key does not verify |
| Responses.TamperedResponseFails | lib/csob_pg/message.rb:53-67 | changing one declared attribute so that its segment differs makes the gateway's signature fail |

## Left out

- `client.rb` and `configuration.rb` are not part of this model. They cover the HTTP calls, JSON parsing, key loading and the fallback to `NullResponse` on a transport error.
- OpenSSL RSA-SHA256 and `Base64.encode64`/`decode64` are not modelled. They are replaced by the `Crypto` record and its three assumptions. `Signature.RemoveNewlines` models the removal of the line breaks `encode64` inserts. That `decode64` still recovers the signature after the removal is not proved; it is part of the `CodecRoundTrips` assumption.
- `Kernel#Integer` is modelled for strings of ASCII digits only, with a leading zero meaning octal as in Ruby. Signs, underscores, whitespace, hexadecimal and binary forms, and floats are not modelled. So the model rejects " 7" and "0x10", which Ruby reads as 7 and 16; a payment status " 7" that the source accepts is rejected by the model.
- When several attributes are invalid, the model reports the first one in declaration order. dry-struct's choice of which error to raise is not modelled.
- `'string'`, `'integer'` and `Types::Integer` are taken to be strict, as in dry-types 1.x.
- Messages.TimestampRoundTrip: `strftime` is proved only for valid date-times in years 2000-2999, the years `DtTm` accepts. Other years and other format directives are not modelled.
- Escape.UnescapeEscape: the round trip is proved for ASCII strings, which covers every Base64 signature. Multi-byte characters are escaped byte by byte, but are not decoded back.
- `Cart#length`, `Cart#to_ary`, `Cart.call_unsafe`, `Cart.meta` and `Struct#to_h` beyond the attribute map are not modelled.
- Messages.Signed returns the validated attribute map plus the signature. The symbol-keyed Ruby hash with nested item hashes is not modelled.
- Frozen tables: the tables are Dafny constants, so nothing can change them, and no lemma is needed.

## Findings

| source | as written | input that shows it | evidently intended | confidence | as-written member | corrected member |
|---|---|---|---|---|---|---|
| lib/csob_pg/message.rb:71-79 | the formats use `^` and `$`, which in Ruby match at line boundaries, so a string passes when any one of its lines matches | "abc\n5547" passes `OrderNo` | the whole string must match (`\A` … `\z`) | high, not executed | Constraints.OrderNoAsWrittenAcceptsTwoLines | Constraints.LineAnchoredSingleLine |
