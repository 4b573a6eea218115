/**
 * The two closed code tables of the gateway protocol: the result code a
 * response reports, and the lifecycle stage of a payment. Both are constant
 * (frozen) maps; nothing in the model can change them.
 */
module Codes {

  /** Symbolic name of a gateway result code. */
  datatype ResultName =
    | OK
    | MissingParameter
    | InvalidParameter
    | MerchantBlocked
    | SessionExpired
    | PaymentNotFound
    | PaymentNotInValidState
    | PaymentMethodDisabled
    | PaymentMethodUnavailable
    | OperationNotAllowed
    | PaymentMethodError
    | MerchantNotOnboardForMasterpass
    | MasterpassRequestTokenAlreadyInitialized
    | MasterpassRequestTokenDoesNotExist
    | MasterpassCancelledByUser
    | EetRejected
    | MallPaymentDeclined
    | OneclickTemplateNotFound
    | OneclickTemplatePaymentExpired
    | OneclickTemplateCardExpired
    | OneclickTemplateCustomerRejected
    | OneclickTemplatePaymentReversed
    | CustomerNotFound
    | CustomerFoundNoSavedCard
    | CustomerFoundFoundSavedCard
    | InternalError
    | ApplicationError

  /** Symbolic name of a payment lifecycle stage. */
  datatype Stage =
    | PaymentInitialized
    | PaymentInProgress
    | PaymentCancelled
    | PaymentConfirmed
    | PaymentRevoked
    | PaymentDeclined
    | PaymentPending
    | PaymentCleared
    | RepayInProgress
    | PaymentRepaid

  /** Result code reserved for failures synthesised locally by the client. */
  const ApplicationErrorCode := 10000

  /** Position of a result name in the table, in declaration order. */
  function ResultOrdinal(n: ResultName): nat {
    match n
    case OK => 0
    case MissingParameter => 1
    case InvalidParameter => 2
    case MerchantBlocked => 3
    case SessionExpired => 4
    case PaymentNotFound => 5
    case PaymentNotInValidState => 6
    case PaymentMethodDisabled => 7
    case PaymentMethodUnavailable => 8
    case OperationNotAllowed => 9
    case PaymentMethodError => 10
    case MerchantNotOnboardForMasterpass => 11
    case MasterpassRequestTokenAlreadyInitialized => 12
    case MasterpassRequestTokenDoesNotExist => 13
    case MasterpassCancelledByUser => 14
    case EetRejected => 15
    case MallPaymentDeclined => 16
    case OneclickTemplateNotFound => 17
    case OneclickTemplatePaymentExpired => 18
    case OneclickTemplateCardExpired => 19
    case OneclickTemplateCustomerRejected => 20
    case OneclickTemplatePaymentReversed => 21
    case CustomerNotFound => 22
    case CustomerFoundNoSavedCard => 23
    case CustomerFoundFoundSavedCard => 24
    case InternalError => 25
    case ApplicationError => 26
  }

  /** Position of a lifecycle stage in the table, in declaration order. */
  function StageOrdinal(s: Stage): nat {
    match s
    case PaymentInitialized => 0
    case PaymentInProgress => 1
    case PaymentCancelled => 2
    case PaymentConfirmed => 3
    case PaymentRevoked => 4
    case PaymentDeclined => 5
    case PaymentPending => 6
    case PaymentCleared => 7
    case RepayInProgress => 8
    case PaymentRepaid => 9
  }

  /** The result-code table as its literal, in declaration order. */
  const ResultCodeEntries: seq<(int, ResultName)> := [
    (0, OK),
    (100, MissingParameter),
    (110, InvalidParameter),
    (120, MerchantBlocked),
    (130, SessionExpired),
    (140, PaymentNotFound),
    (150, PaymentNotInValidState),
    (160, PaymentMethodDisabled),
    (170, PaymentMethodUnavailable),
    (180, OperationNotAllowed),
    (190, PaymentMethodError),
    (230, MerchantNotOnboardForMasterpass),
    (240, MasterpassRequestTokenAlreadyInitialized),
    (250, MasterpassRequestTokenDoesNotExist),
    (270, MasterpassCancelledByUser),
    (500, EetRejected),
    (600, MallPaymentDeclined),
    (700, OneclickTemplateNotFound),
    (710, OneclickTemplatePaymentExpired),
    (720, OneclickTemplateCardExpired),
    (730, OneclickTemplateCustomerRejected),
    (740, OneclickTemplatePaymentReversed),
    (800, CustomerNotFound),
    (810, CustomerFoundNoSavedCard),
    (820, CustomerFoundFoundSavedCard),
    (900, InternalError),
    (ApplicationErrorCode, ApplicationError)
  ]

  /** The lifecycle table as its literal, in declaration order. */
  const LifecycleEntries: seq<(int, Stage)> := [
    (1, PaymentInitialized),
    (2, PaymentInProgress),
    (3, PaymentCancelled),
    (4, PaymentConfirmed),
    (5, PaymentRevoked),
    (6, PaymentDeclined),
    (7, PaymentPending),
    (8, PaymentCleared),
    (9, RepayInProgress),
    (10, PaymentRepaid)
  ]

  /** A hash literal: each key maps to the value written beside it. */
  function ToMap<V>(entries: seq<(int, V)>): map<int, V> {
    if entries == [] then map[] else ToMap(entries[1..])[entries[0].0 := entries[0].1]
  }

  const ResultCodes: map<int, ResultName> := ToMap(ResultCodeEntries)

  const TransactionLifecycle: map<int, Stage> := ToMap(LifecycleEntries)

  /** A result code is valid when it is a key of the result-code table. */
  predicate IsResultCode(code: int) {
    code in ResultCodes
  }

  /** A payment status is valid when it is a key of the lifecycle table. */
  predicate IsPaymentStatus(status: int) {
    status in TransactionLifecycle
  }

  /** `ok?` of a response: the code maps to OK (an unknown code does not). */
  predicate IsOk(code: int) {
    code in ResultCodes && ResultCodes[code] == OK
  }

  /** A map is injective when no two keys share a value. */
  ghost predicate Injective<K, V>(m: map<K, V>) {
    forall k, k' :: k in m && k' in m && k != k' ==> m[k] != m[k']
  }

  ghost predicate KeysIncreasing<V>(entries: seq<(int, V)>) {
    forall i :: 0 <= i < |entries| - 1 ==> entries[i].0 < entries[i + 1].0
  }

  ghost predicate RanksIncreasing<V>(entries: seq<(int, V)>, rank: V -> nat) {
    forall i :: 0 <= i < |entries| - 1 ==> rank(entries[i].1) < rank(entries[i + 1].1)
  }

  /** In an increasing literal a later key is above an earlier one. */
  lemma {:induction false} KeyBelow<V>(entries: seq<(int, V)>, i: nat, j: nat)
    requires KeysIncreasing(entries)
    requires i < j < |entries|
    ensures entries[i].0 < entries[j].0
    decreases j - i
  {
    if i + 1 < j {
      KeyBelow(entries, i + 1, j);
    }
  }

  /** With increasing ranks a later value ranks above an earlier one. */
  lemma {:induction false} RankBelow<V>(entries: seq<(int, V)>, rank: V -> nat, i: nat, j: nat)
    requires RanksIncreasing(entries, rank)
    requires i < j < |entries|
    ensures rank(entries[i].1) < rank(entries[j].1)
    decreases j - i
  {
    if i + 1 < j {
      RankBelow(entries, rank, i + 1, j);
    }
  }

  /** Every line of an increasing literal is in the map, with its value. */
  lemma {:induction false} ToMapAt<V>(entries: seq<(int, V)>, i: nat)
    requires KeysIncreasing(entries)
    requires i < |entries|
    ensures entries[i].0 in ToMap(entries)
    ensures ToMap(entries)[entries[i].0] == entries[i].1
  {
    var rest := entries[1..];
    assert KeysIncreasing(rest);
    if i > 0 {
      assert entries[i] == rest[i - 1];
      ToMapAt(rest, i - 1);
      KeyBelow(entries, 0, i);
    }
  }

  /** Every key of the map comes from some line of the literal. */
  lemma {:induction false} ToMapIndex<V>(entries: seq<(int, V)>, k: int) returns (i: nat)
    requires k in ToMap(entries)
    ensures i < |entries| && entries[i].0 == k
  {
    if entries[0].0 == k {
      i := 0;
    } else {
      var j := ToMapIndex(entries[1..], k);
      i := j + 1;
    }
  }

  /** A key below every key of the literal is not in the map. */
  lemma {:induction false} ToMapFirstKey<V>(entries: seq<(int, V)>, k: int)
    requires KeysIncreasing(entries)
    requires entries != [] && k < entries[0].0
    ensures k !in ToMap(entries)
  {
    if k in ToMap(entries) {
      var i := ToMapIndex(entries, k);
      if i > 0 {
        KeyBelow(entries, 0, i);
      }
    }
  }

  /** Distinct keys: the map has one entry per line of the literal. */
  lemma {:induction false} ToMapSize<V>(entries: seq<(int, V)>)
    requires KeysIncreasing(entries)
    ensures |ToMap(entries)| == |entries|
  {
    if entries != [] {
      var rest := entries[1..];
      assert KeysIncreasing(rest);
      ToMapSize(rest);
      if |rest| > 0 {
        assert rest[0] == entries[1];
        ToMapFirstKey(rest, entries[0].0);
      }
    }
  }

  /** Distinct values: no two codes of the literal share a name. */
  lemma ToMapInjective<V>(entries: seq<(int, V)>, rank: V -> nat)
    requires KeysIncreasing(entries) && RanksIncreasing(entries, rank)
    ensures Injective(ToMap(entries))
  {
    var m := ToMap(entries);
    forall k, k' | k in m && k' in m && k != k'
      ensures m[k] != m[k']
    {
      var i := ToMapIndex(entries, k);
      var j := ToMapIndex(entries, k');
      ToMapAt(entries, i);
      ToMapAt(entries, j);
      if i < j {
        RankBelow(entries, rank, i, j);
      } else {
        RankBelow(entries, rank, j, i);
      }
    }
  }

  /** Both literals list their codes, and their names, in increasing order. */
  lemma ResultKeysOrdered()
    ensures KeysIncreasing(ResultCodeEntries)
  {
  }

  lemma ResultNamesOrdered()
    ensures RanksIncreasing(ResultCodeEntries, ResultOrdinal)
  {
    ResultNamesAtIndex();
  }

  /** Each name sits at the position its ordinal gives. */
  lemma ResultNamesAtIndex()
    ensures forall i :: 0 <= i < |ResultCodeEntries| ==> ResultOrdinal(ResultCodeEntries[i].1) == i
  {
    ResultNamesFrom0();
    ResultNamesFrom7();
    ResultNamesFrom14();
    ResultNamesFrom21();
  }

  lemma ResultNamesFrom0()
    ensures forall i :: 0 <= i < 7 ==> ResultOrdinal(ResultCodeEntries[i].1) == i
  {
  }

  lemma ResultNamesFrom7()
    ensures forall i :: 7 <= i < 14 ==> ResultOrdinal(ResultCodeEntries[i].1) == i
  {
  }

  lemma ResultNamesFrom14()
    ensures forall i :: 14 <= i < 21 ==> ResultOrdinal(ResultCodeEntries[i].1) == i
  {
  }

  lemma ResultNamesFrom21()
    ensures forall i :: 21 <= i < 27 ==> ResultOrdinal(ResultCodeEntries[i].1) == i
  {
  }

  lemma LifecycleKeysOrdered()
    ensures KeysIncreasing(LifecycleEntries)
  {
  }

  lemma LifecycleStagesOrdered()
    ensures RanksIncreasing(LifecycleEntries, StageOrdinal)
  {
  }

  /** The table holds exactly the 27 codes of its literal, each with its name. */
  lemma ResultCodesKeys()
    ensures |ResultCodes| == 27
    ensures forall i :: 0 <= i < |ResultCodeEntries| ==>
      ResultCodeEntries[i].0 in ResultCodes && ResultCodes[ResultCodeEntries[i].0] == ResultCodeEntries[i].1
  {
    var e := ResultCodeEntries;
    ResultKeysOrdered();
    ToMapSize(e);
    forall i | 0 <= i < |e|
      ensures e[i].0 in ResultCodes && ResultCodes[e[i].0] == e[i].1
    {
      ToMapAt(e, i);
    }
  }

  /** 0 is a key mapping to OK, and it is the only one. */
  lemma OkOnlyForZero(code: int)
    ensures IsOk(code) <==> code == 0
  {
    var e := ResultCodeEntries;
    ResultKeysOrdered();
    ResultNamesOrdered();
    ToMapAt(e, 0);
    if code != 0 && code in ResultCodes {
      var i := ToMapIndex(e, code);
      ToMapAt(e, i);
      RankBelow(e, ResultOrdinal, 0, i);
    }
  }

  lemma NamedCodes()
    ensures 110 in ResultCodes && ResultCodes[110] == InvalidParameter
    ensures 150 in ResultCodes && ResultCodes[150] == PaymentNotInValidState
    ensures 900 in ResultCodes && ResultCodes[900] == InternalError
    ensures 10000 in ResultCodes && ResultCodes[10000] == ApplicationError
  {
    var e := ResultCodeEntries;
    ResultKeysOrdered();
    ToMapAt(e, 2);
    ToMapAt(e, 6);
    ToMapAt(e, 25);
    ToMapAt(e, 26);
  }

  lemma LifecycleKeyAt(i: nat)
    requires i < |LifecycleEntries|
    ensures |LifecycleEntries| == 10 && LifecycleEntries[i].0 == i + 1
  {
  }

  lemma LifecycleDomain(k: int)
    ensures k in TransactionLifecycle <==> 1 <= k <= 10
  {
    var e := LifecycleEntries;
    LifecycleKeysOrdered();
    if 1 <= k <= 10 {
      LifecycleKeyAt(k - 1);
      ToMapAt(e, k - 1);
    }
    if k in TransactionLifecycle {
      var i := ToMapIndex(e, k);
      LifecycleKeyAt(i);
    }
  }

  lemma LifecycleEnds()
    ensures 1 in TransactionLifecycle && TransactionLifecycle[1] == PaymentInitialized
    ensures 10 in TransactionLifecycle && TransactionLifecycle[10] == PaymentRepaid
  {
    LifecycleKeysOrdered();
    ToMapAt(LifecycleEntries, 0);
    ToMapAt(LifecycleEntries, 9);
  }

  /** The lifecycle keys are exactly 1..10, from initialized to repaid. */
  lemma LifecycleKeys()
    ensures forall k :: k in TransactionLifecycle <==> 1 <= k <= 10
    ensures |TransactionLifecycle| == 10
    ensures 1 in TransactionLifecycle && TransactionLifecycle[1] == PaymentInitialized
    ensures 10 in TransactionLifecycle && TransactionLifecycle[10] == PaymentRepaid
  {
    forall k ensures k in TransactionLifecycle <==> 1 <= k <= 10 {
      LifecycleDomain(k);
    }
    LifecycleKeysOrdered();
    ToMapSize(LifecycleEntries);
    LifecycleEnds();
  }

  lemma TablesInjective()
    ensures Injective(ResultCodes)
    ensures Injective(TransactionLifecycle)
  {
    ResultKeysOrdered();
    ResultNamesOrdered();
    ToMapInjective(ResultCodeEntries, ResultOrdinal);
    LifecycleKeysOrdered();
    LifecycleStagesOrdered();
    ToMapInjective(LifecycleEntries, StageOrdinal);
  }
}
