/** The pure mappings between Saleor payment sessions and the Openweb3 wallet
    payment provider: the provider's order status to a Saleor transaction
    result, a session event to payment-intent parameters, the check on the
    configured keys, and the order `uid` that ties a provider order back to a
    Saleor transaction. */
module Openweb3Api {
  import opened Common

  /** Saleor's `TransactionFlowStrategyEnum`; any value outside the two the
      app supports is carried by its name. */
  datatype FlowStrategy = Authorization | Charge | OtherStrategy(name: string)

  datatype Failure =
    | InvariantFailed(message: string)
    | TypeError
    | RestrictedKeyNotSupported(message: string)

  datatype Result<+T> = Ok(value: T) | Err(error: Failure)

  /** What a provider status means for the transaction. */
  datatype StatusClass = ActionRequired | Failed | Succeeded

  /** The provider statuses are PENDING, PAID, EXPIRED, FAILED and COMPLETED;
      anything unknown needs action, like PENDING. */
  function ClassOf(status: string): (c: StatusClass)
    ensures c == Succeeded <==> status == "PAID" || status == "COMPLETED"
    ensures c == Failed <==> status == "EXPIRED" || status == "FAILED"
    ensures c == ActionRequired <==> status != "PAID" && status != "COMPLETED" && status != "EXPIRED" && status != "FAILED"
  {
    if status == "PAID" || status == "COMPLETED" then Succeeded
    else if status == "EXPIRED" || status == "FAILED" then Failed
    else ActionRequired
  }

  function StrategyPrefix(strategy: FlowStrategy): string
    requires !strategy.OtherStrategy?
  {
    if strategy == Authorization then "AUTHORIZATION" else "CHARGE"
  }

  function ClassSuffix(c: StatusClass): string {
    match c
    case ActionRequired => "_ACTION_REQUIRED"
    case Failed => "_FAILURE"
    case Succeeded => "_SUCCESS"
  }

  /** The six results a session response may carry. */
  const SaleorResults: set<string> := {
    "AUTHORIZATION_ACTION_REQUIRED", "AUTHORIZATION_FAILURE", "AUTHORIZATION_SUCCESS",
    "CHARGE_ACTION_REQUIRED", "CHARGE_FAILURE", "CHARGE_SUCCESS"
  }

  /** Every prefix followed by every suffix spells one of the six results. */
  lemma ResultNameSpelled(strategy: FlowStrategy, c: StatusClass)
    requires !strategy.OtherStrategy?
    ensures StrategyPrefix(strategy) + ClassSuffix(c) in SaleorResults
  {
    var p := StrategyPrefix(strategy);
    assert p == "AUTHORIZATION" || p == "CHARGE";
    var name := p + ClassSuffix(c);
    match c
    case ActionRequired =>
      assert name == "AUTHORIZATION_ACTION_REQUIRED" || name == "CHARGE_ACTION_REQUIRED";
    case Failed =>
      assert name == "AUTHORIZATION_FAILURE" || name == "CHARGE_FAILURE";
    case Succeeded =>
      assert name == "AUTHORIZATION_SUCCESS" || name == "CHARGE_SUCCESS";
  }

  /** `openweb3PaymentIntentToTransactionResult`: the strategy's prefix
      followed by the suffix the status class calls for; an unsupported
      strategy fails the invariant with its name in the message. */
  function TransactionResult(strategy: FlowStrategy, status: string): (r: Result<string>)
    ensures r.Err? <==> strategy.OtherStrategy?
    ensures r.Err? ==> r.error == InvariantFailed("Unsupported transactionFlowStrategy: " + strategy.name)
    ensures r.Ok? ==> r.value == StrategyPrefix(strategy) + ClassSuffix(ClassOf(status))
    ensures r.Ok? ==> r.value in SaleorResults
  {
    var prefix :=
      if strategy == Authorization then Some("AUTHORIZATION")
      else if strategy == Charge then Some("CHARGE")
      else None;
    if prefix.None? then Err(InvariantFailed("Unsupported transactionFlowStrategy: " + strategy.name))
    else
      ResultNameSpelled(strategy, ClassOf(status));
      if status == "PENDING" then Ok(prefix.value + "_ACTION_REQUIRED")
    else if status == "EXPIRED" then Ok(prefix.value + "_FAILURE")
    else if status == "FAILED" then Ok(prefix.value + "_FAILURE")
    else if status == "PAID" then Ok(prefix.value + "_SUCCESS")
    else if status == "COMPLETED" then Ok(prefix.value + "_SUCCESS")
    else Ok(prefix.value + "_ACTION_REQUIRED")
  }

  /** A result string tells the strategy and the status class apart: two
      results agree only when both do. */
  lemma TransactionResultInjective(s1: FlowStrategy, st1: string, s2: FlowStrategy, st2: string)
    requires TransactionResult(s1, st1).Ok? && TransactionResult(s2, st2).Ok?
    ensures TransactionResult(s1, st1) == TransactionResult(s2, st2)
        <==> s1 == s2 && ClassOf(st1) == ClassOf(st2)
  {
    var r1 := TransactionResult(s1, st1).value;
    var r2 := TransactionResult(s2, st2).value;
    if r1 == r2 {
      assert r1[0] == r2[0];
      assert s1 == s2;
      var p := StrategyPrefix(s1);
      assert r1[|p| + 1] == r2[|p| + 1];
    }
  }

  /** A JSON value as JavaScript sees it after parsing. Object key order is
      not kept. */
  datatype Json =
    | JNull
    | JBool(b: bool)
    | JNumber(n: real)
    | JString(s: string)
    | JArray(items: seq<Json>)
    | JObject(fields: map<string, Json>)

  /** The entries `{...v}` copies from an array-like value: item `i` under
      the key `String(i)`. */
  function Indexed(items: seq<Json>): (r: map<string, Json>)
    ensures forall i :: 0 <= i < |items| ==> DecimalString(i) in r && r[DecimalString(i)] == items[i]
    ensures forall k :: k in r ==> exists i :: 0 <= i < |items| && k == DecimalString(i)
  {
    map i | 0 <= i < |items| :: DecimalString(i) := items[i]
  }

  /** A string's characters, each as a one-character string. */
  function Characters(s: string): (r: seq<Json>)
    ensures |r| == |s|
    ensures forall i :: 0 <= i < |s| ==> r[i] == JString([s[i]])
  {
    seq(|s|, i requires 0 <= i < |s| => JString([s[i]]))
  }

  /** The own enumerable properties `{...v}` copies: an object's fields, an
      array's items or a string's characters under their decimal index, and
      nothing for `null`, a boolean or a number. */
  function Spread(v: Json): (r: map<string, Json>)
    ensures v.JObject? ==> r == v.fields
    ensures v.JArray? ==> r == Indexed(v.items)
    ensures v.JString? ==> r == Indexed(Characters(v.s))
    ensures v.JNull? || v.JBool? || v.JNumber? ==> r == map[]
  {
    match v
    case JObject(f) => f
    case JArray(items) => Indexed(items)
    case JString(s) => Indexed(Characters(s))
    case _ => map[]
  }

  /** Spreading an absent value (`undefined`) copies nothing. */
  function SpreadOption(v: Option<Json>): (r: map<string, Json>)
    ensures v.None? ==> r == map[]
    ensures v.Some? ==> r == Spread(v.value)
  {
    if v.None? then map[] else Spread(v.value)
  }

  /** `data.metadata` for a non-null `data`: the field of an object, and
      `undefined` on anything else. */
  function MetadataOf(data: Json): (r: Option<Json>)
    ensures r.Some? <==> data.JObject? && "metadata" in data.fields
    ensures r.Some? ==> r.value == data.fields["metadata"]
  {
    if data.JObject? && "metadata" in data.fields then Some(data.fields["metadata"]) else None
  }

  datatype SourceKind = Checkout | Order

  /** The checkout or order a session is for, with its channel and its gross
      total. */
  datatype SourceObject = SourceObject(kind: SourceKind, id: string, channelId: string, amount: real, currency: string)

  /** The parts of a `TransactionInitializeSession` or
      `TransactionProcessSession` event the mapping reads. */
  datatype SessionEvent = SessionEvent(data: Json, actionType: FlowStrategy, transactionId: string, source: SourceObject)

  const ReservedParams: set<string> := {"amount", "currency", "capture_method", "metadata"}
  const ReservedMetadata: set<string> := {"transactionId", "channelId", "checkoutId", "orderId"}

  /** Whether an inherited metadata field survives: any field the mapping
      does not set itself, including the id field of the other source kind. */
  predicate InheritedSurvives(kind: SourceKind, k: string) {
    k !in ReservedMetadata
    || (k == "orderId" && kind == Checkout)
    || (k == "checkoutId" && kind == Order)
  }

  /** The `metadata` object of the payment intent: the inherited fields, then
      the transaction and channel ids, then the checkout id or the order id,
      each overriding an inherited field of the same name. */
  function IntentMetadata(e: SessionEvent, inherited: map<string, Json>): (m: map<string, Json>)
    ensures "transactionId" in m && m["transactionId"] == JString(e.transactionId)
    ensures "channelId" in m && m["channelId"] == JString(e.source.channelId)
    ensures e.source.kind == Checkout ==> "checkoutId" in m && m["checkoutId"] == JString(e.source.id)
    ensures e.source.kind == Order ==> "orderId" in m && m["orderId"] == JString(e.source.id)
    ensures e.source.kind == Checkout ==> ("orderId" in m <==> "orderId" in inherited)
    ensures e.source.kind == Order ==> ("checkoutId" in m <==> "checkoutId" in inherited)
    ensures forall k :: k in m && k !in ReservedMetadata ==> k in inherited
    ensures forall k :: k in inherited && InheritedSurvives(e.source.kind, k) ==> k in m && m[k] == inherited[k]
  {
    var base := inherited["transactionId" := JString(e.transactionId)]["channelId" := JString(e.source.channelId)];
    match e.source.kind
    case Checkout => base["checkoutId" := JString(e.source.id)]
    case Order => base["orderId" := JString(e.source.id)]
  }

  /** `transactionSessionInitializeEventToOepnweb3Create`: everything in
      `event.data`, then the gross amount and currency, the capture method
      and the metadata, each overriding a `data` field of the same name.
      A `null` `data` makes reading `data.metadata` throw a TypeError. */
  function InitializeEventToCreate(e: SessionEvent): (r: Result<map<string, Json>>)
    ensures r.Err? <==> e.data.JNull?
    ensures r.Err? ==> r.error == TypeError
    ensures r.Ok? ==> r.value.Keys == Spread(e.data).Keys + ReservedParams
    ensures r.Ok? ==> r.value["amount"] == JNumber(e.source.amount)
    ensures r.Ok? ==> r.value["currency"] == JString(e.source.currency)
    ensures r.Ok? ==> (r.value["capture_method"] == JString("automatic") <==> e.actionType == Charge)
    ensures r.Ok? ==> (r.value["capture_method"] == JString("manual") <==> e.actionType != Charge)
    ensures r.Ok? ==> r.value["metadata"] == JObject(IntentMetadata(e, SpreadOption(MetadataOf(e.data))))
    ensures r.Ok? ==> forall k :: k in Spread(e.data) && k !in ReservedParams ==> r.value[k] == Spread(e.data)[k]
  {
    if e.data.JNull? then Err(TypeError)
    else
      var data := e.data;
      var captureMethod := if e.actionType == Charge then "automatic" else "manual";
      var metadata := IntentMetadata(e, SpreadOption(MetadataOf(data)));
      Ok(Spread(data)
        ["amount" := JNumber(e.source.amount)]
        ["currency" := JString(e.source.currency)]
        ["capture_method" := JString(captureMethod)]
        ["metadata" := JObject(metadata)])
  }

  /** `transactionSessionProcessEventToOpenweb3Update`, a separate copy of the
      same mapping: it agrees with the initialize mapping on every event. */
  function ProcessEventToUpdate(e: SessionEvent): (r: Result<map<string, Json>>)
    ensures r == InitializeEventToCreate(e)
  {
    if e.data.JNull? then Err(TypeError)
    else
      var data := e.data;
      var metadata := IntentMetadata(e, SpreadOption(MetadataOf(data)));
      Ok(Spread(data)
        ["amount" := JNumber(e.source.amount)]
        ["currency" := JString(e.source.currency)]
        ["capture_method" := JString(if e.actionType == Charge then "automatic" else "manual")]
        ["metadata" := JObject(metadata)])
  }

  /** `validateOpenweb3Keys`: rejects a missing secret or publishable key;
      otherwise it completes (the invalid-key error it builds is never
      thrown). */
  function ValidateKeys(secretKey: string, publishableKey: string): (r: Outcome<Failure>)
    ensures r.Fail? <==> secretKey == "" || publishableKey == ""
    ensures r.Fail? ==> r.error == RestrictedKeyNotSupported("Restricted keys are not supported")
  {
    if secretKey == "" || publishableKey == "" then
      Fail(RestrictedKeyNotSupported("Restricted keys are not supported"))
    else
      Pass
  }

  /** A template-literal rendering of an optional string: `undefined` when
      absent. */
  function TemplateText(v: Option<string>): string {
    if v.None? then "undefined" else v.value
  }

  /** The provider order `uid`: the user id and the transaction id joined by
      a dash. */
  function Uid(userId: Option<string>, transactionId: Option<string>): (uid: string)
    ensures uid == TemplateText(userId) + "-" + TemplateText(transactionId)
    ensures |uid| == |TemplateText(userId)| + 1 + |TemplateText(transactionId)|
  {
    TemplateText(userId) + "-" + TemplateText(transactionId)
  }

  /** What the webhook takes as the transaction id: the second dash-separated
      field of the uid, `undefined` when there is none. */
  function SecondField(uid: string): (r: Option<string>)
    ensures r.Some? <==> '-' in uid
    ensures r.Some? ==> '-' !in r.value
  {
    var parts := Split(uid, '-');
    if |parts| >= 2 then Some(parts[1]) else None
  }

  /** The webhook's reading of a uid, in full: when the user id holds a dash
      it reads the piece after that dash, whatever the transaction id is;
      otherwise it reads the transaction id up to its first dash. */
  lemma SecondFieldOfUid(u: string, t: string)
    ensures SecondField(Uid(Some(u), Some(t))) ==
      Some(if '-' in u then Split(u, '-')[1] else Split(t, '-')[0])
  {
    assert Uid(Some(u), Some(t)) == u + ['-'] + t;
    if '-' in u {
      SecondPieceOfDashed(u, t);
    } else {
      SplitAfterSeparator(u, '-', t);
    }
  }

  /** When `u` holds a dash, the second piece of `u + "-" + t` is the second
      piece of `u`. */
  lemma SecondPieceOfDashed(u: string, t: string)
    requires '-' in u
    ensures Split(u + ['-'] + t, '-')[1] == Split(u, '-')[1]
  {
    var i := FirstIndex(u, '-');
    var a, rest := u[..i], u[i + 1..];
    assert u == a + ['-'] + rest;
    assert u + ['-'] + t == a + ['-'] + (rest + ['-'] + t);
    SplitAfterSeparator(a, '-', rest + ['-'] + t);
    SplitAfterSeparator(a, '-', rest);
    SplitHead(rest, '-', t);
  }

  /** The first dash-separated field of `t` is `t` itself exactly when `t`
      holds no dash. */
  lemma FirstFieldWhole(t: string)
    ensures Split(t, '-')[0] == t <==> '-' !in t
  {
    if '-' in t {
      FirstFieldOfDashed(t);
    } else {
      SplitNoSeparator(t, '-');
    }
  }

  /** A string with a dash has a first field shorter than itself. */
  lemma FirstFieldOfDashed(t: string)
    requires '-' in t
    ensures |Split(t, '-')[0]| < |t|
  {
    var i := FirstIndex(t, '-');
    var a, rest := t[..i], t[i + 1..];
    assert t == a + ['-'] + rest;
    SplitAfterSeparator(a, '-', rest);
  }

  /** For a dash-free user id (including a missing one, rendered
      `undefined`), the webhook recovers the transaction id exactly when the
      transaction id holds no dash. */
  lemma UidRoundTrip(userId: Option<string>, t: string)
    requires '-' !in TemplateText(userId)
    ensures SecondField(Uid(userId, Some(t))) == Some(t) <==> '-' !in t
  {
    SecondFieldOfUid(TemplateText(userId), t);
    FirstFieldWhole(t);
  }

  /** A user id with a dash decides the webhook's reading alone: two
      different transaction ids give the same reading, so at most one of
      them is recovered. */
  lemma DashedUserIdHidesTransaction(u: string, t1: string, t2: string)
    requires '-' in u
    ensures SecondField(Uid(Some(u), Some(t1))) == SecondField(Uid(Some(u), Some(t2)))
  {
    SecondFieldOfUid(u, t1);
    SecondFieldOfUid(u, t2);
  }

  /** With user id `a-b`, transaction `c` is read back as `b`, and
      transaction `b` is read back correctly only by accident. */
  lemma DashedUserIdExample()
    ensures SecondField(Uid(Some("a-b"), Some("c"))) == Some("b")
    ensures SecondField(Uid(Some("a-b"), Some("b"))) == Some("b")
  {
    SecondFieldOfUid("a-b", "c");
    SecondFieldOfUid("a-b", "b");
    assert "a-b" == "a" + ['-'] + "b";
    SplitAfterSeparator("a", '-', "b");
    SplitNoSeparator("a", '-');
    SplitNoSeparator("b", '-');
  }

  /** The metadata of the created intent carries the session's transaction
      id, so the uid built from it names that transaction. */
  lemma IntentUidNamesTransaction(e: SessionEvent, userId: Option<string>)
    requires !e.data.JNull?
    requires '-' !in TemplateText(userId) && '-' !in e.transactionId
    ensures var md := InitializeEventToCreate(e).value["metadata"].fields;
      "transactionId" in md && md["transactionId"] == JString(e.transactionId)
      && SecondField(Uid(userId, Some(md["transactionId"].s))) == Some(e.transactionId)
  {
    UidRoundTrip(userId, e.transactionId);
  }
}
