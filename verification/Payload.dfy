/** What a billing webhook stores, and the inbox identity it is stored under: the allow-listed
    projection of each provider's delivery, hashed over its canonical JSON. */
module Payload {
  import opened Options
  import opened CanonicalJson
  import opened BillingInbox

  /** What the projection takes from outside: SHA-256 in hex, Python's `str` and `int` of a
      parsed value (None when it raises), and the server's test mode and environment. */
  datatype World = World(hash: string -> string, text: Json -> string, toInt: Json -> Option<int>,
                         testMode: bool, environment: string)

  ghost predicate CollisionFree(hash: string -> string) {
    forall x, y :: hash(x) == hash(y) ==> x == y
  }

  datatype Rejection =
    | Malformed | EventMismatch | WrongType | WrongMode | NoOrder | NoNonce
    | NoEvent | NoPayment | WrongEnvironment | NoRefund | NoDispute | BadDispute | WrongDispute

  datatype Result = Rejected(reason: Rejection) | Ignored | Accepted(objectId: string, payload: Json)

  // ------------------------------------------------------------------ reading a parsed dict

  /** `d.get(name)`: None reads as null. */
  function Get(d: Fields, name: string): Json {
    match d
    case NoFields => Null
    case Field(n, value, rest) => if n == name then value else Get(rest, name)
  }

  /** `x if isinstance(x, dict) else {}`. */
  function Dict(j: Json): Fields {
    if j.Obj? then j.fields else NoFields
  }

  function Truthy(j: Json): bool {
    match j
    case Null => false
    case Bool(b) => b
    case Num(n) => n != 0
    case Str(s) => s != ""
    case Arr(items) => items.Item?
    case Obj(fields) => fields.Field?
  }

  /** The hash of a nonce, null when there is none; the raw nonce goes no further. */
  function NonceHash(w: World, nonce: Json): Json {
    if Truthy(nonce) then Str(w.hash(w.text(nonce))) else Null
  }

  type Columns = seq<(string, Json)>

  /** A dict literal. */
  function Record(columns: Columns): Fields {
    if columns == [] then NoFields else Field(columns[0].0, columns[0].1, Record(columns[1..]))
  }

  /** An allow-list: the stored name of a field, and its name in the delivery. */
  type AllowList = seq<(string, string)>

  function Pick(t: AllowList, d: Fields): Columns {
    seq(|t|, i requires 0 <= i < |t| => (t[i].0, Get(d, t[i].1)))
  }

  const LEMON_ATTRIBUTES: AllowList := [
    ("store_id", "store_id"), ("customer_id", "customer_id"), ("status", "status"), ("currency", "currency"),
    ("test_mode", "test_mode"), ("order_subtotal_cents", "subtotal"), ("order_total_cents", "total"),
    ("discount_total_cents", "discount_total"), ("refunded", "refunded"), ("refunded_amount_cents", "refunded_amount"),
    ("created_at", "created_at"), ("updated_at", "updated_at")]
  const LEMON_ITEM: AllowList := [
    ("order_item_id", "id"), ("product_id", "product_id"), ("variant_id", "variant_id"), ("item_price_cents", "price")]
  const CUSTOM: AllowList := [
    ("user_id", "user_id"), ("checkout_ref", "checkout_ref"), ("environment", "environment"), ("credits", "credits"),
    ("price_cents", "price_cents"), ("currency", "currency")]
  const PAYMENT: AllowList := [
    ("payment_id", "id"), ("amount", "amount"), ("currency", "currency"), ("status", "status"), ("method", "method"),
    ("amount_refunded", "amount_refunded"), ("refund_status", "refund_status"), ("created_at", "created_at"),
    ("order_id", "order_id")]
  const LINK: AllowList := [
    ("payment_link_id", "id"), ("reference_id", "reference_id"), ("amount", "amount"), ("currency", "currency"),
    ("status", "status"), ("order_id", "order_id")]
  const REFUND: AllowList := [("refund_id", "id"), ("payment_id", "payment_id"), ("amount", "amount")]

  /** The block of fields the checkout itself set, its nonce replaced by a hash. */
  function CustomBlock(w: World, custom: Fields): Json {
    Obj(Record(Pick(CUSTOM, custom)
               + [("checkout_nonce_hash_from_webhook", NonceHash(w, Get(custom, "checkout_nonce")))]))
  }

  function Block(t: AllowList, d: Fields): Json {
    Obj(Record(Pick(t, d)))
  }

  // ------------------------------------------------------------------ Lemon Squeezy

  function Meta(d: Fields): Fields { Dict(Get(d, "meta")) }
  function Attributes(d: Fields): Fields { Dict(Get(Dict(Get(d, "data")), "attributes")) }
  function FirstItem(d: Fields): Fields { Dict(Get(Attributes(d), "first_order_item")) }
  function CustomData(d: Fields): Fields { Dict(Get(Meta(d), "custom_data")) }

  function OrderId(d: Fields): Json { Get(Dict(Get(d, "data")), "id") }

  function LemonHead(w: World, event: string, d: Fields): Columns {
    [("provider", Str("lemonsqueezy")), ("event_name", Str(event)), ("order_id", Str(w.text(OrderId(d))))]
  }

  function LemonColumns(w: World, event: string, d: Fields): Columns {
    LemonHead(w, event, d)
    + Pick(LEMON_ATTRIBUTES, Attributes(d))
    + Pick(LEMON_ITEM, FirstItem(d))
    + [("custom", CustomBlock(w, CustomData(d)))]
  }

  /** `lemon_webhook` from the parsed body to the normalised payload. */
  function Lemon(w: World, header: string, body: Json): Result {
    if !body.Obj? then Rejected(Malformed)
    else
      var d := body.fields;
      var event, order, mode := Get(Meta(d), "event_name"), OrderId(d), Get(Attributes(d), "test_mode");
      if !Truthy(event) || event != Str(header) then Rejected(EventMismatch)
      else if header != "order_created" && header != "order_refunded" then Ignored
      else if Get(Dict(Get(d, "data")), "type") != Str("orders") then Rejected(WrongType)
      else if mode != Null && Truthy(mode) != w.testMode then Rejected(WrongMode)
      else if !Truthy(order) then Rejected(NoOrder)
      else if header == "order_created" && !Truthy(Get(CustomData(d), "checkout_nonce")) then Rejected(NoNonce)
      else Accepted(w.text(order), Obj(Record(LemonColumns(w, header, d))))
  }

  // ------------------------------------------------------------------ Razorpay

  function Entity(entities: Fields, key: string): Fields {
    Dict(Get(Dict(Get(entities, key)), "entity"))
  }

  function Notes(entity: Fields): Fields { Dict(Get(entity, "notes")) }

  function RazorpayColumns(event: string, id: string, link: Json, payment: Json, refund: Json, notes: Json): Columns {
    [("provider", Str("razorpay")),
     ("event_name", Str(event)),
     ("payment_id", Str(id)),
     ("payment_link", link),
     ("payment", payment),
     ("refund", refund),
     ("notes", notes)]
  }

  function PaidColumns(w: World, entities: Fields): Columns {
    var link, payment := Entity(entities, "payment_link"), Entity(entities, "payment");
    RazorpayColumns("payment_link.paid", w.text(Get(payment, "id")), Block(LINK, link), Block(PAYMENT, payment), Null,
                    CustomBlock(w, Notes(link)))
  }

  /** `_normalize_razorpay_link_paid`. */
  function LinkPaid(w: World, entities: Fields): Result {
    var link, id := Entity(entities, "payment_link"), Get(Entity(entities, "payment"), "id");
    if !Truthy(id) then Rejected(NoPayment)
    else if !Truthy(Get(Notes(link), "checkout_nonce")) then Rejected(NoNonce)
    else if Get(Notes(link), "environment") != Str(w.environment) then Rejected(WrongEnvironment)
    else Accepted(w.text(id), Obj(Record(PaidColumns(w, entities))))
  }

  /** `refund.get("payment_id") or payment.get("id")`. */
  function RefundedPayment(entities: Fields): Json {
    var named := Get(Entity(entities, "refund"), "payment_id");
    if Truthy(named) then named else Get(Entity(entities, "payment"), "id")
  }

  function RefundedColumns(w: World, entities: Fields): Columns {
    var refund, payment := Entity(entities, "refund"), Entity(entities, "payment");
    RazorpayColumns("refund.processed", w.text(RefundedPayment(entities)), Null, Block(PAYMENT, payment),
                    Block(REFUND, refund),
                    CustomBlock(w, Notes(payment)))
  }

  /** `_normalize_razorpay_refund`. */
  function Refunded(w: World, entities: Fields): Result {
    var refund, payment, id := Entity(entities, "refund"), Entity(entities, "payment"), RefundedPayment(entities);
    var environment := Get(Notes(payment), "environment");
    if !Truthy(Get(refund, "id")) || !Truthy(id)
        || (Get(payment, "id") != Null && !PythonEqual(Get(payment, "id"), id)) then Rejected(NoRefund)
    else if environment != Null && environment != Str(w.environment) then Rejected(WrongEnvironment)
    else Accepted(w.text(id), Obj(Record(RefundedColumns(w, entities))))
  }

  /** Python equality of parsed values: True is 1 and False is 0, at any depth. */
  predicate PythonEqual(a: Json, b: Json) {
    Meaning(AsNumbers(a)) == Meaning(AsNumbers(b))
  }

  function AsNumbers(j: Json): Json {
    match j
    case Bool(b) => Num(if b then 1 else 0)
    case Arr(items) => Arr(ItemsAsNumbers(items))
    case Obj(fields) => Obj(FieldsAsNumbers(fields))
    case _ => j
  }

  function ItemsAsNumbers(items: Items): Items {
    if items.NoItems? then NoItems else Item(AsNumbers(items.head), ItemsAsNumbers(items.tail))
  }

  function FieldsAsNumbers(fields: Fields): Fields {
    if fields.NoFields? then NoFields else Field(fields.name, AsNumbers(fields.value), FieldsAsNumbers(fields.rest))
  }

  const DISPUTE_STATES: seq<string> := ["created", "under_review", "action_required", "lost", "won", "closed"]

  function DisputeState(suffix: string): string {
    if suffix == "created" then "open" else suffix
  }

  /** `int(dispute.get("amount_deducted") or 0)`. */
  function Deducted(w: World, dispute: Fields): Option<int> {
    var v := Get(dispute, "amount_deducted");
    w.toInt(if Truthy(v) then v else Num(0))
  }

  predicate Holds(d: Fields, name: string) {
    match d
    case NoFields => false
    case Field(n, _, rest) => n == name || Holds(rest, name)
  }

  function DisputeColumns(w: World, dispute: Fields, state: string, amount: int, deducted: int): Columns {
    [("dispute_id", Str(w.text(Get(dispute, "id")))),
     ("amount", Num(amount)),
     ("currency", Str(w.text(Get(dispute, "currency")))),
     ("status", Str(state)),
     ("amount_deducted", Num(deducted))]
  }

  function DisputeRecordColumns(event: string, id: string, time: int, payment: Json, dispute: Json): Columns {
    [("provider", Str("razorpay")),
     ("event_name", Str(event)),
     ("payment_id", Str(id)),
     ("event_created_at", Num(time)),
     ("payment", payment),
     ("dispute", dispute)]
  }

  function DisputedColumns(w: World, entities: Fields, suffix: string, time: int, amount: int, deducted: int): Columns {
    var dispute, payment := Entity(entities, "dispute"), Entity(entities, "payment");
    DisputeRecordColumns("payment.dispute." + suffix, w.text(Get(dispute, "payment_id")), time, Block(PAYMENT, payment),
                         DisputeBlock(w, dispute, DisputeState(suffix), amount, deducted))
  }

  function DisputeBlock(w: World, dispute: Fields, state: string, amount: int, deducted: int): Json {
    Obj(Record(DisputeColumns(w, dispute, state, amount, deducted)))
  }

  /** `_normalize_razorpay_dispute`. */
  function Disputed(w: World, entities: Fields, suffix: string, createdAt: Json): Result {
    var dispute, payment := Entity(entities, "dispute"), Entity(entities, "payment");
    var id := Get(dispute, "payment_id");
    if !Truthy(Get(dispute, "id")) || !Truthy(id)
        || (Get(payment, "id") != Null && !PythonEqual(Get(payment, "id"), id))
    then Rejected(NoDispute)
    else
      match (w.toInt(createdAt), if Holds(dispute, "amount") then w.toInt(Get(dispute, "amount")) else None,
             Deducted(w, dispute))
      case (Some(time), Some(amount), Some(deducted)) =>
        if time <= 0 || amount < 0 || deducted < 0 then Rejected(BadDispute)
        else if Get(dispute, "status") != Str(DisputeState(suffix)) || !Truthy(Get(dispute, "currency"))
            then Rejected(WrongDispute)
        else Accepted(w.text(id), Obj(Record(DisputedColumns(w, entities, suffix, time, amount, deducted))))
      case _ => Rejected(BadDispute)
  }

  const DISPUTE_PREFIX := "payment.dispute."

  /** `razorpay_webhook` from the parsed body to the normalised payload. */
  function Razorpay(w: World, body: Json): Result {
    if !body.Obj? then Rejected(Malformed)
    else
      var event, entities := Get(body.fields, "event"), Dict(Get(body.fields, "payload"));
      if !event.Str? || event.s == "" then Rejected(NoEvent)
      else if event.s == "payment_link.paid" then LinkPaid(w, entities)
      else if event.s == "refund.processed" then Refunded(w, entities)
      else if DISPUTE_PREFIX <= event.s && event.s[|DISPUTE_PREFIX|..] in DISPUTE_STATES
      then Disputed(w, entities, event.s[|DISPUTE_PREFIX|..], Get(body.fields, "created_at"))
      else Ignored
  }

  // ------------------------------------------------------------------ the identity

  function IdentityOf(w: World, provider: string, event: string, r: Result): Identity
    requires r.Accepted?
  {
    Identity(provider, event, r.objectId, w.hash(Dumps(r.payload)))
  }

  /** What is stored: the delivery's own id joins the payload after it was hashed. */
  function Stored(r: Result, eventId: Json): Json
    requires r.Accepted? && r.payload.Obj?
  {
    Obj(Append(r.payload.fields, "event_id", eventId))
  }

  function Append(fields: Fields, name: string, value: Json): Fields {
    match fields
    case NoFields => Field(name, value, NoFields)
    case Field(n, v, rest) => Field(n, v, Append(rest, name, value))
  }

  // ------------------------------------------------------------------ records

  ghost predicate DistinctNames(c: Columns) {
    forall i, j :: 0 <= i < j < |c| ==> c[i].0 != c[j].0
  }

  ghost predicate SameNames(c: Columns, d: Columns) {
    |c| == |d| && forall i :: 0 <= i < |c| ==> c[i].0 == d[i].0
  }

  predicate Same(a: Json, b: Json) {
    Meaning(a) == Meaning(b)
  }

  lemma {:induction false} RecordHas(c: Columns, name: string)
    ensures name in MeaningFields(Record(c)) <==> exists i :: 0 <= i < |c| && c[i].0 == name
  {
    if c != [] {
      RecordHas(c[1..], name);
      if name in MeaningFields(Record(c[1..])) {
        var i :| 0 <= i < |c[1..]| && c[1..][i].0 == name;
        assert c[i + 1].0 == name;
      }
      if i :| 0 < i < |c| && c[i].0 == name {
        assert c[1..][i - 1].0 == name;
      }
    }
  }

  lemma {:induction false} RecordIsDict(c: Columns)
    requires DistinctNames(c) && forall i :: 0 <= i < |c| ==> IsDict(c[i].1)
    ensures HasDictFields(Record(c))
  {
    if c != [] {
      RecordIsDict(c[1..]);
      RecordHas(c[1..], c[0].0);
    }
  }

  predicate AllSame(c: Columns, d: Columns) {
    |c| == |d| && forall i :: 0 <= i < |c| ==> Same(c[i].1, d[i].1)
  }

  /** Two records of the same shape mean the same exactly when all their values do. */
  lemma {:induction false} RecordsSame(c: Columns, d: Columns)
    requires DistinctNames(c) && SameNames(c, d)
    ensures Same(Obj(Record(c)), Obj(Record(d))) <==> AllSame(c, d)
  {
    if c != [] {
      var c', d', name := c[1..], d[1..], c[0].0;
      RecordsSame(c', d');
      MeaningOfRecord(c', d');
      RecordHas(c', name);
      RecordHas(d', name);
      MapsSame(MeaningFields(Record(c')), MeaningFields(Record(d')), name, Meaning(c[0].1), Meaning(d[0].1));
      OneSame(name, c[0].1, d[0].1);
      SameConcat([c[0]], [d[0]], c', d');
      assert c == [c[0]] + c' && d == [d[0]] + d';
      assert c[0] == (name, c[0].1) && d[0] == (name, d[0].1);
      assert MeaningFields(Record(c)) == MeaningFields(Record(c'))[name := Meaning(c[0].1)];
      assert MeaningFields(Record(d)) == MeaningFields(Record(d'))[name := Meaning(d[0].1)];
      MeaningOfRecord(c, d);
    }
  }

  lemma MeaningOfRecord(c: Columns, d: Columns)
    ensures Same(Obj(Record(c)), Obj(Record(d))) <==> MeaningFields(Record(c)) == MeaningFields(Record(d))
  {}

  lemma MapsSame(m1: map<string, Value>, m2: map<string, Value>, k: string, v1: Value, v2: Value)
    requires k !in m1 && k !in m2
    ensures m1[k := v1] == m2[k := v2] <==> v1 == v2 && m1 == m2
  {
    var n1, n2 := m1[k := v1], m2[k := v2];
    assert m1 == n1 - {k} && m2 == n2 - {k};
    assert n1[k] == v1 && n2[k] == v2;
  }

  lemma SameConcat(c1: Columns, d1: Columns, c2: Columns, d2: Columns)
    requires |c1| == |d1| && |c2| == |d2|
    ensures AllSame(c1 + c2, d1 + d2) <==> AllSame(c1, d1) && AllSame(c2, d2)
  {
    hide Same;
    if AllSame(c1 + c2, d1 + d2) {
      assert forall i :: 0 <= i < |c1| ==> c1[i] == (c1 + c2)[i] && d1[i] == (d1 + d2)[i];
      assert forall i :: 0 <= i < |c2| ==> c2[i] == (c1 + c2)[|c1| + i] && d2[i] == (d1 + d2)[|c1| + i];
    }
  }

  lemma {:induction false} GetIsDict(d: Fields, name: string)
    requires HasDictFields(d)
    ensures IsDict(Get(d, name)) && HasDictFields(Dict(Get(d, name)))
  {
    if d.Field? && d.name != name {
      GetIsDict(d.rest, name);
    }
  }

  // ------------------------------------------------------------------ what the identity depends on

  /** Two dicts agree on the allow-listed fields; an absent field and a null one are the same. */
  predicate Agree(t: AllowList, a: Fields, b: Fields) {
    forall i :: 0 <= i < |t| ==> Same(Get(a, t[i].1), Get(b, t[i].1))
  }

  predicate SameNonce(w: World, a: Json, b: Json) {
    Truthy(a) == Truthy(b) && (Truthy(a) ==> w.text(a) == w.text(b))
  }

  lemma NonceHashSame(w: World, a: Json, b: Json)
    requires CollisionFree(w.hash)
    ensures Same(NonceHash(w, a), NonceHash(w, b)) <==> SameNonce(w, a, b)
  {}

  lemma PickSame(t: AllowList, a: Fields, b: Fields)
    ensures AllSame(Pick(t, a), Pick(t, b)) <==> Agree(t, a, b)
  {
    hide Same, Get;
    var c, d := Pick(t, a), Pick(t, b);
    assert forall i :: 0 <= i < |t| ==> c[i].1 == Get(a, t[i].1) && d[i].1 == Get(b, t[i].1);
  }

  lemma OneSame(name: string, a: Json, b: Json)
    ensures AllSame([(name, a)], [(name, b)]) <==> Same(a, b)
  {
    hide Same;
    var c, d := [(name, a)], [(name, b)];
    assert c[0].1 == a && d[0].1 == b;
  }

  lemma PickIsDict(t: AllowList, d: Fields)
    requires HasDictFields(d)
    ensures forall i :: 0 <= i < |t| ==> IsDict(Pick(t, d)[i].1)
  {
    forall i | 0 <= i < |t| ensures IsDict(Pick(t, d)[i].1) {
      GetIsDict(d, t[i].1);
    }
  }

  /** The stored names of an allow-list are distinct. */
  ghost predicate DistinctTargets(t: AllowList) {
    forall i, j :: 0 <= i < j < |t| ==> t[i].0 != t[j].0
  }

  lemma PickDistinct(t: AllowList, d: Fields)
    requires DistinctTargets(t)
    ensures DistinctNames(Pick(t, d))
  {
    var c := Pick(t, d);
    assert forall i :: 0 <= i < |t| ==> c[i].0 == t[i].0;
  }

  /** Blocks of one allow-list are equal exactly when the deliveries agree on it. */
  lemma BlockSame(t: AllowList, a: Fields, b: Fields)
    requires DistinctTargets(t)
    ensures Same(Block(t, a), Block(t, b)) <==> Agree(t, a, b)
  {
    hide Same, Get;
    PickDistinct(t, a);
    PickSame(t, a, b);
    RecordsSame(Pick(t, a), Pick(t, b));
  }

  lemma BlockIsDict(t: AllowList, d: Fields)
    requires DistinctTargets(t) && HasDictFields(d)
    ensures IsDict(Block(t, d))
  {
    PickDistinct(t, d);
    PickIsDict(t, d);
    RecordIsDict(Pick(t, d));
  }

  // The stored names of each record differ in length or in their first letter.

  /** Position of a name in the Razorpay payment block. */
  function PaymentPlace(name: string): nat {
    var n := |name|;
    if n == 0 then 99
    else if n == 10 then if name[0] == 'p' then 0 else 7
    else if n == 6 then if name[0] == 'a' then 1 else if name[0] == 's' then 3 else 4
    else if n == 8 then if name[0] == 'c' then 2 else 8
    else if n == 15 then 5
    else 6
  }

  /** Position of a name in the Razorpay payment-link block. */
  function LinkPlace(name: string): nat {
    var n := |name|;
    if n == 0 then 99
    else if n == 15 then 0
    else if n == 12 then 1
    else if n == 6 then if name[0] == 'a' then 2 else 4
    else if name[0] == 'c' then 3 else 5
  }

  lemma PaymentNames()
    ensures DistinctTargets(PAYMENT)
  {
    assert forall i :: 0 <= i < |PAYMENT| ==> PaymentPlace(PAYMENT[i].0) == i;
  }

  lemma LinkNames()
    ensures DistinctTargets(LINK)
  {
    assert forall i :: 0 <= i < |LINK| ==> LinkPlace(LINK[i].0) == i;
  }

  lemma RefundNames()
    ensures DistinctTargets(REFUND)
  {}

  /** Position of a name in the Lemon Squeezy record. */
  function LemonPlace(name: string): nat {
    var n := |name|;
    if n == 0 then 99
    else if n == 8 then
      if name[0] == 'p' then 0 else if name[0] == 'o' then 2 else if name[0] == 's' then 3
      else if name[0] == 'c' then 6 else 11
    else if n == 10 then
      if name[0] == 'e' then 1 else if name[0] == 'c' then 13 else if name[0] == 'u' then 14
      else if name[0] == 'p' then 16 else 17
    else if n == 11 then 4
    else if n == 6 then if name[0] == 's' then 5 else 19
    else if n == 9 then 7
    else if n == 20 then if name[0] == 'o' then 8 else 10
    else if n == 17 then 9
    else if n == 21 then 12
    else if n == 13 then 15
    else 18
  }

  ghost predicate Placed(c: Columns, from: nat) {
    forall i :: 0 <= i < |c| ==> LemonPlace(c[i].0) == from + i
  }

  lemma PlacedPick(t: AllowList, d: Fields, from: nat)
    requires forall i :: 0 <= i < |t| ==> LemonPlace(t[i].0) == from + i
    ensures Placed(Pick(t, d), from)
  {
    hide LemonPlace, Get;
  }

  lemma PlacedConcat(c: Columns, d: Columns, from: nat)
    requires Placed(c, from) && Placed(d, from + |c|)
    ensures Placed(c + d, from)
  {
    hide LemonPlace;
  }

  lemma LemonTables()
    ensures forall i :: 0 <= i < |LEMON_ATTRIBUTES| ==> LemonPlace(LEMON_ATTRIBUTES[i].0) == 3 + i
    ensures forall i :: 0 <= i < |LEMON_ITEM| ==> LemonPlace(LEMON_ITEM[i].0) == 15 + i
  {}

  lemma LemonNames(w: World, event: string, d: Fields)
    ensures DistinctNames(LemonColumns(w, event, d))
  {
    var head := LemonHead(w, event, d);
    var a, item := Pick(LEMON_ATTRIBUTES, Attributes(d)), Pick(LEMON_ITEM, FirstItem(d));
    var last := [("custom", CustomBlock(w, CustomData(d)))];
    assert Placed(head, 0) && Placed(last, 19);
    LemonTables();
    hide LemonPlace, Get, CustomBlock;
    PlacedPick(LEMON_ATTRIBUTES, Attributes(d), 3);
    PlacedPick(LEMON_ITEM, FirstItem(d), 15);
    PlacedConcat(head, a, 0);
    PlacedConcat(head + a, item, 0);
    PlacedConcat(head + a + item, last, 0);
    assert LemonColumns(w, event, d) == head + a + item + last;
  }

  lemma CustomNames(w: World, custom: Fields)
    ensures DistinctNames(Pick(CUSTOM, custom)
                          + [("checkout_nonce_hash_from_webhook", NonceHash(w, Get(custom, "checkout_nonce")))])
  {
    hide Get;
    assert DistinctTargets(CUSTOM) && forall i :: 0 <= i < |CUSTOM| ==> |CUSTOM[i].0| <= 12;
    PickDistinct(CUSTOM, custom);
    var c := Pick(CUSTOM, custom);
    assert forall i :: 0 <= i < |c| ==> |c[i].0| <= 12;
    assert |"checkout_nonce_hash_from_webhook"| == 32;
  }

  lemma CustomSame(w: World, a: Fields, b: Fields)
    requires CollisionFree(w.hash)
    ensures Same(CustomBlock(w, a), CustomBlock(w, b))
            <==> Agree(CUSTOM, a, b) && SameNonce(w, Get(a, "checkout_nonce"), Get(b, "checkout_nonce"))
  {
    CustomNames(w, a);
    NonceHashSame(w, Get(a, "checkout_nonce"), Get(b, "checkout_nonce"));
    hide Same, Get, NonceHash, SameNonce, CollisionFree;
    var name, ha, hb := "checkout_nonce_hash_from_webhook", NonceHash(w, Get(a, "checkout_nonce")),
        NonceHash(w, Get(b, "checkout_nonce"));
    var c, d := Pick(CUSTOM, a), Pick(CUSTOM, b);
    PickSame(CUSTOM, a, b);
    OneSame(name, ha, hb);
    SameConcat(c, d, [(name, ha)], [(name, hb)]);
    RecordsSame(c + [(name, ha)], d + [(name, hb)]);
  }

  lemma CustomIsDict(w: World, d: Fields)
    requires HasDictFields(d)
    ensures IsDict(CustomBlock(w, d))
  {
    CustomNames(w, d);
    PickIsDict(CUSTOM, d);
    hide Get;
    var c := Pick(CUSTOM, d) + [("checkout_nonce_hash_from_webhook", NonceHash(w, Get(d, "checkout_nonce")))];
    assert forall i :: 0 <= i < |c| ==> IsDict(c[i].1);
    RecordIsDict(c);
  }

  /** With a collision-free hash, equal identities mean equal event, object and payload. */
  lemma IdentityIsPayload(w: World, provider: string, ea: string, a: Result, eb: string, b: Result)
    requires CollisionFree(w.hash) && a.Accepted? && b.Accepted? && IsDict(a.payload) && IsDict(b.payload)
    ensures IdentityOf(w, provider, ea, a) == IdentityOf(w, provider, eb, b)
            <==> ea == eb && a.objectId == b.objectId && Same(a.payload, b.payload)
  {
    CanonicalIdentity(a.payload, b.payload);
    hide Dumps, Meaning, IsDict;
  }

  // ------------------------------------------------------------------ Lemon Squeezy identities

  lemma LemonIsDict(w: World, event: string, d: Fields)
    requires HasDictFields(d)
    ensures IsDict(Obj(Record(LemonColumns(w, event, d))))
  {
    LemonNames(w, event, d);
    GetIsDict(d, "data");
    GetIsDict(d, "meta");
    GetIsDict(Dict(Get(d, "data")), "attributes");
    GetIsDict(Attributes(d), "first_order_item");
    GetIsDict(Meta(d), "custom_data");
    CustomIsDict(w, CustomData(d));
    PickIsDict(LEMON_ATTRIBUTES, Attributes(d));
    PickIsDict(LEMON_ITEM, FirstItem(d));
    hide Get, Pick, CustomBlock, Attributes, FirstItem, CustomData;
    var c := LemonColumns(w, event, d);
    assert forall i :: 0 <= i < |c| ==> IsDict(c[i].1);
    RecordIsDict(c);
  }

  /** The fields of a Lemon Squeezy delivery that decide its identity. */
  ghost predicate LemonAgree(w: World, ea: string, a: Fields, eb: string, b: Fields) {
    && ea == eb
    && w.text(OrderId(a)) == w.text(OrderId(b))
    && Agree(LEMON_ATTRIBUTES, Attributes(a), Attributes(b))
    && Agree(LEMON_ITEM, FirstItem(a), FirstItem(b))
    && Agree(CUSTOM, CustomData(a), CustomData(b))
    && SameNonce(w, Get(CustomData(a), "checkout_nonce"), Get(CustomData(b), "checkout_nonce"))
  }

  lemma LemonHeadSame(w: World, ea: string, a: Fields, eb: string, b: Fields)
    ensures SameNames(LemonHead(w, ea, a), LemonHead(w, eb, b))
    ensures AllSame(LemonHead(w, ea, a), LemonHead(w, eb, b)) <==> ea == eb && w.text(OrderId(a)) == w.text(OrderId(b))
  {
    hide OrderId;
    var ha, hb := LemonHead(w, ea, a), LemonHead(w, eb, b);
    assert ha[0].1 == hb[0].1;
    assert ha[1].1 == Str(ea) && hb[1].1 == Str(eb);
    assert ha[2].1 == Str(w.text(OrderId(a))) && hb[2].1 == Str(w.text(OrderId(b)));
  }

  lemma NamesPick(t: AllowList, a: Fields, b: Fields)
    ensures SameNames(Pick(t, a), Pick(t, b))
  {}

  lemma LemonSame(w: World, ea: string, a: Fields, eb: string, b: Fields)
    requires CollisionFree(w.hash)
    ensures Same(Obj(Record(LemonColumns(w, ea, a))), Obj(Record(LemonColumns(w, eb, b))))
            <==> LemonAgree(w, ea, a, eb, b)
  {
    LemonNames(w, ea, a);
    CustomSame(w, CustomData(a), CustomData(b));
    LemonHeadSame(w, ea, a, eb, b);
    hide Get, CustomBlock, Attributes, FirstItem, CustomData, OrderId, SameNonce, CollisionFree, Agree,
      LemonHead, Pick, Same, AllSame, SameNames, Record;
    var ha, hb := LemonHead(w, ea, a), LemonHead(w, eb, b);
    var aa, ab := Pick(LEMON_ATTRIBUTES, Attributes(a)), Pick(LEMON_ATTRIBUTES, Attributes(b));
    var ia, ib := Pick(LEMON_ITEM, FirstItem(a)), Pick(LEMON_ITEM, FirstItem(b));
    PickSame(LEMON_ATTRIBUTES, Attributes(a), Attributes(b));
    PickSame(LEMON_ITEM, FirstItem(a), FirstItem(b));
    NamesPick(LEMON_ATTRIBUTES, Attributes(a), Attributes(b));
    NamesPick(LEMON_ITEM, FirstItem(a), FirstItem(b));
    JoinSame(ha, hb, aa, ab);
    JoinSame(ha + aa, hb + ab, ia, ib);
    JoinLastSame(ha + aa + ia, hb + ab + ib, "custom", CustomBlock(w, CustomData(a)), CustomBlock(w, CustomData(b)));
    RecordsSame(LemonColumns(w, ea, a), LemonColumns(w, eb, b));
  }

  lemma JoinSame(c1: Columns, d1: Columns, c2: Columns, d2: Columns)
    requires SameNames(c1, d1) && SameNames(c2, d2)
    ensures SameNames(c1 + c2, d1 + d2)
    ensures AllSame(c1 + c2, d1 + d2) <==> AllSame(c1, d1) && AllSame(c2, d2)
  {
    SameConcat(c1, d1, c2, d2);
  }

  lemma JoinLastSame(c: Columns, d: Columns, name: string, x: Json, y: Json)
    requires SameNames(c, d)
    ensures SameNames(c + [(name, x)], d + [(name, y)])
    ensures AllSame(c + [(name, x)], d + [(name, y)]) <==> AllSame(c, d) && Same(x, y)
  {
    hide Same;
    JoinSame(c, d, [(name, x)], [(name, y)]);
    OneSame(name, x, y);
  }

  /** What acceptance of a Lemon Squeezy delivery means. */
  lemma LemonAccepted(w: World, event: string, body: Json)
    requires Lemon(w, event, body).Accepted?
    ensures body.Obj?
    ensures Lemon(w, event, body)
            == Accepted(w.text(OrderId(body.fields)), Obj(Record(LemonColumns(w, event, body.fields))))
    ensures event == "order_created" || event == "order_refunded"
    ensures event == "order_created" ==> Truthy(Get(CustomData(body.fields), "checkout_nonce"))
  {
    hide Get, OrderId, LemonColumns, Attributes, Record, CustomData;
  }

  /** Two accepted Lemon Squeezy deliveries share an inbox identity exactly when their
      allow-listed fields agree, whatever else they carry and in whatever order. */
  lemma LemonIdentity(w: World, ea: string, a: Json, eb: string, b: Json)
    requires CollisionFree(w.hash) && IsDict(a) && IsDict(b)
    requires Lemon(w, ea, a).Accepted? && Lemon(w, eb, b).Accepted?
    ensures IdentityOf(w, "lemonsqueezy", ea, Lemon(w, ea, a)) == IdentityOf(w, "lemonsqueezy", eb, Lemon(w, eb, b))
            <==> LemonAgree(w, ea, a.fields, eb, b.fields)
  {
    LemonAccepted(w, ea, a);
    LemonAccepted(w, eb, b);
    hide Lemon, Get, Record, LemonColumns, Attributes, FirstItem, CustomData, OrderId, SameNonce, CollisionFree,
      Agree, IdentityOf;
    LemonIsDict(w, ea, a.fields);
    LemonIsDict(w, eb, b.fields);
    LemonSame(w, ea, a.fields, eb, b.fields);
    IdentityIsPayload(w, "lemonsqueezy", ea, Lemon(w, ea, a), eb, Lemon(w, eb, b));
  }

  // ------------------------------------------------------------------ Razorpay identities

  lemma SevenSame(c: Columns, d: Columns)
    requires |c| == 7 == |d|
    ensures AllSame(c, d) <==>
            && Same(c[0].1, d[0].1) && Same(c[1].1, d[1].1) && Same(c[2].1, d[2].1) && Same(c[3].1, d[3].1)
            && Same(c[4].1, d[4].1) && Same(c[5].1, d[5].1) && Same(c[6].1, d[6].1)
  {
    hide Same;
  }

  lemma SixSame(c: Columns, d: Columns)
    requires |c| == 6 == |d|
    ensures AllSame(c, d) <==>
            && Same(c[0].1, d[0].1) && Same(c[1].1, d[1].1) && Same(c[2].1, d[2].1) && Same(c[3].1, d[3].1)
            && Same(c[4].1, d[4].1) && Same(c[5].1, d[5].1)
  {
    hide Same;
  }

  lemma FiveSame(c: Columns, d: Columns)
    requires |c| == 5 == |d|
    ensures AllSame(c, d) <==>
            && Same(c[0].1, d[0].1) && Same(c[1].1, d[1].1) && Same(c[2].1, d[2].1) && Same(c[3].1, d[3].1)
            && Same(c[4].1, d[4].1)
  {
    hide Same;
  }

  lemma ScalarsSame(x: string, y: string, m: int, n: int)
    ensures Same(Str(x), Str(y)) <==> x == y
    ensures Same(Num(m), Num(n)) <==> m == n
    ensures Same(Null, Null)
  {}

  /** The seven-field record of a payment or a refund. */
  lemma RazorpayRecordSame(event: string, id1: string, l1: Json, p1: Json, r1: Json, n1: Json,
                           id2: string, l2: Json, p2: Json, r2: Json, n2: Json)
    ensures DistinctNames(RazorpayColumns(event, id1, l1, p1, r1, n1))
    ensures Same(Obj(Record(RazorpayColumns(event, id1, l1, p1, r1, n1))),
                 Obj(Record(RazorpayColumns(event, id2, l2, p2, r2, n2))))
            <==> id1 == id2 && Same(l1, l2) && Same(p1, p2) && Same(r1, r2) && Same(n1, n2)
  {
    hide Record, Same, AllSame;
    var c, d := RazorpayColumns(event, id1, l1, p1, r1, n1), RazorpayColumns(event, id2, l2, p2, r2, n2);
    ScalarsSame("razorpay", "razorpay", 0, 0);
    ScalarsSame(event, event, 0, 0);
    ScalarsSame(id1, id2, 0, 0);
    RecordsSame(c, d);
    SevenSame(c, d);
  }

  lemma DisputeRecordSame(event: string, id1: string, t1: int, p1: Json, d1: Json, id2: string, t2: int, p2: Json,
                          d2: Json)
    ensures DistinctNames(DisputeRecordColumns(event, id1, t1, p1, d1))
    ensures Same(Obj(Record(DisputeRecordColumns(event, id1, t1, p1, d1))),
                 Obj(Record(DisputeRecordColumns(event, id2, t2, p2, d2))))
            <==> id1 == id2 && t1 == t2 && Same(p1, p2) && Same(d1, d2)
  {
    hide Record, Same, AllSame;
    var c, d := DisputeRecordColumns(event, id1, t1, p1, d1), DisputeRecordColumns(event, id2, t2, p2, d2);
    ScalarsSame("razorpay", "razorpay", t1, t2);
    ScalarsSame(event, event, 0, 0);
    ScalarsSame(id1, id2, 0, 0);
    RecordsSame(c, d);
    SixSame(c, d);
  }

  lemma DisputeBlockSame(w: World, state: string, a: Fields, m1: int, d1: int, b: Fields, m2: int, d2: int)
    ensures DistinctNames(DisputeColumns(w, a, state, m1, d1))
    ensures Same(DisputeBlock(w, a, state, m1, d1), DisputeBlock(w, b, state, m2, d2))
            <==> w.text(Get(a, "id")) == w.text(Get(b, "id"))
                 && w.text(Get(a, "currency")) == w.text(Get(b, "currency"))
                 && m1 == m2 && d1 == d2
  {
    hide Record, Same, AllSame, Get;
    var ca, cb := DisputeColumns(w, a, state, m1, d1), DisputeColumns(w, b, state, m2, d2);
    ScalarsSame(w.text(Get(a, "id")), w.text(Get(b, "id")), m1, m2);
    ScalarsSame(w.text(Get(a, "currency")), w.text(Get(b, "currency")), d1, d2);
    ScalarsSame(state, state, 0, 0);
    RecordsSame(ca, cb);
    FiveSame(ca, cb);
  }

  lemma EntityIsDict(entities: Fields, key: string)
    requires HasDictFields(entities)
    ensures HasDictFields(Entity(entities, key)) && HasDictFields(Notes(Entity(entities, key)))
  {
    GetIsDict(entities, key);
    GetIsDict(Dict(Get(entities, key)), "entity");
    GetIsDict(Entity(entities, key), "notes");
  }

  ghost predicate PaidAgree(w: World, a: Fields, b: Fields) {
    var la, lb, pa, pb := Entity(a, "payment_link"), Entity(b, "payment_link"), Entity(a, "payment"),
        Entity(b, "payment");
    && w.text(Get(pa, "id")) == w.text(Get(pb, "id"))
    && Agree(LINK, la, lb)
    && Agree(PAYMENT, pa, pb)
    && Agree(CUSTOM, Notes(la), Notes(lb))
    && SameNonce(w, Get(Notes(la), "checkout_nonce"), Get(Notes(lb), "checkout_nonce"))
  }

  lemma PaidSame(w: World, a: Fields, b: Fields)
    requires CollisionFree(w.hash)
    ensures Same(Obj(Record(PaidColumns(w, a))), Obj(Record(PaidColumns(w, b)))) <==> PaidAgree(w, a, b)
  {
    PaymentNames();
    LinkNames();
    var la, lb, pa, pb := Entity(a, "payment_link"), Entity(b, "payment_link"), Entity(a, "payment"),
        Entity(b, "payment");
    CustomSame(w, Notes(la), Notes(lb));
    hide Get, Entity, Block, CustomBlock, Notes, Agree, SameNonce, CollisionFree, Record, Same, DistinctTargets,
      RazorpayColumns, LINK, PAYMENT, CUSTOM;
    BlockSame(LINK, la, lb);
    BlockSame(PAYMENT, pa, pb);
    ScalarsSame("", "", 0, 0);
    RazorpayRecordSame("payment_link.paid", w.text(Get(pa, "id")), Block(LINK, la), Block(PAYMENT, pa), Null,
                       CustomBlock(w, Notes(la)),
                       w.text(Get(pb, "id")), Block(LINK, lb), Block(PAYMENT, pb), Null, CustomBlock(w, Notes(lb)));
  }

  ghost predicate RefundAgree(w: World, a: Fields, b: Fields) {
    var ra, rb, pa, pb := Entity(a, "refund"), Entity(b, "refund"), Entity(a, "payment"), Entity(b, "payment");
    && w.text(RefundedPayment(a)) == w.text(RefundedPayment(b))
    && Agree(REFUND, ra, rb)
    && Agree(PAYMENT, pa, pb)
    && Agree(CUSTOM, Notes(pa), Notes(pb))
    && SameNonce(w, Get(Notes(pa), "checkout_nonce"), Get(Notes(pb), "checkout_nonce"))
  }

  lemma RefundSame(w: World, a: Fields, b: Fields)
    requires CollisionFree(w.hash)
    ensures Same(Obj(Record(RefundedColumns(w, a))), Obj(Record(RefundedColumns(w, b)))) <==> RefundAgree(w, a, b)
  {
    PaymentNames();
    RefundNames();
    var ra, rb, pa, pb := Entity(a, "refund"), Entity(b, "refund"), Entity(a, "payment"), Entity(b, "payment");
    CustomSame(w, Notes(pa), Notes(pb));
    hide Get, Entity, Block, CustomBlock, Notes, Agree, SameNonce, CollisionFree, Record, Same, DistinctTargets,
      RazorpayColumns, RefundedPayment, REFUND, PAYMENT, CUSTOM;
    BlockSame(REFUND, ra, rb);
    BlockSame(PAYMENT, pa, pb);
    ScalarsSame("", "", 0, 0);
    RazorpayRecordSame("refund.processed", w.text(RefundedPayment(a)), Null, Block(PAYMENT, pa), Block(REFUND, ra),
                       CustomBlock(w, Notes(pa)), w.text(RefundedPayment(b)), Null, Block(PAYMENT, pb),
                       Block(REFUND, rb), CustomBlock(w, Notes(pb)));
  }

  /** What a dispute delivery says, beside the payment. */
  datatype Claim = Claim(payment: string, id: string, currency: string, time: int, amount: int, deducted: int)

  function ClaimOf(w: World, entities: Fields, time: int, amount: int, deducted: int): Claim {
    var dispute := Entity(entities, "dispute");
    Claim(w.text(Get(dispute, "payment_id")), w.text(Get(dispute, "id")), w.text(Get(dispute, "currency")), time,
          amount, deducted)
  }

  lemma DisputeSame(w: World, suffix: string, a: Fields, ta: int, ma: int, da: int, b: Fields, tb: int, mb: int,
                    db: int)
    ensures Same(Obj(Record(DisputedColumns(w, a, suffix, ta, ma, da))),
                 Obj(Record(DisputedColumns(w, b, suffix, tb, mb, db))))
            <==> ClaimOf(w, a, ta, ma, da) == ClaimOf(w, b, tb, mb, db)
                 && Agree(PAYMENT, Entity(a, "payment"), Entity(b, "payment"))
  {
    PaymentNames();
    hide PAYMENT, Get, Entity, Block, Agree, Record, Same, AllSame, DistinctTargets, DisputeState, DisputeBlock,
      DisputeRecordColumns;
    var xa, xb, pa, pb, state := Entity(a, "dispute"), Entity(b, "dispute"), Entity(a, "payment"),
        Entity(b, "payment"), DisputeState(suffix);
    BlockSame(PAYMENT, pa, pb);
    DisputeBlockSame(w, state, xa, ma, da, xb, mb, db);
    DisputeRecordSame("payment.dispute." + suffix,
                      w.text(Get(xa, "payment_id")), ta, Block(PAYMENT, pa), DisputeBlock(w, xa, state, ma, da),
                      w.text(Get(xb, "payment_id")), tb, Block(PAYMENT, pb), DisputeBlock(w, xb, state, mb, db));
  }

  // Records of accepted deliveries hold each key once.

  lemma RazorpayRecordIsDict(event: string, id: string, link: Json, payment: Json, refund: Json, notes: Json)
    requires IsDict(link) && IsDict(payment) && IsDict(refund) && IsDict(notes)
    ensures IsDict(Obj(Record(RazorpayColumns(event, id, link, payment, refund, notes))))
  {
    RazorpayRecordSame(event, id, link, payment, refund, notes, id, link, payment, refund, notes);
    hide Record, Same;
    RecordIsDict(RazorpayColumns(event, id, link, payment, refund, notes));
  }

  lemma PaidIsDict(w: World, entities: Fields)
    requires HasDictFields(entities)
    ensures IsDict(Obj(Record(PaidColumns(w, entities)))) && IsDict(Obj(Record(RefundedColumns(w, entities))))
  {
    PaymentNames();
    LinkNames();
    RefundNames();
    EntityIsDict(entities, "payment_link");
    EntityIsDict(entities, "payment");
    EntityIsDict(entities, "refund");
    var link, payment, refund := Entity(entities, "payment_link"), Entity(entities, "payment"),
        Entity(entities, "refund");
    hide Get, Entity, Block, CustomBlock, Notes, Record, DistinctTargets, RazorpayColumns, RefundedPayment,
      REFUND, LINK, PAYMENT;
    BlockIsDict(LINK, link);
    BlockIsDict(PAYMENT, payment);
    BlockIsDict(REFUND, refund);
    CustomIsDict(w, Notes(link));
    CustomIsDict(w, Notes(payment));
    RazorpayRecordIsDict("payment_link.paid", w.text(Get(payment, "id")), Block(LINK, link), Block(PAYMENT, payment),
                         Null,
                         CustomBlock(w, Notes(link)));
    RazorpayRecordIsDict("refund.processed", w.text(RefundedPayment(entities)), Null, Block(PAYMENT, payment),
                         Block(REFUND, refund),
                         CustomBlock(w, Notes(payment)));
  }

  lemma DisputeBlockIsDict(w: World, dispute: Fields, state: string, amount: int, deducted: int)
    ensures IsDict(DisputeBlock(w, dispute, state, amount, deducted))
  {
    DisputeBlockSame(w, state, dispute, amount, deducted, dispute, amount, deducted);
    hide Record, Get, Same;
    RecordIsDict(DisputeColumns(w, dispute, state, amount, deducted));
  }

  lemma DisputeRecordIsDict(event: string, id: string, time: int, payment: Json, dispute: Json)
    requires IsDict(payment) && IsDict(dispute)
    ensures IsDict(Obj(Record(DisputeRecordColumns(event, id, time, payment, dispute))))
  {
    DisputeRecordSame(event, id, time, payment, dispute, id, time, payment, dispute);
    hide Record, Same;
    RecordIsDict(DisputeRecordColumns(event, id, time, payment, dispute));
  }

  lemma DisputeIsDict(w: World, entities: Fields, suffix: string, time: int, amount: int, deducted: int)
    requires HasDictFields(entities)
    ensures IsDict(Obj(Record(DisputedColumns(w, entities, suffix, time, amount, deducted))))
  {
    PaymentNames();
    EntityIsDict(entities, "payment");
    hide Get, Entity, Block, Record, DistinctTargets, DisputeState, PAYMENT, DisputeBlock, DisputeRecordColumns;
    var dispute, payment := Entity(entities, "dispute"), Entity(entities, "payment");
    BlockIsDict(PAYMENT, payment);
    DisputeBlockIsDict(w, dispute, DisputeState(suffix), amount, deducted);
    DisputeRecordIsDict("payment.dispute." + suffix, w.text(Get(dispute, "payment_id")), time, Block(PAYMENT, payment),
                        DisputeBlock(w, dispute, DisputeState(suffix), amount, deducted));
  }

  function IntOf(w: World, j: Json): int {
    var o := w.toInt(j);
    if o.Some? then o.value else 0
  }

  function Claimed(w: World, entities: Fields, createdAt: Json): Claim {
    var dispute := Entity(entities, "dispute");
    var v := Get(dispute, "amount_deducted");
    ClaimOf(w, entities, IntOf(w, createdAt), IntOf(w, Get(dispute, "amount")),
            IntOf(w, if Truthy(v) then v else Num(0)))
  }

  /** The fields of a Razorpay delivery that decide its identity. */
  ghost predicate RazorpayAgree(w: World, a: Fields, b: Fields) {
    var ea, eb, xa, xb := Get(a, "event"), Get(b, "event"), Dict(Get(a, "payload")), Dict(Get(b, "payload"));
    && ea == eb
    && if ea == Str("payment_link.paid") then PaidAgree(w, xa, xb)
       else if ea == Str("refund.processed") then RefundAgree(w, xa, xb)
       else Claimed(w, xa, Get(a, "created_at")) == Claimed(w, xb, Get(b, "created_at"))
            && Agree(PAYMENT, Entity(xa, "payment"), Entity(xb, "payment"))
  }

  /** What acceptance of a Razorpay delivery means. */
  lemma RazorpayAccepted(w: World, body: Json)
    requires Razorpay(w, body).Accepted?
    ensures body.Obj? && Get(body.fields, "event").Str?
    ensures var event, x, r := Get(body.fields, "event").s, Dict(Get(body.fields, "payload")), Razorpay(w, body);
            if event == "payment_link.paid" then
              r == Accepted(w.text(Get(Entity(x, "payment"), "id")), Obj(Record(PaidColumns(w, x))))
            else if event == "refund.processed" then
              r == Accepted(w.text(RefundedPayment(x)), Obj(Record(RefundedColumns(w, x))))
            else
              var c := Claimed(w, x, Get(body.fields, "created_at"));
              && DISPUTE_PREFIX <= event
              && var suffix := event[|DISPUTE_PREFIX|..];
                 r == Accepted(c.payment, Obj(Record(DisputedColumns(w, x, suffix, c.time, c.amount, c.deducted))))
  {
    hide Record, PaidColumns, RefundedColumns, DisputedColumns, RefundedPayment, Entity, Get, DisputeState,
      Notes, PythonEqual, DISPUTE_STATES;
  }

  lemma RazorpayIsDict(w: World, body: Json)
    requires Razorpay(w, body).Accepted? && IsDict(body)
    ensures IsDict(Razorpay(w, body).payload)
  {
    RazorpayAccepted(w, body);
    GetIsDict(body.fields, "payload");
    hide Razorpay, Record, PaidColumns, RefundedColumns, DisputedColumns, RefundedPayment, Entity, Get, Claimed;
    var x := Dict(Get(body.fields, "payload"));
    var c := Claimed(w, x, Get(body.fields, "created_at"));
    PaidIsDict(w, x);
    DisputeIsDict(w, x, Get(body.fields, "event").s[|DISPUTE_PREFIX|..], c.time, c.amount, c.deducted);
  }

  lemma RazorpaySame(w: World, a: Json, b: Json)
    requires CollisionFree(w.hash) && Razorpay(w, a).Accepted? && Razorpay(w, b).Accepted?
    requires Get(a.fields, "event") == Get(b.fields, "event")
    ensures Razorpay(w, a).objectId == Razorpay(w, b).objectId && Same(Razorpay(w, a).payload, Razorpay(w, b).payload)
            <==> RazorpayAgree(w, a.fields, b.fields)
  {
    RazorpayAccepted(w, a);
    RazorpayAccepted(w, b);
    hide Razorpay, Record, PaidColumns, RefundedColumns, DisputedColumns, RefundedPayment, Entity, Get,
      CollisionFree, Same, PAYMENT, LINK, REFUND, CUSTOM, Agree, SameNonce, Notes, IntOf;
    var event, xa, xb := Get(a.fields, "event").s, Dict(Get(a.fields, "payload")), Dict(Get(b.fields, "payload"));
    if event == "payment_link.paid" {
      PaidSame(w, xa, xb);
    } else if event == "refund.processed" {
      RefundSame(w, xa, xb);
    } else {
      var ca, cb := Claimed(w, xa, Get(a.fields, "created_at")), Claimed(w, xb, Get(b.fields, "created_at"));
      DisputeSame(w, event[|DISPUTE_PREFIX|..], xa, ca.time, ca.amount, ca.deducted, xb, cb.time, cb.amount,
                  cb.deducted);
    }
  }

  /** Two accepted Razorpay deliveries share an inbox identity exactly when their allow-listed
      fields agree: the delivery's own event id plays no part. */
  lemma RazorpayIdentity(w: World, a: Json, b: Json)
    requires CollisionFree(w.hash) && IsDict(a) && IsDict(b)
    requires Razorpay(w, a).Accepted? && Razorpay(w, b).Accepted?
    ensures a.Obj? && b.Obj? && Get(a.fields, "event").Str? && Get(b.fields, "event").Str?
    ensures IdentityOf(w, "razorpay", Get(a.fields, "event").s, Razorpay(w, a))
            == IdentityOf(w, "razorpay", Get(b.fields, "event").s, Razorpay(w, b))
            <==> RazorpayAgree(w, a.fields, b.fields)
  {
    RazorpayAccepted(w, a);
    RazorpayAccepted(w, b);
    RazorpayIsDict(w, a);
    RazorpayIsDict(w, b);
    hide Razorpay, Record, PaidColumns, RefundedColumns, DisputedColumns, RefundedPayment, Entity, Get,
      CollisionFree, Same, Agree, PaidAgree, RefundAgree, Claimed, IdentityOf;
    IdentityIsPayload(w, "razorpay", Get(a.fields, "event").s, Razorpay(w, a), Get(b.fields, "event").s,
                      Razorpay(w, b));
    if Get(a.fields, "event") == Get(b.fields, "event") {
      RazorpaySame(w, a, b);
    }
  }

  lemma {:induction false} AppendMeans(fields: Fields, name: string, value: Json)
    requires name !in MeaningFields(fields)
    ensures MeaningFields(Append(fields, name, value)) == MeaningFields(fields)[name := Meaning(value)]
  {
    if fields.Field? {
      AppendMeans(fields.rest, name, value);
    }
  }

  lemma NoEventIdYet(w: World, x: Fields, suffix: string, c: Claim)
    ensures "event_id" !in MeaningFields(Record(PaidColumns(w, x)))
    ensures "event_id" !in MeaningFields(Record(RefundedColumns(w, x)))
    ensures "event_id" !in MeaningFields(Record(DisputedColumns(w, x, suffix, c.time, c.amount, c.deducted)))
  {
    hide Record, Block, CustomBlock, RefundedPayment, Entity, Get, Notes, DisputeBlock, DisputeState;
    RecordHas(PaidColumns(w, x), "event_id");
    RecordHas(RefundedColumns(w, x), "event_id");
    RecordHas(DisputedColumns(w, x, suffix, c.time, c.amount, c.deducted), "event_id");
  }

  lemma PayloadLacksEventId(w: World, body: Json)
    requires Razorpay(w, body).Accepted?
    ensures Razorpay(w, body).payload.Obj? && "event_id" !in MeaningFields(Razorpay(w, body).payload.fields)
  {
    RazorpayAccepted(w, body);
    hide Razorpay, Record, PaidColumns, RefundedColumns, DisputedColumns, RefundedPayment, Entity, Get, Claimed,
      MeaningFields;
    var x := Dict(Get(body.fields, "payload"));
    var c := Claimed(w, x, Get(body.fields, "created_at"));
    NoEventIdYet(w, x, Get(body.fields, "event").s[|DISPUTE_PREFIX|..], c);
  }

  /** The stored payload is the hashed one plus the delivery's event id: that id joins after
      hashing, so a resend under a new event id has the same identity. */
  lemma StoredAddsEventId(w: World, body: Json, eventId: Json)
    requires Razorpay(w, body).Accepted?
    ensures Razorpay(w, body).payload.Obj?
    ensures Meaning(Stored(Razorpay(w, body), eventId))
            == VObj(MeaningFields(Razorpay(w, body).payload.fields)["event_id" := Meaning(eventId)])
  {
    PayloadLacksEventId(w, body);
    hide Razorpay, Append, MeaningFields;
    AppendMeans(Razorpay(w, body).payload.fields, "event_id", eventId);
  }
}
