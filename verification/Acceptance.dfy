/** Which billing webhooks are accepted, and what an accepted one stores: each stated on the
    fields of the delivery, under the names the delivery gives them. */
module Acceptance {
  import opened Options
  import opened CanonicalJson
  import opened Payload

  // ------------------------------------------------------------------ reading

  /** The dict under this name; empty when there is none. */
  function Under(d: Fields, name: string): Fields {
    Dict(Get(d, name))
  }

  /** `payload.<kind>.entity` of a Razorpay delivery. */
  function Of(d: Fields, kind: string): Fields {
    Under(Under(Under(d, "payload"), kind), "entity")
  }

  /** The values Python counts as false. */
  lemma FalsyValues(j: Json)
    ensures !Truthy(j) <==> j in {Null, Bool(false), Num(0), Str(""), Arr(NoItems), Obj(NoFields)}
  {}

  /** Reading a name out of a dict is reading its meaning there. */
  lemma {:induction false} GetMeans(d: Fields, name: string)
    requires HasDictFields(d)
    ensures Meaning(Get(d, name)) == if name in MeaningFields(d) then MeaningFields(d)[name] else VNull
  {
    if d.Field? && d.name != name {
      GetMeans(d.rest, name);
    }
  }

  /** A dict holds a name exactly when it gives it a meaning, be it null. */
  lemma {:induction false} HoldsIs(d: Fields, name: string)
    ensures Holds(d, name) <==> name in MeaningFields(d)
  {
    if d.Field? {
      HoldsIs(d.rest, name);
    }
  }

  /** Python's equality on the scalars an id can be. */
  lemma ScalarEquality(s: string, t: string, n: int, b: bool)
    ensures PythonEqual(Str(s), Str(t)) <==> s == t
    ensures PythonEqual(Num(n), Bool(b)) <==> n == if b then 1 else 0
    ensures !PythonEqual(Str(s), Num(n)) && !PythonEqual(Str(s), Bool(b)) && !PythonEqual(Str(s), Null)
  {}

  // ------------------------------------------------------------------ acceptance

  /** The payment an accepted delivery of this kind is about, when it names it once or twice. */
  predicate AgreedPayment(d: Fields, id: Json) {
    Truthy(id) && (Get(Of(d, "payment"), "id") == Null || PythonEqual(Get(Of(d, "payment"), "id"), id))
  }

  predicate PaidDue(w: World, d: Fields) {
    && Truthy(Get(Of(d, "payment"), "id"))
    && Truthy(Get(Under(Of(d, "payment_link"), "notes"), "checkout_nonce"))
    && Get(Under(Of(d, "payment_link"), "notes"), "environment") == Str(w.environment)
  }

  /** The refund's own payment id, or else the payment's. */
  function RefundOf(d: Fields): Json {
    var named := Get(Of(d, "refund"), "payment_id");
    if Truthy(named) then named else Get(Of(d, "payment"), "id")
  }

  predicate RefundDue(w: World, d: Fields) {
    && Truthy(Get(Of(d, "refund"), "id"))
    && AgreedPayment(d, RefundOf(d))
    && Get(Under(Of(d, "payment"), "notes"), "environment") in {Null, Str(w.environment)}
  }

  /** `int(x)` succeeds with at least `least`. */
  predicate IntFrom(w: World, j: Json, least: int) {
    w.toInt(j).Some? && w.toInt(j).value >= least
  }

  predicate DisputeDue(w: World, d: Fields, status: string) {
    var dispute := Of(d, "dispute");
    var deducted := Get(dispute, "amount_deducted");
    && Truthy(Get(dispute, "id"))
    && AgreedPayment(d, Get(dispute, "payment_id"))
    && IntFrom(w, Get(d, "created_at"), 1)
    && Holds(dispute, "amount") && IntFrom(w, Get(dispute, "amount"), 0)
    && IntFrom(w, if Truthy(deducted) then deducted else Num(0), 0)
    && Get(dispute, "status") == Str(status)
    && Truthy(Get(dispute, "currency"))
  }

  /** The status each dispute event announces; None for any other event. */
  function Announced(event: string): Option<string> {
    if event == "payment.dispute." + "created" then Some("open")
    else if event == "payment.dispute." + "under_review" then Some("under_review")
    else if event == "payment.dispute." + "action_required" then Some("action_required")
    else if event == "payment.dispute." + "lost" then Some("lost")
    else if event == "payment.dispute." + "won" then Some("won")
    else if event == "payment.dispute." + "closed" then Some("closed")
    else None
  }

  lemma AnnouncedIs(event: string)
    ensures Announced(event).Some? <==> DISPUTE_PREFIX <= event && event[|DISPUTE_PREFIX|..] in DISPUTE_STATES
    ensures Announced(event).Some? ==> Announced(event) == Some(DisputeState(event[|DISPUTE_PREFIX|..]))
  {
    if DISPUTE_PREFIX <= event {
      assert event == DISPUTE_PREFIX + event[|DISPUTE_PREFIX|..];
    }
    forall s: string
      ensures event == DISPUTE_PREFIX + s <==> DISPUTE_PREFIX <= event && event[|DISPUTE_PREFIX|..] == s
    {
      SuffixIs(event, DISPUTE_PREFIX, s);
    }
  }

  lemma SuffixIs(event: string, prefix: string, s: string)
    ensures event == prefix + s <==> prefix <= event && event[|prefix|..] == s
  {}

  lemma EntityIsOf(d: Fields, kind: string)
    ensures Entity(Under(d, "payload"), kind) == Of(d, kind)
  {}

  lemma PaidAcceptance(w: World, d: Fields)
    ensures LinkPaid(w, Under(d, "payload")).Accepted? <==> PaidDue(w, d)
  {
    EntityIsOf(d, "payment_link");
    EntityIsOf(d, "payment");
    hide Get, Dict, Truthy, Record, PaidColumns, Entity, Of;
  }

  lemma RefundAcceptance(w: World, d: Fields)
    ensures Refunded(w, Under(d, "payload")).Accepted? <==> RefundDue(w, d)
  {
    EntityIsOf(d, "refund");
    EntityIsOf(d, "payment");
    hide Get, Dict, Truthy, PythonEqual, Record, RefundedColumns, Entity, Of;
  }

  lemma DisputeAcceptance(w: World, d: Fields, suffix: string)
    ensures Disputed(w, Under(d, "payload"), suffix, Get(d, "created_at")).Accepted?
            <==> DisputeDue(w, d, DisputeState(suffix))
  {
    EntityIsOf(d, "dispute");
    EntityIsOf(d, "payment");
    hide Get, Dict, Truthy, PythonEqual, Record, DisputedColumns, Entity, Of, Holds, DisputeState;
  }

  /** A Razorpay delivery is accepted exactly when its event is a payment, a refund or a dispute
      that meets that event's demands, and ignored exactly when its event is none of these. */
  lemma RazorpayAcceptance(w: World, body: Json)
    ensures Razorpay(w, body).Accepted? <==>
              body.Obj? && Get(body.fields, "event").Str?
              && var event, d := Get(body.fields, "event").s, body.fields;
                 || (event == "payment_link.paid" && PaidDue(w, d))
                 || (event == "refund.processed" && RefundDue(w, d))
                 || (Announced(event).Some? && DisputeDue(w, d, Announced(event).value))
    ensures Razorpay(w, body).Ignored? <==>
              body.Obj? && Get(body.fields, "event").Str?
              && var event := Get(body.fields, "event").s;
                 event != "" && event != "payment_link.paid" && event != "refund.processed" && Announced(event).None?
  {
    if body.Obj? && Get(body.fields, "event").Str? {
      var event, d := Get(body.fields, "event").s, body.fields;
      AnnouncedIs(event);
      PaidAcceptance(w, d);
      RefundAcceptance(w, d);
      NeverIgnored(w, Under(d, "payload"), event, Get(d, "created_at"));
      if Announced(event).Some? {
        DisputeAcceptance(w, d, event[|DISPUTE_PREFIX|..]);
        NeverIgnored(w, Under(d, "payload"), event[|DISPUTE_PREFIX|..], Get(d, "created_at"));
      }
    }
    hide Get, Dict, LinkPaid, Refunded, Disputed, PaidDue, RefundDue, DisputeDue, DisputeState, Announced;
  }

  lemma NeverIgnored(w: World, entities: Fields, suffix: string, createdAt: Json)
    ensures !LinkPaid(w, entities).Ignored? && !Refunded(w, entities).Ignored?
    ensures !Disputed(w, entities, suffix, createdAt).Ignored?
  {
    hide Get, Truthy, PythonEqual, Record;
  }

  /** A Lemon Squeezy delivery is accepted exactly when the signed body names the header's event,
      the event is an order's creation or refund, its data is an order with an id, its mode is
      the server's (or unsaid), and a creation carries a nonce. */
  lemma LemonAcceptance(w: World, header: string, body: Json)
    ensures Lemon(w, header, body).Accepted? <==>
              body.Obj?
              && var d := body.fields;
                 var data := Under(d, "data");
                 var mode := Get(Under(data, "attributes"), "test_mode");
                 && Get(Under(d, "meta"), "event_name") == Str(header)
                 && (header == "order_created" || header == "order_refunded")
                 && Get(data, "type") == Str("orders")
                 && (mode == Null || (Truthy(mode) <==> w.testMode))
                 && Truthy(Get(data, "id"))
                 && (header == "order_created" ==>
                       Truthy(Get(Under(Under(d, "meta"), "custom_data"), "checkout_nonce")))
    ensures Lemon(w, header, body).Ignored? <==>
              body.Obj? && Get(Under(body.fields, "meta"), "event_name") == Str(header)
              && header != "" && header != "order_created" && header != "order_refunded"
  {
    hide Get, Dict, Record, LemonColumns;
  }

  // ------------------------------------------------------------------ what is stored

  lemma {:induction false} GetRecord(c: Columns, i: nat)
    requires i < |c| && DistinctNames(c)
    ensures Get(Record(c), c[i].0) == c[i].1
  {
    if i > 0 {
      assert c[1..][i - 1] == c[i];
      GetRecord(c[1..], i - 1);
    }
  }

  lemma PickReads(t: AllowList, d: Fields, i: nat)
    requires i < |t| && DistinctTargets(t)
    ensures Get(Record(Pick(t, d)), t[i].0) == Get(d, t[i].1)
  {
    PickDistinct(t, d);
    hide Get, Record;
    assert Pick(t, d)[i].0 == t[i].0;
    GetRecord(Pick(t, d), i);
  }

  /** These names mean in the stored block what they mean in the delivery. */
  predicate Copies(stored: Fields, from: Fields, names: seq<string>) {
    forall i :: 0 <= i < |names| ==> Get(stored, names[i]) == Get(from, names[i])
  }

  const PAYMENT_NAMES := ["amount", "currency", "status", "method", "amount_refunded", "refund_status", "created_at",
                          "order_id"]
  const LINK_NAMES := ["reference_id", "amount", "currency", "status", "order_id"]
  const CHECKOUT_NAMES := ["user_id", "checkout_ref", "environment", "credits", "price_cents", "currency"]

  /** A stored payment block: the payment's id and eight of its fields. */
  predicate PaymentOf(block: Json, payment: Fields) {
    block.Obj? && Get(block.fields, "payment_id") == Get(payment, "id") && Copies(block.fields, payment, PAYMENT_NAMES)
  }

  predicate LinkOf(block: Json, link: Fields) {
    block.Obj? && Get(block.fields, "payment_link_id") == Get(link, "id") && Copies(block.fields, link, LINK_NAMES)
  }

  predicate RefundBlockOf(block: Json, refund: Fields) {
    block.Obj? && Get(block.fields, "refund_id") == Get(refund, "id")
    && Copies(block.fields, refund, ["payment_id", "amount"])
  }

  /** A stored block of what the checkout set: six fields, and the nonce hashed if there is one. */
  predicate CheckoutOf(w: World, block: Json, notes: Fields) {
    var nonce := Get(notes, "checkout_nonce");
    block.Obj? && Copies(block.fields, notes, CHECKOUT_NAMES)
    && Get(block.fields, "checkout_nonce_hash_from_webhook")
       == if Truthy(nonce) then Str(w.hash(w.text(nonce))) else Null
  }

  lemma PaymentStored(payment: Fields)
    ensures PaymentOf(Block(PAYMENT, payment), payment)
  {
    PaymentNames();
    hide Get, Record;
    forall i | 0 <= i < |PAYMENT|
      ensures Get(Record(Pick(PAYMENT, payment)), PAYMENT[i].0) == Get(payment, PAYMENT[i].1)
    {
      PickReads(PAYMENT, payment, i);
    }
    assert PAYMENT[0] == ("payment_id", "id");
    assert forall i :: 0 <= i < |PAYMENT_NAMES| ==> PAYMENT[i + 1] == (PAYMENT_NAMES[i], PAYMENT_NAMES[i]);
  }

  lemma LinkStored(link: Fields)
    ensures LinkOf(Block(LINK, link), link)
  {
    LinkNames();
    hide Get, Record;
    forall i | 0 <= i < |LINK| ensures Get(Record(Pick(LINK, link)), LINK[i].0) == Get(link, LINK[i].1) {
      PickReads(LINK, link, i);
    }
    assert LINK[0] == ("payment_link_id", "id");
    assert forall i :: 0 <= i < |LINK_NAMES| ==> LINK[i + 1] == (LINK_NAMES[i], LINK_NAMES[i]);
  }

  lemma RefundStored(refund: Fields)
    ensures RefundBlockOf(Block(REFUND, refund), refund)
  {
    RefundNames();
    hide Get, Record;
    PickReads(REFUND, refund, 0);
    PickReads(REFUND, refund, 1);
    PickReads(REFUND, refund, 2);
  }

  lemma CheckoutStored(w: World, notes: Fields)
    ensures CheckoutOf(w, CustomBlock(w, notes), notes)
  {
    CustomNames(w, notes);
    hide Get, Record;
    var c := Pick(CUSTOM, notes) + [("checkout_nonce_hash_from_webhook", NonceHash(w, Get(notes, "checkout_nonce")))];
    forall i | 0 <= i < |CUSTOM| ensures Get(Record(c), CUSTOM[i].0) == Get(notes, CUSTOM[i].1) {
      assert c[i] == Pick(CUSTOM, notes)[i];
      GetRecord(c, i);
    }
    GetRecord(c, |CUSTOM|);
    assert forall i :: 0 <= i < |CHECKOUT_NAMES| ==> CUSTOM[i] == (CHECKOUT_NAMES[i], CHECKOUT_NAMES[i]);
  }

  /** The scalars every Razorpay record begins with. */
  predicate Headed(p: Fields, event: string, id: string) {
    Get(p, "provider") == Str("razorpay") && Get(p, "event_name") == Str(event) && Get(p, "payment_id") == Str(id)
  }

  lemma RazorpayReads(event: string, id: string, link: Json, payment: Json, refund: Json, notes: Json)
    ensures var p := Record(RazorpayColumns(event, id, link, payment, refund, notes));
            && Headed(p, event, id) && Get(p, "payment_link") == link && Get(p, "payment") == payment
            && Get(p, "refund") == refund && Get(p, "notes") == notes
  {
    hide Get, Record;
    var c := RazorpayColumns(event, id, link, payment, refund, notes);
    assert DistinctNames(c);
    GetRecord(c, 0);
    GetRecord(c, 1);
    GetRecord(c, 2);
    GetRecord(c, 3);
    GetRecord(c, 4);
    GetRecord(c, 5);
    GetRecord(c, 6);
  }

  lemma DisputeReads(event: string, id: string, time: int, payment: Json, dispute: Json)
    ensures var p := Record(DisputeRecordColumns(event, id, time, payment, dispute));
            && Headed(p, event, id) && Get(p, "event_created_at") == Num(time) && Get(p, "payment") == payment
            && Get(p, "dispute") == dispute
  {
    hide Get, Record;
    var c := DisputeRecordColumns(event, id, time, payment, dispute);
    assert DistinctNames(c);
    GetRecord(c, 0);
    GetRecord(c, 1);
    GetRecord(c, 2);
    GetRecord(c, 3);
    GetRecord(c, 4);
    GetRecord(c, 5);
  }

  predicate DisputeBlockOf(w: World, block: Fields, dispute: Fields, status: string, amount: int, deducted: int) {
    && Get(block, "dispute_id") == Str(w.text(Get(dispute, "id")))
    && Get(block, "currency") == Str(w.text(Get(dispute, "currency")))
    && Get(block, "amount") == Num(amount) && Get(block, "amount_deducted") == Num(deducted)
    && Get(block, "status") == Str(status)
  }

  lemma DisputeStored(w: World, dispute: Fields, status: string, amount: int, deducted: int)
    ensures DisputeBlock(w, dispute, status, amount, deducted).Obj?
    ensures DisputeBlockOf(w, DisputeBlock(w, dispute, status, amount, deducted).fields, dispute, status, amount,
                           deducted)
  {
    hide Get, Record;
    var c := DisputeColumns(w, dispute, status, amount, deducted);
    assert DistinctNames(c);
    GetRecord(c, 0);
    GetRecord(c, 1);
    GetRecord(c, 2);
    GetRecord(c, 3);
    GetRecord(c, 4);
  }

  /** What an accepted payment stores: it is filed under the payment's id, carries the payment,
      the link and the checkout's notes, bears this server's environment, and has a nonce hash. */
  lemma PaidStores(w: World, body: Json)
    requires Razorpay(w, body).Accepted? && body.Obj? && Get(body.fields, "event") == Str("payment_link.paid")
    ensures var d, r := body.fields, Razorpay(w, body);
            && r.payload.Obj? && r.objectId == w.text(Get(Of(d, "payment"), "id"))
            && var p := r.payload.fields;
               && Headed(p, "payment_link.paid", r.objectId)
               && PaymentOf(Get(p, "payment"), Of(d, "payment"))
               && LinkOf(Get(p, "payment_link"), Of(d, "payment_link"))
               && Get(p, "refund") == Null
               && CheckoutOf(w, Get(p, "notes"), Under(Of(d, "payment_link"), "notes"))
               && Get(Under(p, "notes"), "environment") == Str(w.environment)
               && Get(Under(p, "notes"), "checkout_nonce_hash_from_webhook").Str?
  {
    RazorpayAcceptance(w, body);
    RazorpayAccepted(w, body);
    var x := Under(body.fields, "payload");
    var link, payment := Entity(x, "payment_link"), Entity(x, "payment");
    hide Razorpay, Record, Block, CustomBlock, Entity, RefundedPayment;
    RazorpayReads("payment_link.paid", w.text(Get(payment, "id")), Block(LINK, link), Block(PAYMENT, payment), Null,
                  CustomBlock(w, Notes(link)));
    PaymentStored(payment);
    LinkStored(link);
    CheckoutStored(w, Notes(link));
    EntityIsOf(body.fields, "payment_link");
    EntityIsOf(body.fields, "payment");
    assert CHECKOUT_NAMES[2] == "environment";
    hide Get;
  }

  /** What an accepted refund stores: it is filed under the payment it refunds, carries refund and
      payment, and bears this server's environment or none. */
  lemma RefundStores(w: World, body: Json)
    requires Razorpay(w, body).Accepted? && body.Obj? && Get(body.fields, "event") == Str("refund.processed")
    ensures var d, r := body.fields, Razorpay(w, body);
            && r.payload.Obj? && r.objectId == w.text(RefundOf(d))
            && var p := r.payload.fields;
               && Headed(p, "refund.processed", r.objectId)
               && Get(p, "payment_link") == Null
               && PaymentOf(Get(p, "payment"), Of(d, "payment"))
               && RefundBlockOf(Get(p, "refund"), Of(d, "refund"))
               && CheckoutOf(w, Get(p, "notes"), Under(Of(d, "payment"), "notes"))
               && Get(Under(p, "notes"), "environment") in {Null, Str(w.environment)}
  {
    RazorpayAcceptance(w, body);
    RazorpayAccepted(w, body);
    var x := Under(body.fields, "payload");
    var refund, payment := Entity(x, "refund"), Entity(x, "payment");
    EntityIsOf(body.fields, "refund");
    EntityIsOf(body.fields, "payment");
    assert RefundedPayment(x) == RefundOf(body.fields);
    hide Razorpay, Record, Block, CustomBlock, Entity, RefundedPayment, Of, RefundOf;
    RazorpayReads("refund.processed", w.text(RefundedPayment(x)), Null, Block(PAYMENT, payment), Block(REFUND, refund),
                  CustomBlock(w, Notes(payment)));
    PaymentStored(payment);
    RefundStored(refund);
    CheckoutStored(w, Notes(payment));
    assert CHECKOUT_NAMES[2] == "environment";
    hide Get;
  }

  /** What an accepted dispute stores: it is filed under the disputed payment, carries the payment
      and the claim as whole numbers, and has the status its event announces. */
  lemma DisputeStores(w: World, body: Json)
    requires Razorpay(w, body).Accepted? && body.Obj? && Get(body.fields, "event").Str?
    requires Announced(Get(body.fields, "event").s).Some?
    ensures var d, r, event := body.fields, Razorpay(w, body), Get(body.fields, "event").s;
            var dispute := Of(d, "dispute");
            var deducted := Get(dispute, "amount_deducted");
            && r.payload.Obj? && r.objectId == w.text(Get(dispute, "payment_id"))
            && var p := r.payload.fields;
               && Headed(p, event, r.objectId)
               && w.toInt(Get(d, "created_at")).Some?
               && Get(p, "event_created_at") == Num(w.toInt(Get(d, "created_at")).value)
               && PaymentOf(Get(p, "payment"), Of(d, "payment"))
               && w.toInt(Get(dispute, "amount")).Some?
               && w.toInt(if Truthy(deducted) then deducted else Num(0)).Some?
               && DisputeBlockOf(w, Under(p, "dispute"), dispute, Announced(event).value,
                                 w.toInt(Get(dispute, "amount")).value,
                                 w.toInt(if Truthy(deducted) then deducted else Num(0)).value)
  {
    var d, event := body.fields, Get(body.fields, "event").s;
    AnnouncedIs(event);
    AnnouncedIsOther(event);
    RazorpayAcceptance(w, body);
    RazorpayAccepted(w, body);
    var x, suffix := Under(d, "payload"), event[|DISPUTE_PREFIX|..];
    var c := Claimed(w, x, Get(d, "created_at"));
    EntityIsOf(d, "dispute");
    EntityIsOf(d, "payment");
    hide Razorpay, Record, Block, DisputeBlock, Entity, Of, Announced, DisputeState;
    var dispute, payment := Entity(x, "dispute"), Entity(x, "payment");
    assert event == DISPUTE_PREFIX + suffix;
    DisputeReads(event, w.text(Get(dispute, "payment_id")), c.time, Block(PAYMENT, payment),
                 DisputeBlock(w, dispute, DisputeState(suffix), c.amount, c.deducted));
    PaymentStored(payment);
    DisputeStored(w, dispute, DisputeState(suffix), c.amount, c.deducted);
    hide Get;
  }

  lemma AnnouncedIsOther(event: string)
    requires Announced(event).Some?
    ensures event != "payment_link.paid" && event != "refund.processed"
  {
    assert event[7] == '.';
  }

  /** The attributes an order keeps under their own names, and those it renames. */
  const ORDER_NAMES := ["store_id", "customer_id", "status", "currency", "test_mode", "refunded", "created_at",
                        "updated_at"]

  predicate OrderOf(p: Fields, attributes: Fields) {
    && Copies(p, attributes, ORDER_NAMES)
    && Get(p, "order_subtotal_cents") == Get(attributes, "subtotal")
    && Get(p, "order_total_cents") == Get(attributes, "total")
    && Get(p, "discount_total_cents") == Get(attributes, "discount_total")
    && Get(p, "refunded_amount_cents") == Get(attributes, "refunded_amount")
  }

  predicate ItemOf(p: Fields, item: Fields) {
    && Get(p, "order_item_id") == Get(item, "id") && Get(p, "product_id") == Get(item, "product_id")
    && Get(p, "variant_id") == Get(item, "variant_id") && Get(p, "item_price_cents") == Get(item, "price")
  }

  lemma LemonReads(w: World, event: string, d: Fields)
    ensures var p := Record(LemonColumns(w, event, d));
            && Get(p, "provider") == Str("lemonsqueezy") && Get(p, "event_name") == Str(event)
            && Get(p, "order_id") == Str(w.text(OrderId(d)))
            && Get(p, "custom") == CustomBlock(w, CustomData(d))
            && OrderOf(p, Attributes(d)) && ItemOf(p, FirstItem(d))
  {
    LemonNames(w, event, d);
    hide Get, Record, CustomBlock, OrderId, Attributes, FirstItem, CustomData;
    var c, a, item := LemonColumns(w, event, d), Pick(LEMON_ATTRIBUTES, Attributes(d)), Pick(LEMON_ITEM, FirstItem(d));
    assert c[0] == LemonHead(w, event, d)[0] && c[1] == LemonHead(w, event, d)[1] && c[2] == LemonHead(w, event, d)[2];
    GetRecord(c, 0);
    GetRecord(c, 1);
    GetRecord(c, 2);
    assert c[19] == ("custom", CustomBlock(w, CustomData(d)));
    GetRecord(c, 19);
    forall i | 0 <= i < |LEMON_ATTRIBUTES|
      ensures Get(Record(c), LEMON_ATTRIBUTES[i].0) == Get(Attributes(d), LEMON_ATTRIBUTES[i].1)
    {
      assert c[3 + i] == a[i];
      GetRecord(c, 3 + i);
    }
    forall i | 0 <= i < |LEMON_ITEM| ensures Get(Record(c), LEMON_ITEM[i].0) == Get(FirstItem(d), LEMON_ITEM[i].1) {
      assert c[15 + i] == item[i];
      GetRecord(c, 15 + i);
    }
    OrderReads(Record(c), Attributes(d));
    ItemReads(Record(c), FirstItem(d));
  }

  lemma OrderReads(p: Fields, attributes: Fields)
    requires forall i :: 0 <= i < |LEMON_ATTRIBUTES| ==>
               Get(p, LEMON_ATTRIBUTES[i].0) == Get(attributes, LEMON_ATTRIBUTES[i].1)
    ensures OrderOf(p, attributes)
  {
    hide Get;
    var t, n := LEMON_ATTRIBUTES, ORDER_NAMES;
    assert t[0] == (n[0], n[0]) && t[1] == (n[1], n[1]) && t[2] == (n[2], n[2]) && t[3] == (n[3], n[3]);
    assert t[4] == (n[4], n[4]) && t[8] == (n[5], n[5]) && t[10] == (n[6], n[6]) && t[11] == (n[7], n[7]);
    assert t[5] == ("order_subtotal_cents", "subtotal") && t[6] == ("order_total_cents", "total");
    assert t[7] == ("discount_total_cents", "discount_total") && t[9] == ("refunded_amount_cents", "refunded_amount");
  }

  lemma ItemReads(p: Fields, item: Fields)
    requires forall i :: 0 <= i < |LEMON_ITEM| ==> Get(p, LEMON_ITEM[i].0) == Get(item, LEMON_ITEM[i].1)
    ensures ItemOf(p, item)
  {
    hide Get;
    var t := LEMON_ITEM;
    assert t[0] == ("order_item_id", "id") && t[1] == ("product_id", "product_id");
    assert t[2] == ("variant_id", "variant_id") && t[3] == ("item_price_cents", "price");
  }

  /** What an accepted Lemon Squeezy order stores: it is filed under the order's id and carries the
      order, its first item and what the checkout set; a creation has a nonce hash. */
  lemma LemonStores(w: World, header: string, body: Json)
    requires Lemon(w, header, body).Accepted?
    ensures body.Obj?
    ensures var d, r := body.fields, Lemon(w, header, body);
            var data, custom := Under(d, "data"), Under(Under(d, "meta"), "custom_data");
            && r.payload.Obj? && r.objectId == w.text(Get(data, "id"))
            && var p := r.payload.fields;
               && Get(p, "provider") == Str("lemonsqueezy") && Get(p, "event_name") == Str(header)
               && Get(p, "order_id") == Str(r.objectId)
               && OrderOf(p, Under(data, "attributes"))
               && ItemOf(p, Under(Under(data, "attributes"), "first_order_item"))
               && CheckoutOf(w, Get(p, "custom"), custom)
               && (header == "order_created" ==> Get(Under(p, "custom"), "checkout_nonce_hash_from_webhook").Str?)
  {
    LemonAcceptance(w, header, body);
    LemonAccepted(w, header, body);
    LemonReads(w, header, body.fields);
    CheckoutStored(w, CustomData(body.fields));
    hide Lemon, Get, Record, CustomBlock, LemonColumns, Dict;
  }
}
