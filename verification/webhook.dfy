/**
  The payment webhook (app/api/webhook/route.ts): after the payment gateway's signature
  check, a `checkout.session.completed` event marks the order named in the session's
  metadata as paid and records the customer's shipping address and phone.
*/
module Webhook {
  import opened Wrappers
  import opened Documents
  import opened Sequences
  import opened OrderModel
  import opened Http
  import opened Database
  import opened Dashboard

  /** The only event type the handler acts on. */
  const CompletedEvent := "checkout.session.completed"

  /** What the address parts are joined with. */
  const Separator := ", "

  /**
    One field of the session's address, as JavaScript sees it: `null`, `undefined`
    (the field or the whole address is absent) or a string.
  */
  datatype Part = Null | Absent | Text(text: string)

  datatype ShippingAddress = ShippingAddress(
    line1: Part, line2: Part, city: Part, state: Part, postalCode: Part, country: Part)

  /** `customer_details`: the address (`None` when it is null or absent) and the phone. */
  datatype CustomerDetails = CustomerDetails(address: Option<ShippingAddress>, phone: Part)

  /**
    `session.metadata.orderId` after `new ObjectId(...)`: no metadata object (reading
    `orderId` throws), no `orderId` (a fresh id is generated, which names no order), a
    string that is not an ObjectId (the constructor throws), or a valid id.
  */
  datatype OrderRef = NoMetadata | NoOrderId | Malformed | OrderId(id: Id)

  /** The checkout session carried by the event. */
  datatype Session = Session(customerDetails: Option<CustomerDetails>, orderRef: OrderRef)

  datatype Event = Event(kind: string, session: Session)

  /** The result of the gateway's signature check: the parsed event, or the error it threw. */
  datatype Verification = Verified(event: Event) | Rejected(message: string)

  /** line1, line2, city, state, postal code, country, in that order; all `undefined` without an address. */
  function AddressParts(s: Session): (parts: seq<Part>)
    ensures |parts| == 6
  {
    match s.customerDetails
    case Some(CustomerDetails(Some(a), _)) =>
      [a.line1, a.line2, a.city, a.state, a.postalCode, a.country]
    case _ => [Absent, Absent, Absent, Absent, Absent, Absent]
  }

  /** How `Array.prototype.join` writes an element: `undefined` and `null` as the empty string. */
  function Render(p: Part): string
  {
    match p
    case Text(t) => t
    case _ => ""
  }

  function RenderAll(ps: seq<Part>): (r: seq<string>)
    ensures |r| == |ps| && forall i :: 0 <= i < |ps| ==> r[i] == Render(ps[i])
  {
    seq(|ps|, i requires 0 <= i < |ps| => Render(ps[i]))
  }

  /** `Array.prototype.join(sep)`. */
  function Join(xs: seq<string>, sep: string): string
    decreases |xs|
  {
    if |xs| == 0 then ""
    else if |xs| == 1 then xs[0]
    else xs[0] + sep + Join(xs[1..], sep)
  }

  /** The one-line address: the parts that are not `null`, joined by ", ". */
  function AddressString(s: Session): string
  {
    Join(RenderAll(Without(AddressParts(s), Null)), Separator)
  }

  /** `customer_details?.phone || ""`. */
  function PhoneOf(s: Session): string
  {
    match s.customerDetails
    case Some(CustomerDetails(_, Text(t))) => t
    case _ => ""
  }

  /** The update `{ isPaid: true, address, phone }`. */
  function MarkPaid(o: Order, address: string, phone: string): Order
  {
    o.(isPaid := true, address := address, phone := phone)
  }

  /** The event passed the signature check and reports a completed checkout. */
  predicate Completes(v: Verification)
  {
    v.Verified? && v.event.kind == CompletedEvent
  }

  /** The order the completed event names, when it names one the collection holds. */
  predicate Targets(db: Db, v: Verification)
  {
    Completes(v) && v.event.session.orderRef.OrderId? && Holds(db.orders, v.event.session.orderRef.id)
  }

  /** The webhook's `POST` handler. */
  function Handle(db: Db, v: Verification): (r: Served<()>)
    ensures r.db.(orders := db.orders) == db
    ensures v.Rejected? ==> r == Served(db, Plain(400, "Webhook Error: " + v.message))
    ensures v.Verified? && !Completes(v) ==> r == Served(db, Plain(200, ""))
    ensures Completes(v) && v.event.session.orderRef in {NoMetadata, Malformed} ==> r == Served(db, Unhandled)
    ensures Completes(v) && !Targets(db, v) && v.event.session.orderRef !in {NoMetadata, Malformed} ==>
      r == Served(db, NoResponse)
    ensures Targets(db, v) ==>
      var s := v.event.session;
      var i := IndexOf(db.orders, s.orderRef.id).value;
      && r.response == Plain(200, "")
      && SameExcept(r.db.orders, db.orders, i)
      && r.db.orders[i].id == db.orders[i].id
      && r.db.orders[i].data.isPaid
      && r.db.orders[i].data.address == AddressString(s)
      && r.db.orders[i].data.phone == PhoneOf(s)
      && r.db.orders[i].data.storeId == db.orders[i].data.storeId
      && r.db.orders[i].data.orderItems == db.orders[i].data.orderItems
      && r.db.orders[i].data.createdMonth == db.orders[i].data.createdMonth
  {
    match v
    case Rejected(message) => Served(db, Plain(400, "Webhook Error: " + message))
    case Verified(event) =>
      if event.kind != CompletedEvent then Served(db, Plain(200, ""))
      else
        var s := event.session;
        match s.orderRef
        case NoMetadata => Served(db, Unhandled)
        case Malformed => Served(db, Unhandled)
        case NoOrderId => Served(db, NoResponse)
        case OrderId(id) =>
          match IndexOf(db.orders, id)
          case None => Served(db, NoResponse)
          case Some(i) =>
            var paid := Doc(id, MarkPaid(db.orders[i].data, AddressString(s), PhoneOf(s)));
            Served(db.(orders := db.orders[i := paid]), Plain(200, ""))
  }

  /** Delivering the same event twice leaves the same state and response as delivering it once. */
  lemma HandleIdempotent(db: Db, v: Verification)
    ensures Handle(Handle(db, v).db, v) == Handle(db, v)
  {
    var r := Handle(db, v);
    if Completes(v) && v.event.session.orderRef.OrderId? {
      SameIdsIndexOf(db.orders, r.db.orders, v.event.session.orderRef.id);
    }
  }

  /** The webhook keeps the store well formed. */
  lemma HandlePreservesWf(db: Db, v: Verification)
    requires Wf(db)
    ensures Wf(Handle(db, v).db)
  {
    var r := Handle(db, v);
    assert SameIds(db.orders, r.db.orders);
    SameIdsWellFormed(db.orders, r.db.orders, db.nextId, db.nextId);
  }

  /**
    Paying an unpaid order makes it visible to the dashboard: its store's sales count
    grows by one and its revenue by the order's item total.
  */
  lemma PaymentReachesDashboard(db: Db, v: Verification, price: Id -> int)
    requires Targets(db, v)
    requires !FindById(db.orders, v.event.session.orderRef.id).value.data.isPaid
    ensures var o := FindById(db.orders, v.event.session.orderRef.id).value.data;
      && GetSalesCount(Handle(db, v).db.orders, o.storeId) == GetSalesCount(db.orders, o.storeId) + 1
      && Revenue(Handle(db, v).db.orders, o.storeId, price) ==
         Revenue(db.orders, o.storeId, price) + ItemsTotal(o.orderItems, price)
  {
    var i := IndexOf(db.orders, v.event.session.orderRef.id).value;
    var after := Handle(db, v).db.orders;
    var storeId := db.orders[i].data.storeId;
    assert after == db.orders[i := after[i]];
    CountReplaceUp(db.orders, i, after[i], PaidIn(storeId));
    SumReplace(db.orders, i, after[i], Contribution(storeId, price));
  }

  // ---------------------------------------------------------------------------
  // Reading the address back: splitting the joined string at ", " recovers the
  // parts that were kept, in order, as long as no part contains a comma.
  // ---------------------------------------------------------------------------

  /** The position of the first ", " in `s`. */
  function FirstSeparator(s: string): (r: Option<nat>)
    ensures r.Some? ==> r.value + 1 < |s| && s[r.value] == ',' && s[r.value + 1] == ' '
    ensures r.Some? ==> forall k :: 0 <= k < r.value ==> !(s[k] == ',' && s[k + 1] == ' ')
    ensures r.None? ==> forall k :: 0 <= k && k + 1 < |s| ==> !(s[k] == ',' && s[k + 1] == ' ')
    decreases |s|
  {
    if |s| < 2 then None
    else if s[0] == ',' && s[1] == ' ' then Some(0)
    else
      match FirstSeparator(s[1..])
      case None => None
      case Some(k) => Some(k + 1)
  }

  /** `s.split(", ")`. */
  function Split(s: string): seq<string>
    decreases |s|
  {
    match FirstSeparator(s)
    case None => [s]
    case Some(i) => [s[..i]] + Split(s[i + 2..])
  }

  /** Joining comma-free strings by ", " and splitting the result gives them back. */
  lemma {:induction false} SplitJoin(xs: seq<string>)
    requires |xs| > 0
    requires forall i :: 0 <= i < |xs| ==> ',' !in xs[i]
    ensures Split(Join(xs, Separator)) == xs
    decreases |xs|
  {
    var x := xs[0];
    if |xs| == 1 {
      assert forall k :: 0 <= k < |x| ==> x[k] != ',';
      assert FirstSeparator(x).None?;
    } else {
      var rest := Join(xs[1..], Separator);
      var s := x + Separator + rest;
      assert Join(xs, Separator) == s;
      SeparatorAfterFirst(x, rest);
      assert s[..|x|] == x;
      assert s[|x| + 2..] == rest;
      SplitJoin(xs[1..]);
    }
  }

  /** After a comma-free first piece, the first ", " is the one that follows it. */
  lemma SeparatorAfterFirst(x: string, rest: string)
    requires ',' !in x
    ensures FirstSeparator(x + Separator + rest) == Some(|x|)
  {
    var s := x + Separator + rest;
    assert forall k :: 0 <= k < |x| ==> s[k] == x[k] && x[k] != ',';
    assert s[|x|] == ',' && s[|x| + 1] == ' ';
  }

  /** No part of the session's address contains a comma. */
  predicate CommaFree(s: Session)
  {
    forall i :: 0 <= i < 6 ==> ',' !in Render(AddressParts(s)[i])
  }

  /**
    The address string lists exactly the parts that are not `null`, in their order,
    each as its text, an absent part as an empty slot.
  */
  lemma AddressRoundTrip(s: Session)
    requires CommaFree(s)
    requires Without(AddressParts(s), Null) != []
    ensures Split(AddressString(s)) == RenderAll(Without(AddressParts(s), Null))
  {
    var parts := AddressParts(s);
    var kept := Without(parts, Null);
    var rendered := RenderAll(kept);
    forall i | 0 <= i < |rendered|
      ensures ',' !in rendered[i]
    {
      WithoutSubset(parts, Null, kept[i]);
      var j :| 0 <= j < 6 && parts[j] == kept[i];
    }
    SplitJoin(rendered);
  }

  /** With no `null` part, the address names line1, line2, city, state, postal code and country in that order. */
  lemma AddressInOrder(s: Session, a: ShippingAddress)
    requires s.customerDetails.Some? && s.customerDetails.value.address == Some(a)
    requires CommaFree(s)
    requires Null !in [a.line1, a.line2, a.city, a.state, a.postalCode, a.country]
    ensures Split(AddressString(s)) ==
      [Render(a.line1), Render(a.line2), Render(a.city), Render(a.state), Render(a.postalCode), Render(a.country)]
  {
    WithoutAbsent(AddressParts(s), Null);
    AddressRoundTrip(s);
  }

  /** A `null` part is skipped: with only line2 `null`, the address has five entries, line2's left out. */
  lemma NullPartSkipped(s: Session, a: ShippingAddress)
    requires s.customerDetails.Some? && s.customerDetails.value.address == Some(a)
    requires CommaFree(s)
    requires a.line2 == Null && Null !in [a.line1, a.city, a.state, a.postalCode, a.country]
    ensures Split(AddressString(s)) ==
      [Render(a.line1), Render(a.city), Render(a.state), Render(a.postalCode), Render(a.country)]
  {
    DropSecond(a.line1, a.line2, [a.city, a.state, a.postalCode, a.country]);
    assert AddressParts(s) == [a.line1, a.line2] + [a.city, a.state, a.postalCode, a.country];
    AddressRoundTrip(s);
  }

  /** Filtering `null` out of a list whose only `null` is its second element drops just that one. */
  lemma DropSecond(first: Part, second: Part, rest: seq<Part>)
    requires first != Null && second == Null && Null !in rest
    ensures Without([first, second] + rest, Null) == [first] + rest
  {
    assert [first, second] + rest == [first] + ([second] + rest);
    WithoutAppend([first], [second] + rest, Null);
    WithoutAppend([second], rest, Null);
    WithoutAbsent([first], Null);
    WithoutAbsent(rest, Null);
  }

  /** Without any address every part is `undefined`, not `null`: six empty slots, five separators. */
  lemma MissingAddressGivesEmptySlots(s: Session)
    requires s.customerDetails.None?
    ensures AddressString(s) == ", , , , , "
  {
    WithoutAbsent(AddressParts(s), Null);
    var empty := ["", "", "", "", "", ""];
    assert RenderAll(AddressParts(s)) == empty;
    assert Join(empty[4..], Separator) == ", ";
    assert Join(empty[3..], Separator) == ", , ";
    assert Join(empty[2..], Separator) == ", , , ";
    assert Join(empty[1..], Separator) == ", , , , ";
  }
}
