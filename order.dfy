/**
 * The order table: reads newest first, placing an order (its total is a
 * fold over the lines), and the payment-event handler, which reads an
 * order id out of the payment description and marks that order paid.
 */
module Orders {
  import opened Common
  import opened Text
  import opened Query
  import opened Store

  /** The body of a new order: an optional status and the lines. */
  datatype OrderDto = OrderDto(status: Option<OrderStatus>, items: seq<OrderItem>)

  /** A payment notification: the event name and the payment's description text. */
  datatype PaymentEvent = PaymentEvent(event: string, description: string)

  /** What the handler answers: a message, or `true`. */
  datatype Reply = Message(text: string) | Flag(value: bool)

  const WaitingForCapture := "payment.waiting_for_capture"
  const Succeeded := "payment.succeeded"
  const NotImplemented := "payment is not implemented yet"
  const Success := "Success"

  // ---------------------------------------------------------------------
  // Totals

  function LineTotal(item: OrderItem): int {
    item.quantity * item.price
  }

  /** Runs through the lines from first to last, adding each line's quantity times price to `acc`. */
  function FoldTotal(acc: int, items: seq<OrderItem>): int
    decreases |items|
  {
    if items == [] then acc else FoldTotal(acc + LineTotal(items[0]), items[1..])
  }

  /** The order total, folded from 0. */
  function Total(items: seq<OrderItem>): int {
    FoldTotal(0, items)
  }

  /** The sum of quantity times price over the lines, as a reference. */
  function Sum(items: seq<OrderItem>): int
    decreases |items|
  {
    if items == [] then 0 else Sum(items[..|items| - 1]) + LineTotal(items[|items| - 1])
  }

  lemma {:induction false} SumAppend(a: seq<OrderItem>, b: seq<OrderItem>)
    ensures Sum(a + b) == Sum(a) + Sum(b)
    decreases |b|
  {
    if b == [] {
      assert a + b == a;
    } else {
      var b' := b[..|b| - 1];
      SumAppend(a, b');
      assert (a + b)[..|a + b| - 1] == a + b';
      assert (a + b)[|a + b| - 1] == b[|b| - 1];
    }
  }

  /** Folding from `acc` adds the sum of the lines to `acc`. */
  lemma {:induction false} FoldIsSum(acc: int, items: seq<OrderItem>)
    ensures FoldTotal(acc, items) == acc + Sum(items)
    decreases |items|
  {
    if items != [] {
      FoldIsSum(acc + LineTotal(items[0]), items[1..]);
      SumAppend([items[0]], items[1..]);
      assert [items[0]] + items[1..] == items;
      assert Sum([items[0]]) == LineTotal(items[0]) by {
        assert [items[0]][..0] == [];
      }
    }
  }

  /** The total is the sum of the lines; no lines give 0. */
  lemma TotalIsSum(items: seq<OrderItem>)
    ensures Total(items) == Sum(items)
    ensures items == [] ==> Total(items) == 0
  {
    FoldIsSum(0, items);
  }

  /** The total of two lists of lines together is the sum of their totals. */
  lemma TotalAppend(a: seq<OrderItem>, b: seq<OrderItem>)
    ensures Total(a + b) == Total(a) + Total(b)
  {
    TotalIsSum(a);
    TotalIsSum(b);
    TotalIsSum(a + b);
    SumAppend(a, b);
  }

  /** Lines with no negative quantity or price give no negative total. */
  lemma {:induction false} TotalNonNegative(items: seq<OrderItem>)
    requires forall k :: 0 <= k < |items| ==> items[k].quantity >= 0 && items[k].price >= 0
    ensures Total(items) >= 0
  {
    FoldIsSum(0, items);
    SumNonNegative(items);
  }

  lemma {:induction false} SumNonNegative(items: seq<OrderItem>)
    requires forall k :: 0 <= k < |items| ==> items[k].quantity >= 0 && items[k].price >= 0
    ensures Sum(items) >= 0
    decreases |items|
  {
    if items != [] {
      var init := items[..|items| - 1];
      forall k | 0 <= k < |init| ensures init[k].quantity >= 0 && init[k].price >= 0 {
        assert init[k] == items[k];
      }
      SumNonNegative(init);
      var last := items[|items| - 1];
      assert last.quantity * last.price >= 0;
    }
  }

  // ---------------------------------------------------------------------
  // The payment event

  /**
   * The order id a payment description names: the text between the first
   * `#` and the next `#` (or the end) read as a number. NaN when there is
   * no `#`, since that piece is then undefined, or when the piece is not a
   * numeral.
   */
  function OrderIdOf(description: string): (r: JsNumber)
    ensures r.Some? ==> '#' in description && r.value >= 0
  {
    SplitHasSecond(description, '#');
    match SplitAt(description, '#', 1)
    case None => None
    case Some(piece) => ToNumber(piece)
  }

  /** A description without `#` names no order. */
  lemma OrderIdOfNoHash(description: string)
    requires '#' !in description
    ensures OrderIdOf(description) == None
  {
    SplitHasSecond(description, '#');
  }

  /** A description written as `<text>#<id>`, possibly followed by `#...`, names order `id`. */
  lemma OrderIdOfNumbered(text: string, id: nat, rest: string)
    requires '#' !in text
    requires rest == [] || rest[0] == '#'
    ensures OrderIdOf(text + "#" + Decimal(id) + rest) == Some(id)
  {
    var digits := Decimal(id);
    assert forall k :: 0 <= k < |digits| ==> digits[k] != '#';
    SecondPiece(text, digits, rest, '#');
    DecimalRoundTrip(id);
  }

  /** A description whose piece after the first `#` is not a numeral names no order. */
  lemma OrderIdOfNonNumeral(text: string, piece: string, rest: string)
    requires '#' !in text && '#' !in piece
    requires rest == [] || rest[0] == '#'
    requires !AllDigits(piece)
    ensures OrderIdOf(text + "#" + piece + rest) == None
  {
    SecondPiece(text, piece, rest, '#');
  }

  /** The table after the order with `id` is marked paid: only that row's status changes. */
  function MarkPayed(orders: seq<Order>, id: int): (r: seq<Order>)
    ensures |r| == |orders|
    ensures forall i :: 0 <= i < |orders| ==>
      r[i] == if orders[i].id == id then orders[i].(status := Payed) else orders[i]
  {
    UpdateWhere(orders, (o: Order) => o.id == id, (o: Order) => o.(status := Payed))
  }

  /** Some order has `id`. */
  predicate HasOrder(orders: seq<Order>, id: int) {
    FindFirst(orders, (o: Order) => o.id == id).Some?
  }

  lemma HasOrderIff(orders: seq<Order>, id: int)
    ensures HasOrder(orders, id) <==> exists o :: o in orders && o.id == id
  {
    if !HasOrder(orders, id) {
      forall o | o in orders ensures o.id != id {
        assert ((o: Order) => o.id == id)(o) == false;
      }
    }
  }

  /**
   * The handler's answer to an event: the placeholder for a payment
   * awaiting capture; for a succeeded payment `true`, or Malformed when the
   * description names no number and NotFound when no order has it (the
   * store's update throws); `Success` for any other event.
   */
  function Outcome(orders: seq<Order>, e: PaymentEvent): (r: Result<Reply>)
    ensures r.Err? ==> e.event == Succeeded && r.error in {Malformed, NotFound}
    ensures r == Ok(Flag(true)) ==> e.event == Succeeded && OrderIdOf(e.description).Some?
  {
    if e.event == WaitingForCapture then Ok(Message(NotImplemented))
    else if e.event == Succeeded then
      match OrderIdOf(e.description)
      case None => Err(Malformed)
      case Some(id) => if HasOrder(orders, id) then Ok(Flag(true)) else Err(NotFound)
    else Ok(Message(Success))
  }

  /** The order table after the handler: the named order paid when the update succeeds, else as it was. */
  function AfterEvent(orders: seq<Order>, e: PaymentEvent): (r: seq<Order>)
    ensures |r| == |orders|
    ensures e.event != Succeeded ==> r == orders
  {
    if Outcome(orders, e) == Ok(Flag(true)) then MarkPayed(orders, OrderIdOf(e.description).value)
    else orders
  }

  /** An order marked paid is found again under the same id. */
  lemma HasOrderAfterMark(orders: seq<Order>, id: int, target: int)
    ensures HasOrder(MarkPayed(orders, id), target) <==> HasOrder(orders, target)
  {
    var r := MarkPayed(orders, id);
    HasOrderIff(orders, target);
    HasOrderIff(r, target);
    if HasOrder(orders, target) {
      var o :| o in orders && o.id == target;
      var i :| 0 <= i < |orders| && orders[i] == o;
      assert r[i] in r && r[i].id == target;
    }
    if HasOrder(r, target) {
      var o :| o in r && o.id == target;
      var i :| 0 <= i < |r| && r[i] == o;
      assert orders[i] in orders && orders[i].id == target;
    }
  }

  /** Delivering the same event twice leaves the table as delivering it once. */
  lemma AfterEventIdempotent(orders: seq<Order>, e: PaymentEvent)
    ensures AfterEvent(AfterEvent(orders, e), e) == AfterEvent(orders, e)
    ensures Outcome(AfterEvent(orders, e), e) == Outcome(orders, e)
  {
    if Outcome(orders, e) == Ok(Flag(true)) {
      var id := OrderIdOf(e.description).value;
      var once := MarkPayed(orders, id);
      HasOrderAfterMark(orders, id, id);
      var twice := MarkPayed(once, id);
      assert |twice| == |once|;
      forall i | 0 <= i < |once| ensures twice[i] == once[i] {
      }
    }
  }

  /**
   * The event changes nothing but the status of the named order, which
   * becomes PAYED whatever it was before; ids, owners, lines, totals and
   * dates all stay.
   */
  lemma AfterEventChangesOnlyTarget(orders: seq<Order>, e: PaymentEvent)
    ensures var r := AfterEvent(orders, e);
      && |r| == |orders|
      && (forall i :: 0 <= i < |orders| ==>
            r[i] == orders[i].(status := r[i].status))
      && (forall i :: 0 <= i < |orders| && r[i].status != orders[i].status ==>
            Outcome(orders, e) == Ok(Flag(true)) && OrderIdOf(e.description) == Some(orders[i].id))
      && (Outcome(orders, e) == Ok(Flag(true)) ==>
            forall i :: 0 <= i < |orders| && Some(orders[i].id) == OrderIdOf(e.description) ==>
              r[i].status == Payed)
  {
  }

  /** Only a succeeded payment naming an existing order changes the table; everything else leaves it. */
  lemma AfterEventUnchanged(orders: seq<Order>, e: PaymentEvent)
    ensures Outcome(orders, e).Err? ==> AfterEvent(orders, e) == orders
    ensures e.event != Succeeded ==> AfterEvent(orders, e) == orders && Outcome(orders, e).Ok?
    ensures e.event == WaitingForCapture ==> Outcome(orders, e) == Ok(Message(NotImplemented))
    ensures e.event != WaitingForCapture && e.event != Succeeded ==> Outcome(orders, e) == Ok(Message(Success))
  {
  }

  /** A succeeded payment fails exactly when its description names no number or no existing order. */
  lemma SucceededFailsIff(orders: seq<Order>, e: PaymentEvent)
    requires e.event == Succeeded
    ensures Outcome(orders, e).Err? <==>
      OrderIdOf(e.description).None? ||
      forall o :: o in orders ==> Some(o.id) != OrderIdOf(e.description)
    ensures Outcome(orders, e) == Err(Malformed) <==> OrderIdOf(e.description).None?
  {
    if OrderIdOf(e.description).Some? {
      HasOrderIff(orders, OrderIdOf(e.description).value);
    }
  }

  function CreatedAt(o: Order): int {
    o.createdAt
  }

  // ---------------------------------------------------------------------
  // The service

  class OrderService {
    const db: Database

    constructor (db: Database)
      ensures this.db == db
    {
      this.db := db;
    }

    /** Every order, newest first; an empty table is an empty answer. */
    method GetAll() returns (r: seq<Order>)
      ensures multiset(r) == multiset(db.orders)
      ensures SortedBy(r, CreatedAt, Desc)
    {
      r := SortBy(db.orders, CreatedAt, Desc);
    }

    /** Exactly the orders of `userId`, newest first; possibly none. */
    method GetByUserId(userId: int) returns (r: seq<Order>)
      ensures forall o :: o in r <==> o in db.orders && o.userId == userId
      ensures multiset(r) == multiset(Where(db.orders, (o: Order) => o.userId == userId))
      ensures SortedBy(r, CreatedAt, Desc)
    {
      var mine := Where(db.orders, (o: Order) => o.userId == userId);
      r := SortBy(mine, CreatedAt, Desc);
      assert forall o :: o in r <==> o in multiset(r);
      assert forall o :: o in mine <==> o in multiset(mine);
    }

    /**
     * Inserts an order of `userId` under the next id, with the request's
     * lines and status (PENDING when it gives none) and the folded total,
     * and returns it; the orders already there stay as they were.
     */
    method PlaceOrder(dto: OrderDto, userId: nat, now: int) returns (r: Order)
      requires db.Valid()
      modifies db
      ensures db.Valid()
      ensures r.id == old(db.nextOrderId) && forall o :: o in old(db.orders) ==> o.id != r.id
      ensures r.userId == userId && r.items == dto.items && r.total == Total(dto.items) && r.createdAt == now
      ensures r.status == (if dto.status.Some? then dto.status.value else Pending)
      ensures db.orders == old(db.orders) + [r]
      ensures db.nextOrderId == old(db.nextOrderId) + 1
      ensures db.categories == old(db.categories) && db.nextCategoryId == old(db.nextCategoryId)
      ensures db.products == old(db.products) && db.nextProductId == old(db.nextProductId)
    {
      var total := Total(dto.items);
      var status := if dto.status.Some? then dto.status.value else Pending;
      var order := Order(db.nextOrderId, userId, status, dto.items, total, now);
      forall o | o in db.orders ensures o.id != order.id {
        var i :| 0 <= i < |db.orders| && db.orders[i] == o;
        assert OrderKey(db.orders[i]) < db.nextOrderId;
      }
      AppendKeyed(db.orders, OrderKey, db.nextOrderId, order);
      db.orders := db.orders + [order];
      db.nextOrderId := db.nextOrderId + 1;
      r := order;
    }

    /**
     * Handles a payment notification. Only `payment.succeeded` touches the
     * table: it sets the status of the order named in the description to
     * PAYED.
     */
    method UpdateStatus(dto: PaymentEvent) returns (r: Result<Reply>)
      requires db.Valid()
      modifies db
      ensures db.Valid()
      ensures r == Outcome(old(db.orders), dto)
      ensures db.orders == AfterEvent(old(db.orders), dto)
      ensures db.nextOrderId == old(db.nextOrderId)
      ensures db.categories == old(db.categories) && db.nextCategoryId == old(db.nextCategoryId)
      ensures db.products == old(db.products) && db.nextProductId == old(db.nextProductId)
    {
      if dto.event == WaitingForCapture {
        r := Ok(Message(NotImplemented));
        return;
      }
      if dto.event == Succeeded {
        var orderId := OrderIdOf(dto.description);
        if orderId.None? {
          r := Err(Malformed);
          return;
        }
        var target := FindFirst(db.orders, (o: Order) => o.id == orderId.value);
        if target.None? {
          r := Err(NotFound);
          return;
        }
        var os := db.orders;
        var updated := MarkPayed(os, orderId.value);
        assert Keyed(updated, OrderKey, db.nextOrderId) by {
          forall i | 0 <= i < |updated| ensures OrderKey(updated[i]) == OrderKey(os[i]) {
          }
        }
        db.orders := updated;
        r := Ok(Flag(true));
        return;
      }
      r := Ok(Message(Success));
    }
  }
}
