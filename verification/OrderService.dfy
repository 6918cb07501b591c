/** The order service: the order's state machine, its store, `UpdateOrderStatus` retrying
    under interference from every other writer, and the outbox worker's `processBatch`. */
module OrderService {
  import opened Common
  import opened Reservation
  import Outbox

  datatype Status = Created | AwaitingStock | Confirmed | Cancelled | Completed

  /** The declared transitions. */
  function AllowedTransitions(s: Status): set<Status> {
    match s
    case Created => {AwaitingStock}
    case AwaitingStock => {Confirmed, Cancelled}
    case Confirmed => {Completed}
    case Cancelled => {}
    case Completed => {}
  }

  /** A row of the orders table (with its order_items). */
  datatype OrderRow = OrderRow(status: Status, version: int, items: seq<Item>)

  datatype Event =
    | OrderCreated(order: OrderId, items: seq<Item>)
    | OrderConfirmed(order: OrderId)
    | OrderCancelled(order: OrderId, reason: Error)

  datatype Tables = Tables(orders: map<OrderId, OrderRow>, outbox: seq<Outbox.Row<Event>>)

  // ---------------------------------------------------------------------------
  // Transactions
  // ---------------------------------------------------------------------------

  /** INSERT INTO orders, order_items and outbox. */
  function SaveTx(t: Tables, id: OrderId, items: seq<Item>, now: int): Tables {
    Tables(t.orders[id := OrderRow(Created, 1, items)], t.outbox + [Outbox.Row(OrderCreated(id, items), now, false)])
  }

  /** UPDATE orders ... WHERE id AND version, then INSERT INTO outbox. */
  function StatusTx(t: Tables, id: OrderId, status: Status, e: Event, now: int): Tables
    requires id in t.orders
  {
    Tables(t.orders[id := t.orders[id].(status := status, version := t.orders[id].version + 1)],
           t.outbox + [Outbox.Row(e, now, false)])
  }

  function AwaitRow(row: OrderRow): OrderRow {
    row.(status := AwaitingStock, version := row.version + 1)
  }

  /** UPDATE orders SET status = AWAITING_STOCK ... WHERE id AND status = CREATED, in a
      transaction that sees `changed`, its own writes so far, over the committed rows. */
  function AwaitWrite(orders: map<OrderId, OrderRow>, changed: map<OrderId, OrderRow>, id: OrderId)
      : map<OrderId, OrderRow> {
    var seen := orders + changed;
    if id in seen && seen[id].status == Created then changed[id := AwaitRow(seen[id])] else changed
  }

  /** Some published row of the batch is the order's creation. */
  predicate Announces(rows: seq<Outbox.Row<Event>>, ids: seq<nat>, id: OrderId) {
    exists k :: 0 <= k < |ids| && ids[k] < |rows| && rows[ids[k]].msg.OrderCreated? && rows[ids[k]].msg.order == id
  }

  /** The orders table once a batch has committed. */
  function Awaited(orders: map<OrderId, OrderRow>, rows: seq<Outbox.Row<Event>>, ids: seq<nat>)
      : map<OrderId, OrderRow> {
    map id | id in orders ::
      if Announces(rows, ids, id) && orders[id].status == Created
      then AwaitRow(orders[id])
      else orders[id]
  }

  lemma AwaitedMeans(orders: map<OrderId, OrderRow>, rows: seq<Outbox.Row<Event>>, ids: seq<nat>)
    requires forall k | 0 <= k < |ids| :: ids[k] < |rows|
    ensures Awaited(orders, rows, ids).Keys == orders.Keys
    ensures forall id | id in orders ::
              Awaited(orders, rows, ids)[id] ==
              if orders[id].status == Created
                 && exists k :: 0 <= k < |ids| && rows[ids[k]].msg.OrderCreated? && rows[ids[k]].msg.order == id
              then OrderRow(AwaitingStock, orders[id].version + 1, orders[id].items) else orders[id]
  {
  }

  /** The event a status change announces, if it has one. */
  function StatusEvent(id: OrderId, status: Status, reason: Error): Option<Event> {
    match status
    case Confirmed => Some(OrderConfirmed(id))
    case Cancelled => Some(OrderCancelled(id, reason))
    case _ => None
  }

  // ---------------------------------------------------------------------------
  // What holds of every committed row, and what other writers may do to it
  // ---------------------------------------------------------------------------

  predicate Terminal(s: Status) {
    s == Confirmed || s == Cancelled
  }

  /** The version tells how far the order has come. */
  predicate RowOk(row: OrderRow) {
    match row.status
    case Created => row.version == 1
    case AwaitingStock => row.version == 2
    case Confirmed => row.version == 3
    case Cancelled => row.version == 3
    case Completed => false
  }

  ghost predicate RowsOk(orders: map<OrderId, OrderRow>) {
    forall id | id in orders :: RowOk(orders[id])
  }

  /** Every order that the outbox announces is stored. */
  ghost predicate CreationsStored(t: Tables) {
    forall r | 0 <= r < |t.outbox| && t.outbox[r].msg.OrderCreated? :: t.outbox[r].msg.order in t.orders
  }

  /** Any number of steps of the other writers: no row is lost, its version never goes down,
      and while the version stands the row stands. Outbox rows are only added and marked. */
  ghost predicate Rely(t: Tables, t': Tables) {
    && RowsOk(t'.orders)
    && (forall id | id in t.orders :: id in t'.orders && Advances(t.orders[id], t'.orders[id]))
    && Outbox.Grows(t.outbox, t'.outbox, [])
  }

  /** Moreover, nobody touches the outbox rows and the orders that a transaction holds. */
  ghost predicate RelyHolding(t: Tables, t': Tables, held: seq<nat>, orders: set<OrderId>) {
    && Rely(t, t')
    && Outbox.Grows(t.outbox, t'.outbox, held)
    && forall id | id in orders && id in t.orders :: t'.orders[id] == t.orders[id]
  }

  predicate Advances(row: OrderRow, row': OrderRow) {
    row'.items == row.items && row.version <= row'.version && (row.version == row'.version ==> row == row')
  }

  lemma RelyTransitive(t0: Tables, t1: Tables, t2: Tables)
    requires Rely(t0, t1) && Rely(t1, t2)
    ensures Rely(t0, t2)
  {
    forall id | id in t0.orders ensures id in t2.orders && Advances(t0.orders[id], t2.orders[id]) {
      assert Advances(t0.orders[id], t1.orders[id]) && Advances(t1.orders[id], t2.orders[id]);
    }
    Outbox.GrowsTransitive(t0.outbox, t1.outbox, t2.outbox, []);
  }

  lemma RelyReflexive(t: Tables)
    requires RowsOk(t.orders)
    ensures Rely(t, t)
  {
  }

  /** What relying on the others means for one order's row. */
  lemma RelyRow(t: Tables, t': Tables, id: OrderId)
    requires Rely(t, t')
    ensures id in t.orders ==> id in t'.orders && Advances(t.orders[id], t'.orders[id])
    ensures id in t'.orders ==> RowOk(t'.orders[id])
  {
  }

  /** Completing an awaiting order is itself a step others may rely on. */
  lemma StatusTxRelies(t: Tables, id: OrderId, status: Status, e: Event, now: int)
    requires RowsOk(t.orders) && id in t.orders && t.orders[id].status == AwaitingStock && Terminal(status)
    ensures Rely(t, StatusTx(t, id, status, e, now))
    ensures Outbox.HasEvent(StatusTx(t, id, status, e, now).outbox, e)
  {
    assert StatusTx(t, id, status, e, now).outbox[|t.outbox|].msg == e;
  }

  /** A committed ending is there for good, and so is its event with its time. */
  lemma EndingStands(t: Tables, id: OrderId, status: Status, e: Event, now: int, after: Tables)
    requires RowsOk(t.orders) && id in t.orders && t.orders[id].status == AwaitingStock && Terminal(status)
    requires Rely(StatusTx(t, id, status, e, now), after)
    ensures id in after.orders && after.orders[id].status == status
    ensures exists i :: 0 <= i < |after.outbox| && after.outbox[i].msg == e && after.outbox[i].createdAt == now
  {
    var t' := StatusTx(t, id, status, e, now);
    StatusTxRelies(t, id, status, e, now);
    RelyRow(t', after, id);
    assert after.outbox[|t.outbox|] == t'.outbox[|t.outbox|].(sent := after.outbox[|t.outbox|].sent);
  }

  // ---------------------------------------------------------------------------
  // The aggregate and its repository
  // ---------------------------------------------------------------------------

  class Order {
    const id: OrderId
    var status: Status
    const version: int
    const items: seq<Item>

    constructor (id: OrderId, row: OrderRow)
      ensures this.id == id && status == row.status && version == row.version && items == row.items
    {
      this.id, status, version, items := id, row.status, row.version, row.items;
    }

    method TransitionTo(newStatus: Status) returns (ok: bool)
      modifies this
      ensures ok <==> newStatus in AllowedTransitions(old(status))
      ensures ok <==>
                || (old(status) == Created && newStatus == AwaitingStock)
                || (old(status) == AwaitingStock && (newStatus == Confirmed || newStatus == Cancelled))
                || (old(status) == Confirmed && newStatus == Completed)
      ensures status == if ok then newStatus else old(status)
    {
      ok := newStatus in AllowedTransitions(status);
      if ok {
        status := newStatus;
      }
    }
  }

  /** A message of topic stock.reserved or stock.failed as the consumer decodes it. */
  datatype StockResult = Malformed | Reserved(order: OrderId) | Failed(order: OrderId, reason: Error)

  datatype Reply =
    | Done
    | EmptyItems
    | OrderNotFound
    | InvalidTransition
    | NoEventMapping
    | OptimisticLock
    | RetriesExceeded
    | StoreError

  /** Reply r is right for one atomic transition attempted on tables t, `after` being some
      later tables: done, it was a declared transition and has stood since; refused, the
      order was missing, or the transition not declared, or no event announces it. */
  ghost predicate Atomic(t: Tables, id: OrderId, newStatus: Status, reason: Error, now: int, r: Reply, after: Tables) {
    var e := StatusEvent(id, newStatus, reason);
    match r
    case OrderNotFound => id !in t.orders
    case InvalidTransition => id in t.orders && newStatus !in AllowedTransitions(t.orders[id].status)
    case NoEventMapping => id in t.orders && newStatus in AllowedTransitions(t.orders[id].status) && e.None?
    case Done =>
      && id in t.orders && newStatus in AllowedTransitions(t.orders[id].status) && e.Some?
      && Rely(StatusTx(t, id, newStatus, e.value, now), after)
    case StoreError => true
    case _ => false
  }

  class OrderRepository {
    var orders: map<OrderId, OrderRow>
    var outbox: seq<Outbox.Row<Event>>
    const publisher: Outbox.Publisher<Event>
    /** The status changes committed through this object, as opposed to those of others. */
    ghost var mine: seq<Event>
    /** The outbox batches committed through this object. */
    ghost var batches: seq<seq<nat>>
    /** How many statements have failed, and how often an order has been looked up. */
    ghost var failures: nat
    ghost var lookups: nat

    function Db(): Tables reads this {
      Tables(orders, outbox)
    }

    constructor ()
      ensures Db() == Tables(map[], []) && mine == [] && batches == [] && failures == lookups == 0
      ensures fresh(publisher) && publisher.log == [] && publisher.failures == 0
    {
      orders, outbox, mine, batches, failures, lookups := map[], [], [], [], 0, 0;
      publisher := new Outbox.Publisher();
    }

    /** One statement sent to the store: it may fail at any time, and is alone in that. */
    method Statement() returns (ok: bool)
      modifies this`failures
      ensures failures == old(failures) + (if ok then 0 else 1)
    {
      ok := *;
      if !ok {
        failures := failures + 1;
      }
    }

    /** The other processes' turn. */
    method Interference(held: seq<nat>, heldOrders: set<OrderId>)
      requires RowsOk(orders)
      modifies this`orders, this`outbox
      ensures RelyHolding(old(Db()), Db(), held, heldOrders)
    {
    }

    /** The others' turn between two statements of a call that began with tables t0. */
    method OthersRun(ghost t0: Tables, id: OrderId)
      requires RowsOk(orders) && Rely(t0, Db())
      modifies this`orders, this`outbox
      ensures RowsOk(orders) && Rely(t0, Db()) && Rely(Db(), Db())
      ensures id in orders ==> RowOk(orders[id])
      ensures id in old(orders) && Terminal(old(orders)[id].status) ==>
                id in orders && orders[id] == old(orders)[id]
      ensures id in old(orders) ==> id in orders && Advances(old(orders)[id], orders[id])
    {
      ghost var t1 := Db();
      Interference([], {});
      RelyRow(t1, Db(), id);
      RelyTransitive(t0, t1, Db());
      RelyReflexive(Db());
    }

    method SaveWithEvent(id: OrderId, items: seq<Item>, now: int) returns (r: Reply)
      modifies this`orders, this`outbox, this`failures
      ensures r.Done? || r.StoreError?
      ensures r.Done? ==> id !in old(orders) && Db() == SaveTx(old(Db()), id, items, now)
      ensures r.Done? ==> orders == old(orders)[id := OrderRow(Created, 1, items)]
      ensures r.Done? ==> outbox == old(outbox) + [Outbox.Row(OrderCreated(id, items), now, false)]
      ensures r.StoreError? ==> Db() == old(Db()) && (failures > old(failures) || id in old(orders))
    {
      var ok := Statement();
      if !ok || id in orders {
        return StoreError;
      }
      orders := orders[id := OrderRow(Created, 1, items)];
      outbox := outbox + [Outbox.Row(OrderCreated(id, items), now, false)];
      return Done;
    }

    method CreateOrder(id: OrderId, items: seq<Item>, now: int) returns (r: Reply)
      modifies this`orders, this`outbox, this`failures
      ensures r.Done? || r.EmptyItems? || r.StoreError?
      ensures r.EmptyItems? <==> items == []
      ensures r.Done? ==> id !in old(orders) && Db() == SaveTx(old(Db()), id, items, now)
      ensures r.Done? ==> orders == old(orders)[id := OrderRow(Created, 1, items)]
      ensures r.Done? ==> outbox == old(outbox) + [Outbox.Row(OrderCreated(id, items), now, false)]
      ensures !r.Done? ==> Db() == old(Db())
      ensures r.StoreError? ==> failures > old(failures) || id in old(orders)
    {
      if items == [] {
        return EmptyItems;
      }
      r := SaveWithEvent(id, items, now);
    }

    /** Reading the items may break off early; nobody asks the result rows whether it did. */
    method GetByID(id: OrderId) returns (r: Reply, order: Order?)
      modifies this`failures, this`lookups
      ensures lookups == old(lookups) + 1 && failures >= old(failures)
      ensures r.Done? || r.OrderNotFound? || r.StoreError?
      ensures r.OrderNotFound? ==> id !in orders
      ensures r.StoreError? ==> failures > old(failures)
      ensures r.Done? ==> id in orders && order != null && fresh(order) && order.id == id
      ensures r.Done? ==> order.status == orders[id].status && order.version == orders[id].version
      ensures r.Done? ==> order.items <= orders[id].items
      ensures r.Done? && failures == old(failures) ==> order.items == orders[id].items
    {
      lookups := lookups + 1;
      var ok := Statement();
      if !ok {
        return StoreError, null;
      }
      if id !in orders {
        return OrderNotFound, null;
      }
      ok := Statement();
      if !ok {
        return StoreError, null;
      }
      var row := orders[id];
      var items := [];
      for i := 0 to |row.items|
        invariant items == row.items[..i] && failures == old(failures) && lookups == old(lookups) + 1
      {
        var next := Statement();
        if !next {
          break;
        }
        items := items + [row.items[i]];
      }
      order := new Order(id, row.(items := items));
      return Done, order;
    }

    method UpdateStatusWithEvent(order: Order, e: Event, now: int) returns (r: Reply)
      modifies this`orders, this`outbox, this`mine, this`failures
      ensures r.Done? || r.OptimisticLock? || r.StoreError?
      ensures failures == old(failures) + (if r.StoreError? then 1 else 0)
      ensures r.Done? ==> order.id in old(orders) && old(orders)[order.id].version == order.version
      ensures r.Done? ==> Db() == StatusTx(old(Db()), order.id, order.status, e, now) && mine == old(mine) + [e]
      ensures r.Done? ==>
                var items := old(orders)[order.id].items;
                orders == old(orders)[order.id := OrderRow(order.status, order.version + 1, items)]
      ensures r.Done? ==> outbox == old(outbox) + [Outbox.Row(e, now, false)]
      ensures r.OptimisticLock? ==> order.id !in orders || orders[order.id].version != order.version
      ensures !r.Done? ==> Db() == old(Db()) && mine == old(mine)
    {
      var ok := Statement();
      if !ok {
        return StoreError;
      }
      if order.id !in orders || orders[order.id].version != order.version {
        return OptimisticLock;
      }
      ok := Statement();
      if !ok {
        return StoreError;
      }
      orders := orders[order.id := orders[order.id].(status := order.status, version := orders[order.id].version + 1)];
      outbox := outbox + [Outbox.Row(e, now, false)];
      mine := mine + [e];
      return Done;
    }

    /** The order has the status, and the outbox its event with the time of the change. */
    ghost predicate Ended(id: OrderId, status: Status, e: Event, now: int) reads this {
      && id in orders && orders[id].status == status
      && exists i :: 0 <= i < |outbox| && outbox[i].msg == e && outbox[i].createdAt == now
    }

    /** The compare-and-swap of an order read as awaiting, and the others' turn after it. */
    method SwapAndGoOn(order: Order, e: Event, now: int) returns (r: Reply)
      requires RowsOk(orders) && order.version == 2 && Terminal(order.status)
      modifies this`orders, this`outbox, this`mine, this`failures
      ensures r.Done? || r.OptimisticLock? || r.StoreError?
      ensures failures == old(failures) + (if r.StoreError? then 1 else 0)
      ensures Rely(old(Db()), Db())
      ensures r.OptimisticLock? ==> order.id !in old(orders) || old(orders)[order.id].version != 2
      ensures !r.Done? ==> Db() == old(Db())
      ensures r.Done? ==> order.id in old(orders) && old(orders)[order.id].status == AwaitingStock
      ensures r.Done? ==> Rely(StatusTx(old(Db()), order.id, order.status, e, now), Db())
      ensures r.Done? ==> Ended(order.id, order.status, e, now)
      ensures mine == old(mine) + (if r.Done? then [e] else [])
    {
      hide Rely, Outbox.Grows, StatusTx;
      ghost var t := Db();
      RelyReflexive(t);
      r := UpdateStatusWithEvent(order, e, now);
      if r.Done? {
        ghost var t' := Db();
        assert t.orders[order.id].status == AwaitingStock;
        StatusTxRelies(t, order.id, order.status, e, now);
        RelyReflexive(t');
        OthersRun(t', order.id);
        RelyTransitive(t, t', Db());
        EndingStands(t, order.id, order.status, e, now, Db());
      }
    }

    /** One round of the retry loop, with every other writer free to run between any two
        statements. The reply is that of an atomic transition taken at tables `at`, some state
        between call and return; a lost compare-and-swap means the order has ended. */
    method Attempt(id: OrderId, newStatus: Status, reason: Error, now: int) returns (r: Reply, ghost at: Tables)
      requires RowsOk(orders)
      modifies this`orders, this`outbox, this`mine, this`failures, this`lookups
      ensures Rely(old(Db()), at) && Rely(at, Db())
      ensures lookups == old(lookups) + 1 && failures >= old(failures)
      ensures !r.RetriesExceeded?
      ensures r.StoreError? ==> failures > old(failures)
      ensures r.OptimisticLock? ==> StatusEvent(id, newStatus, reason).Some?
      ensures r.OptimisticLock? ==> id in at.orders && Terminal(at.orders[id].status)
      ensures !r.OptimisticLock? ==> Atomic(at, id, newStatus, reason, now, r, Db())
      ensures id in old(orders) && Terminal(old(orders)[id].status) && StatusEvent(id, newStatus, reason).Some? ==>
                r.InvalidTransition? || r.StoreError?
      ensures mine == old(mine) + (if r.Done? then [StatusEvent(id, newStatus, reason).value] else [])
      ensures r.Done? ==> Ended(id, newStatus, StatusEvent(id, newStatus, reason).value, now)
    {
      hide Rely, RowsOk, Outbox.Grows, StatusTx, Ended;
      ghost var t0 := Db();
      RelyReflexive(t0);
      OthersRun(t0, id);
      at := Db();
      var order;
      r, order := GetByID(id);
      if !r.Done? {
        return;
      }
      var ok := order.TransitionTo(newStatus);
      if !ok {
        r := InvalidTransition;
        return;
      }
      var e := StatusEvent(id, newStatus, reason);
      if e.None? {
        r := NoEventMapping;
        return;
      }
      assert orders[id].status == AwaitingStock && orders[id].version == 2;
      OthersRun(t0, id);
      at := Db();
      r := SwapAndGoOn(order, e.value, now);
    }

    /** The call behaves like one atomic transition of the order, at a moment of its own, and
        never runs out of attempts: it looks the order up at most twice. It reports success
        exactly when it itself committed the change and its event, and a store error only if
        a statement failed: without failures a lost race ends as the refusal that it is. */
    method UpdateOrderStatus(id: OrderId, newStatus: Status, reason: Error, now: int)
        returns (r: Reply, ghost at: Tables)
      requires RowsOk(orders)
      modifies this`orders, this`outbox, this`mine, this`failures, this`lookups
      ensures Rely(old(Db()), at) && Rely(at, Db())
      ensures !r.RetriesExceeded? && !r.OptimisticLock?
      ensures failures >= old(failures) && old(lookups) < lookups <= old(lookups) + 2
      ensures lookups == old(lookups) + 2 ==> r.InvalidTransition? || r.StoreError?
      ensures r.StoreError? ==> failures > old(failures)
      ensures Atomic(at, id, newStatus, reason, now, r, Db())
      ensures !r.Done? ==> mine == old(mine)
      ensures r.Done? ==>
                || (newStatus == Confirmed && mine == old(mine) + [OrderConfirmed(id)])
                || (newStatus == Cancelled && mine == old(mine) + [OrderCancelled(id, reason)])
      ensures r.Done? ==> id in orders && orders[id].status == newStatus
      ensures r.Done? ==>
                exists i :: 0 <= i < |outbox| && outbox[i].msg == mine[|mine| - 1] && outbox[i].createdAt == now
    {
      ghost var t0 := Db();
      at := t0;
      for attempt := 0 to 3
        invariant RowsOk(orders) && mine == old(mine) && Rely(t0, Db()) && failures >= old(failures)
        invariant lookups == old(lookups) + attempt && attempt <= 1
        invariant attempt > 0 ==> StatusEvent(id, newStatus, reason).Some?
        invariant attempt > 0 ==> id in orders && Terminal(orders[id].status)
      {
        ghost var t1 := Db();
        r, at := Attempt(id, newStatus, reason, now);
        RelyTransitive(t0, t1, at);
        RelyTransitive(t0, at, Db());
        if !r.OptimisticLock? {
          return;
        }
      }
      r := RetriesExceeded;
    }

    /** The consumer of stock.reserved and stock.failed. It commits the message's offset on an
        unreadable message, and if the order was AWAITING_STOCK at some moment of the call it
        has then made the transition the message calls for, else it has changed nothing. It
        does not commit only when a statement failed or there is no such order. */
    method HandleStockResult(msg: StockResult, now: int) returns (commitOffset: bool, ghost at: Tables)
      requires RowsOk(orders)
      modifies this`orders, this`outbox, this`mine, this`failures, this`lookups
      ensures Rely(old(Db()), at) && Rely(at, Db()) && failures >= old(failures)
      ensures msg.Malformed? ==> commitOffset && mine == old(mine)
      ensures !commitOffset ==> mine == old(mine)
      ensures !commitOffset ==> failures > old(failures) || (!msg.Malformed? && msg.order !in at.orders)
      ensures commitOffset && !msg.Malformed? ==> msg.order in at.orders
      ensures commitOffset && !msg.Malformed? && at.orders[msg.order].status != AwaitingStock ==> mine == old(mine)
      ensures commitOffset && msg.Reserved? && at.orders[msg.order].status == AwaitingStock ==>
                mine == old(mine) + [OrderConfirmed(msg.order)] && Ended(msg.order, Confirmed, mine[|mine| - 1], now)
      ensures commitOffset && msg.Failed? && at.orders[msg.order].status == AwaitingStock ==>
                && mine == old(mine) + [OrderCancelled(msg.order, msg.reason)]
                && Ended(msg.order, Cancelled, mine[|mine| - 1], now)
    {
      at := Db();
      RelyReflexive(at);
      if msg.Malformed? {
        commitOffset := true;
        return;
      }
      var r;
      if msg.Reserved? {
        r, at := UpdateOrderStatus(msg.order, Confirmed, Insufficient, now);
      } else {
        r, at := UpdateOrderStatus(msg.order, Cancelled, msg.reason, now);
      }
      commitOffset := r.Done? || r.InvalidTransition?;
    }

    // -------------------------------------------------------------------------
    // The outbox worker
    // -------------------------------------------------------------------------

    /** A batch, with every other process free to run between any two statements; `at` is the
        state of the tables when it ends. Rows are published in order up to the first failure.
        If all of it went through, the batch's rows become SENT and its announced orders
        AWAITING_STOCK, together; otherwise it has changed nothing. */
    method ProcessBatch(locked: set<nat>, limit: nat) returns (ok: bool, ids: seq<nat>, ghost at: Tables)
      requires RowsOk(orders) && CreationsStored(Db())
      modifies this`orders, this`outbox, this`batches, this`failures, publisher
      ensures if ok then failures == old(failures) && publisher.failures == old(publisher.failures)
              else failures + publisher.failures == old(failures + publisher.failures) + 1
      ensures batches == old(batches) + (if ok then [ids] else [])
      ensures Outbox.IsBatch(old(outbox), locked, limit, ids)
      ensures Rely(old(Db()), at) && Outbox.Grows(old(outbox), at.outbox, ids)
      ensures Db() == if ok then Tables(Awaited(at.orders, at.outbox, ids), Outbox.MarkSent(at.outbox, ids)) else at
      ensures forall k | 0 <= k < |ids| :: ids[k] < |at.outbox|
      ensures ok ==> orders.Keys == at.orders.Keys && forall id | id in orders ::
                orders[id] ==
                if at.orders[id].status == Created && exists k ::
                     0 <= k < |ids| && at.outbox[ids[k]].msg.OrderCreated? && at.outbox[ids[k]].msg.order == id
                then OrderRow(AwaitingStock, at.orders[id].version + 1, at.orders[id].items) else at.orders[id]
      ensures old(publisher.log) <= publisher.log <= old(publisher.log) + Outbox.Announced(old(outbox), ids)
      ensures ok ==> publisher.log == old(publisher.log) + Outbox.Announced(old(outbox), ids)
    {
      hide Rely, Written, BatchStored, Awaited, AwaitWrite, Outbox.Grows, Outbox.IsBatch, Outbox.Pending;
      ids := Outbox.FetchPending(outbox, locked, limit);
      var fetched := outbox;
      var marked: seq<nat> := [];
      var changed: map<OrderId, OrderRow> := map[];
      ghost var t0 := Db();
      at := t0;
      BatchBegins(t0, ids);
      for i := 0 to |ids|
        invariant Db() == at && RowsOk(orders) && Rely(t0, at) && Outbox.Grows(fetched, outbox, ids)
        invariant |fetched| <= |outbox|
        invariant marked == ids[..i] && batches == old(batches)
        invariant failures == old(failures) && publisher.failures == old(publisher.failures)
        invariant BatchStored(at, ids) && Written(at, marked, changed)
        invariant publisher.log == old(publisher.log) + Outbox.Announced(fetched, ids[..i])
      {
        Outbox.AnnounceOne(fetched, ids, i);
        ok := publisher.Publish(ids[i], fetched[ids[i]].msg);
        if !ok {
          return;
        }
        ghost var before := at;
        Interference(ids, changed.Keys);
        at := Db();
        BatchUndisturbed(t0, before, at, ids, marked, changed);
        ok := Statement();
        if !ok {
          return;
        }
        ghost var written := changed;
        if fetched[ids[i]].msg.OrderCreated? {
          changed := AwaitWrite(orders, changed, fetched[ids[i]].msg.order);
        }
        WriteOne(at, marked, written, ids[i], changed);
        marked := marked + [ids[i]];
      }
      assert ids[..|ids|] == ids;
      ghost var before := at;
      Interference(ids, changed.Keys);
      at := Db();
      BatchUndisturbed(t0, before, at, ids, marked, changed);
      ok := Statement();
      if ok {
        WrittenIsAwaited(at, marked, changed);
        AwaitedMeans(at.orders, at.outbox, ids);
        orders, outbox := orders + changed, Outbox.MarkSent(outbox, marked);
        batches := batches + [ids];
      }
    }
  }

  /** The orders that a batch in progress announces are stored. */
  ghost predicate BatchStored(t: Tables, ids: seq<nat>) {
    forall k | 0 <= k < |ids| ::
      ids[k] < |t.outbox| && (t.outbox[ids[k]].msg.OrderCreated? ==> t.outbox[ids[k]].msg.order in t.orders)
  }

  /** What a batch has written of orders so far is what awaits the orders it has announced. */
  ghost predicate Written(t: Tables, done: seq<nat>, changed: map<OrderId, OrderRow>) {
    && changed.Keys <= t.orders.Keys
    && (forall id | id in changed ::
          Announces(t.outbox, done, id) && t.orders[id].status == Created && changed[id] == AwaitRow(t.orders[id]))
    && (forall id | id in t.orders && Announces(t.outbox, done, id) && t.orders[id].status == Created :: id in changed)
  }

  lemma BatchBegins(t: Tables, ids: seq<nat>)
    requires RowsOk(t.orders) && CreationsStored(t) && forall k | 0 <= k < |ids| :: ids[k] < |t.outbox|
    ensures Rely(t, t) && Outbox.Grows(t.outbox, t.outbox, ids)
    ensures BatchStored(t, ids) && Written(t, [], map[])
  {
  }

  lemma SameAnnouncements(t: Tables, t': Tables, ids: seq<nat>, id: OrderId)
    requires Outbox.Grows(t.outbox, t'.outbox, []) && forall k | 0 <= k < |ids| :: ids[k] < |t.outbox|
    ensures Announces(t.outbox, ids, id) <==> Announces(t'.outbox, ids, id)
  {
    forall k | 0 <= k < |ids| ensures t'.outbox[ids[k]].msg == t.outbox[ids[k]].msg {
      assert t'.outbox[ids[k]] == t.outbox[ids[k]].(sent := t'.outbox[ids[k]].sent);
    }
  }

  /** An order that is stored and past CREATED never comes back to it, and those the batch has
      written are held: nothing that others do calls for another write. */
  lemma WritesStand(t: Tables, t': Tables, ids: seq<nat>, done: seq<nat>, changed: map<OrderId, OrderRow>)
    requires RowsOk(t.orders) && RelyHolding(t, t', ids, changed.Keys)
    requires BatchStored(t, ids) && done <= ids && Written(t, done, changed)
    ensures Written(t', done, changed)
  {
    forall id ensures Announces(t.outbox, done, id) <==> Announces(t'.outbox, done, id) {
      SameAnnouncements(t, t', done, id);
    }
    forall id | id in t'.orders && Announces(t'.outbox, done, id) && t'.orders[id].status == Created
      ensures id in changed
    {
      var rows := t.outbox;
      var k :| 0 <= k < |done| && done[k] < |rows| && rows[done[k]].msg.OrderCreated? && rows[done[k]].msg.order == id;
      assert done[k] == ids[k];
      assert id in t.orders && Advances(t.orders[id], t'.orders[id]);
    }
  }

  lemma BatchUndisturbed(t0: Tables, t: Tables, t': Tables, ids: seq<nat>, done: seq<nat>,
                         changed: map<OrderId, OrderRow>)
    requires RowsOk(t.orders) && Rely(t0, t) && Outbox.Grows(t0.outbox, t.outbox, ids)
    requires RelyHolding(t, t', ids, changed.Keys)
    requires BatchStored(t, ids) && done <= ids && Written(t, done, changed)
    ensures RowsOk(t'.orders) && Rely(t0, t') && Outbox.Grows(t0.outbox, t'.outbox, ids)
    ensures BatchStored(t', ids) && Written(t', done, changed)
  {
    RelyTransitive(t0, t, t');
    Outbox.GrowsTransitive(t0.outbox, t.outbox, t'.outbox, ids);
    WritesStand(t, t', ids, done, changed);
    forall k | 0 <= k < |ids| ensures t'.outbox[ids[k]].msg == t.outbox[ids[k]].msg {
      assert t'.outbox[ids[k]] == t.outbox[ids[k]].(sent := t'.outbox[ids[k]].sent);
    }
  }

  lemma AnnouncesOneMore(rows: seq<Outbox.Row<Event>>, ids: seq<nat>, r: nat, id: OrderId)
    requires r < |rows|
    ensures Announces(rows, ids + [r], id) <==>
              Announces(rows, ids, id) || (rows[r].msg.OrderCreated? && rows[r].msg.order == id)
  {
    var more := ids + [r];
    assert more[|ids|] == r;
    if Announces(rows, ids, id) {
      var k :| 0 <= k < |ids| && ids[k] < |rows| && rows[ids[k]].msg.OrderCreated? && rows[ids[k]].msg.order == id;
      assert more[k] == ids[k];
    }
  }

  /** The transaction's UPDATE for the next row of the batch. */
  lemma WriteOne(t: Tables, done: seq<nat>, changed: map<OrderId, OrderRow>, r: nat, changed': map<OrderId, OrderRow>)
    requires r < |t.outbox| && Written(t, done, changed)
    requires var msg := t.outbox[r].msg;
             changed' == if msg.OrderCreated? then AwaitWrite(t.orders, changed, msg.order) else changed
    ensures Written(t, done + [r], changed')
  {
    forall id ensures Announces(t.outbox, done + [r], id) <==>
                Announces(t.outbox, done, id) || (t.outbox[r].msg.OrderCreated? && t.outbox[r].msg.order == id)
    {
      AnnouncesOneMore(t.outbox, done, r, id);
    }
  }

  lemma WrittenIsAwaited(t: Tables, done: seq<nat>, changed: map<OrderId, OrderRow>)
    requires Written(t, done, changed)
    ensures t.orders + changed == Awaited(t.orders, t.outbox, done)
  {
  }
}
