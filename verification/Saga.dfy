/** The whole choreography: order service, inventory and notifications, joined only by what
    Kafka has been told. A message once logged may be delivered any number of times, at any
    time, in any order, or never. */
module Saga {
  import opened Common
  import opened Reservation
  import opened OrderService
  import opened Runs
  import Stock = InventoryProtocol
  import Orders = OrderProtocol
  import InventoryRepo
  import Notification
  import Outbox

  datatype State = State(orders: Orders.State, stock: Stock.State, inbox: seq<Notification.InboxRow>)

  datatype Action =
    | OrderStep(order: Orders.Action)
    | StockStep(stock: Stock.Action)
    | Notify(k: nat)

  function Init(c: Stock.Config): State {
    State(Orders.Init(), Stock.Init(c), [])
  }

  predicate Logged<M(==)>(log: seq<Outbox.Pub<M>>, msg: M) {
    exists k :: 0 <= k < |log| && log[k].msg == msg
  }

  /** The message a status update answers to. */
  function Answer(order: OrderId, target: Status, reason: Error): InventoryRepo.StockEvent {
    if target == Confirmed then InventoryRepo.StockReserved(order) else InventoryRepo.StockFailed(order, reason)
  }

  /** Deliveries: a call starts only with a message that is in the log. */
  ghost predicate Enabled(c: Stock.Config, s: State, a: Action) {
    match a
    case OrderStep(o) =>
      && Orders.Enabled(c.batchSize, s.orders, o)
      && (o.Start? ==> Logged(s.stock.outbox.log, Answer(o.order, o.target, o.reason)))
    case StockStep(t) =>
      && Stock.Enabled(c, s.stock, t)
      && (t.Check? ==> Logged(s.orders.outbox.log, OrderCreated(t.order, t.items)))
    case Notify(k) => k < |s.orders.outbox.log|
  }

  ghost function Effect(c: Stock.Config, s: State, a: Action): State
    requires Enabled(c, s, a)
  {
    match a
    case OrderStep(o) => s.(orders := Orders.Effect(c.batchSize, s.orders, o))
    case StockStep(t) => s.(stock := Stock.Effect(c, s.stock, t))
    case Notify(k) =>
      var msg := s.orders.outbox.log[k].msg;
      s.(inbox := Notification.Marked(s.inbox, Notification.InboxRow(msg.order, Orders.KindOf(msg))))
  }

  // ---------------------------------------------------------------------------
  // What every step keeps
  // ---------------------------------------------------------------------------

  function Demands(orders: map<OrderId, OrderRow>): map<OrderId, seq<Item>> {
    map o | o in orders :: orders[o].items
  }

  /** Inventory has reached the verdict that `target` stands for. */
  ghost predicate Backed(s: Stock.State, o: OrderId, target: Status) {
    && (target == Confirmed ==> InventoryRepo.IsProcessed(s.processed, o))
    && (target == Cancelled ==> Stock.WasRefused(s, o))
  }

  ghost predicate Told(orders: Orders.State, row: Notification.InboxRow) {
    exists r :: r in Orders.RowsSaying(orders.outbox.rows, row.order, row.kind)
  }

  ghost predicate Inv(c: Stock.Config, s: State) {
    && Orders.Inv(s.orders)
    && Stock.Inv(c, s.stock)
    && Stock.Agrees(s.stock, Demands(s.orders.orders))
    && Stock.Verdicts(s.stock, Demands(s.orders.orders))
    && (c.serial ==> Stock.Separate(s.stock))
    && (forall k | k in s.orders.calls :: Backed(s.stock, s.orders.calls[k].order, s.orders.calls[k].target))
    && (forall o | o in s.orders.orders :: Backed(s.stock, o, s.orders.orders[o].status))
    && Notification.NoDuplicates(s.inbox)
    && (forall i | 0 <= i < |s.inbox| :: Told(s.orders, s.inbox[i]))
  }

  lemma MoreDemand(s: Stock.State, d: map<OrderId, seq<Item>>, d': map<OrderId, seq<Item>>)
    requires Stock.Agrees(s, d) && Stock.Verdicts(s, d)
    requires forall o | o in d :: o in d' && d'[o] == d[o]
    ensures Stock.Agrees(s, d') && Stock.Verdicts(s, d')
  {
    forall i | 0 <= i < |s.outbox.rows| ensures Stock.RowVerdict(s.stock, s.processed, d', s.outbox.rows[i].msg) {
      assert Stock.RowVerdict(s.stock, s.processed, d, s.outbox.rows[i].msg);
    }
  }

  /** Order-service steps keep orders and outbox rows, whatever else they change. */
  lemma OrderStepKeeps(n: nat, s: Orders.State, a: Orders.Action)
    requires Orders.Inv(s) && Orders.Enabled(n, s, a)
    ensures var s' := Orders.Effect(n, s, a);
            && (forall o | o in s.orders :: o in s'.orders && s'.orders[o].items == s.orders[o].items)
            && |s.outbox.rows| <= |s'.outbox.rows|
            && (forall r | 0 <= r < |s.outbox.rows| :: s'.outbox.rows[r].msg == s.outbox.rows[r].msg)
  {
  }

  /** A status that a step introduces is CREATED, AWAITING_STOCK, or some call's target. */
  lemma OrderStepStatus(n: nat, s: Orders.State, a: Orders.Action, o: OrderId)
    requires Orders.Inv(s) && Orders.Enabled(n, s, a) && o in Orders.Effect(n, s, a).orders
    ensures var status := Orders.Effect(n, s, a).orders[o].status;
            || !Terminal(status)
            || (o in s.orders && s.orders[o].status == status)
            || (exists k :: k in s.calls && s.calls[k].order == o && s.calls[k].target == status)
  {
  }

  lemma LoggedAnswerIsBacked(c: Stock.Config, s: Stock.State, o: OrderId, target: Status, reason: Error)
    requires Stock.Inv(c, s) && Terminal(target) && Logged(s.outbox.log, Answer(o, target, reason))
    ensures Backed(s, o, target)
  {
    var k :| 0 <= k < |s.outbox.log| && s.outbox.log[k].msg == Answer(o, target, reason);
    var r := s.outbox.log[k].id;
    assert s.outbox.rows[r].msg == Answer(o, target, reason);
  }

  /** A call keeps its order and target; a new one answers the message it started with. */
  lemma OrderStepCall(n: nat, s: Orders.State, a: Orders.Action, k: nat)
    requires Orders.Enabled(n, s, a) && k in Orders.Effect(n, s, a).calls
    ensures var call := Orders.Effect(n, s, a).calls[k];
            || (k in s.calls && s.calls[k].order == call.order && s.calls[k].target == call.target)
            || (a.Start? && a.order == call.order && a.target == call.target)
  {
  }

  lemma OrderStepBacksCalls(c: Stock.Config, s: State, a: Action, k: nat)
    requires Inv(c, s) && a.OrderStep? && Enabled(c, s, a) && k in Effect(c, s, a).orders.calls
    ensures var call := Effect(c, s, a).orders.calls[k]; Backed(s.stock, call.order, call.target)
  {
    OrderStepCall(c.batchSize, s.orders, a.order, k);
    if a.order.Start? {
      LoggedAnswerIsBacked(c, s.stock, a.order.order, a.order.target, a.order.reason);
    }
  }

  lemma OrderStepBacksOrders(c: Stock.Config, s: State, a: Action, o: OrderId)
    requires Inv(c, s) && a.OrderStep? && Enabled(c, s, a) && o in Effect(c, s, a).orders.orders
    ensures Backed(s.stock, o, Effect(c, s, a).orders.orders[o].status)
  {
    OrderStepStatus(c.batchSize, s.orders, a.order, o);
  }

  lemma TellingStays(orders: Orders.State, orders': Orders.State, row: Notification.InboxRow)
    requires Told(orders, row) && |orders.outbox.rows| <= |orders'.outbox.rows|
    requires forall r | 0 <= r < |orders.outbox.rows| :: orders'.outbox.rows[r].msg == orders.outbox.rows[r].msg
    ensures Told(orders', row)
  {
    var r :| r in Orders.RowsSaying(orders.outbox.rows, row.order, row.kind);
    assert r in Orders.RowsSaying(orders'.outbox.rows, row.order, row.kind);
  }

  lemma OrderStepKeepsInv(c: Stock.Config, s: State, a: Action)
    requires Inv(c, s) && a.OrderStep? && Enabled(c, s, a)
    ensures Inv(c, Effect(c, s, a))
  {
    var s' := Effect(c, s, a);
    Orders.StepKeepsInv(c.batchSize, s.orders, a.order);
    OrderStepKeeps(c.batchSize, s.orders, a.order);
    forall k | k in s'.orders.calls ensures Backed(s'.stock, s'.orders.calls[k].order, s'.orders.calls[k].target) {
      OrderStepBacksCalls(c, s, a, k);
    }
    forall o | o in s'.orders.orders ensures Backed(s'.stock, o, s'.orders.orders[o].status) {
      OrderStepBacksOrders(c, s, a, o);
    }
    MoreDemand(s.stock, Demands(s.orders.orders), Demands(s'.orders.orders));
    forall i | 0 <= i < |s'.inbox| ensures Told(s'.orders, s'.inbox[i]) {
      TellingStays(s.orders, s'.orders, s.inbox[i]);
    }
  }

  /** What Kafka says about an order's items is what the orders table says. */
  lemma DeliveredItems(s: Orders.State, o: OrderId, items: seq<Item>)
    requires Orders.Inv(s) && Logged(s.outbox.log, OrderCreated(o, items))
    ensures o in s.orders && s.orders[o].items == items
  {
    var k :| 0 <= k < |s.outbox.log| && s.outbox.log[k].msg == OrderCreated(o, items);
    assert Orders.Says(s.outbox.rows[s.outbox.log[k].id].msg, s.orders[o]);
  }

  /** Inventory's tables keep what they have. */
  lemma StockStepKeeps(c: Stock.Config, s: Stock.State, a: Stock.Action)
    requires Stock.Enabled(c, s, a)
    ensures s.processed <= Stock.Effect(c, s, a).processed
    ensures |s.outbox.rows| <= |Stock.Effect(c, s, a).outbox.rows|
    ensures forall i | 0 <= i < |s.outbox.rows| :: Stock.Effect(c, s, a).outbox.rows[i].msg == s.outbox.rows[i].msg
  {
  }

  /** Inventory never takes a verdict back. */
  lemma VerdictsStay(c: Stock.Config, s: Stock.State, a: Stock.Action, o: OrderId, target: Status)
    requires Stock.Enabled(c, s, a) && Backed(s, o, target)
    ensures Backed(Stock.Effect(c, s, a), o, target)
  {
    hide Stock.Effect, Stock.Enabled;
    var s' := Stock.Effect(c, s, a);
    StockStepKeeps(c, s, a);
    if target == Confirmed {
      var i :| 0 <= i < |s.processed| && s.processed[i].order == o;
      assert s'.processed[i].order == o;
    } else if target == Cancelled {
      var e :| Outbox.HasEvent(s.outbox.rows, InventoryRepo.StockFailed(o, e));
      var i :| 0 <= i < |s.outbox.rows| && s.outbox.rows[i].msg == InventoryRepo.StockFailed(o, e);
      assert s'.outbox.rows[i].msg == InventoryRepo.StockFailed(o, e);
    }
  }

  lemma StockStepKeepsInv(c: Stock.Config, s: State, a: Action)
    requires Inv(c, s) && a.StockStep? && Enabled(c, s, a)
    ensures Inv(c, Effect(c, s, a))
  {
    var s' := Effect(c, s, a);
    var demand := Demands(s.orders.orders);
    if a.stock.Check? {
      DeliveredItems(s.orders, a.stock.order, a.stock.items);
    }
    Stock.StepKeepsInv(c, s.stock, a.stock);
    Stock.StepAgrees(c, s.stock, a.stock, demand);
    Stock.StepKeepsVerdicts(c, s.stock, a.stock, demand);
    if c.serial {
      Stock.StepKeepsSeparate(c, s.stock, a.stock, demand);
    }
    forall k | k in s'.orders.calls ensures Backed(s'.stock, s'.orders.calls[k].order, s'.orders.calls[k].target) {
      VerdictsStay(c, s.stock, a.stock, s.orders.calls[k].order, s.orders.calls[k].target);
    }
    forall o | o in s'.orders.orders ensures Backed(s'.stock, o, s'.orders.orders[o].status) {
      VerdictsStay(c, s.stock, a.stock, o, s.orders.orders[o].status);
    }
  }

  lemma LoggedIsTold(s: State, k: nat)
    requires Orders.Inv(s.orders) && k < |s.orders.outbox.log|
    ensures var msg := s.orders.outbox.log[k].msg;
            Told(s.orders, Notification.InboxRow(msg.order, Orders.KindOf(msg)))
  {
    var msg := s.orders.outbox.log[k].msg;
    assert s.orders.outbox.log[k].id in Orders.RowsSaying(s.orders.outbox.rows, msg.order, Orders.KindOf(msg));
  }

  lemma NotifyKeepsInv(c: Stock.Config, s: State, a: Action)
    requires Inv(c, s) && a.Notify? && Enabled(c, s, a)
    ensures Inv(c, Effect(c, s, a))
  {
    hide Told, Backed, Orders.Inv, Stock.Inv, Stock.Agrees, Stock.Verdicts, Stock.Separate;
    assert Orders.Inv(s.orders);
    LoggedIsTold(s, a.k);
  }

  // ---------------------------------------------------------------------------
  // Every run
  // ---------------------------------------------------------------------------

  ghost function Protocol(c: Stock.Config): Machine<State, Action> {
    Machine(s => s == Init(c),
            (s, a) => Enabled(c, s, a),
            (s, a) => if Enabled(c, s, a) then Effect(c, s, a) else s)
  }

  lemma StepKeepsInv(c: Stock.Config, s: State, a: Action)
    requires Inv(c, s) && Enabled(c, s, a)
    ensures Inv(c, Effect(c, s, a))
  {
    hide Inv, Effect;
    match a {
      case OrderStep(_) => OrderStepKeepsInv(c, s, a);
      case StockStep(_) => StockStepKeepsInv(c, s, a);
      case Notify(_) => NotifyKeepsInv(c, s, a);
    }
  }

  lemma RunKeepsInv(c: Stock.Config, run: seq<State>)
    requires IsRun(Protocol(c), run)
    ensures Inv(c, run[|run| - 1])
  {
    forall s, a | Inv(c, s) && Enabled(c, s, a) ensures Inv(c, Effect(c, s, a)) {
      StepKeepsInv(c, s, a);
    }
    InvHolds(Protocol(c), s => Inv(c, s), run);
  }

  /** Units of sku taken from stock for order o, over all rows of processed_events. */
  function TakenFor(processed: seq<InventoryRepo.Entry>, o: OrderId, sku: Sku): int {
    if processed == [] then 0
    else TakenFor(processed[..|processed| - 1], o, sku)
         + (if processed[|processed| - 1].order == o then Demand(processed[|processed| - 1].items, sku) else 0)
  }

  lemma {:induction false} TakenOnce(processed: seq<InventoryRepo.Entry>, o: OrderId, items: seq<Item>, sku: Sku)
    requires Stock.Unique(processed)
    requires forall i | 0 <= i < |processed| && processed[i].order == o :: processed[i].items == items
    ensures TakenFor(processed, o, sku) == if InventoryRepo.IsProcessed(processed, o) then Demand(items, sku) else 0
  {
    if processed == [] {
    } else {
      var n := |processed| - 1;
      TakenOnce(processed[..n], o, items, sku);
      assert processed == processed[..n] + [processed[n]];
      Stock.InsertProcessed(processed[..n], processed[n], o);
    }
  }

  /** The saga's agreement, whatever overlaps. In every reachable state, for every order: if it
      is CONFIRMED its items have been taken from stock exactly once; if it is CANCELLED its
      refusal is recorded and, unless it was reserved before that, nothing was or will be taken
      for it; and stock is the initial stock less what was taken. If calls for one order do not
      overlap, a CANCELLED order was never reserved. */
  lemma Agreement(c: Stock.Config, run: seq<State>, o: OrderId)
    requires IsRun(Protocol(c), run) && Stock.NonNegative(c.init)
    requires o in run[|run| - 1].orders.orders
    ensures var s := run[|run| - 1]; var row := s.orders.orders[o]; var processed := s.stock.processed;
            && (row.status == Confirmed ==>
                  && InventoryRepo.IsProcessed(processed, o)
                  && forall sku :: TakenFor(processed, o, sku) == Demand(row.items, sku))
            && (row.status == Cancelled ==>
                  && Stock.WasRefused(s.stock, o)
                  && (c.serial ==> !InventoryRepo.IsProcessed(processed, o)))
            && (row.status == Cancelled && !InventoryRepo.IsProcessed(processed, o) ==>
                  && (forall sku :: TakenFor(processed, o, sku) == 0)
                  && Refused(s.stock.stock, row.items))
            && s.stock.stock.Keys == c.init.Keys && Stock.NonNegative(s.stock.stock)
            && forall sku | sku in c.init ::
                 && s.stock.stock[sku].available == c.init[sku].available - Stock.Sold(processed, sku)
                 && s.stock.stock[sku].reserved == c.init[sku].reserved + Stock.Sold(processed, sku)
  {
    RunKeepsInv(c, run);
    var s := run[|run| - 1];
    Stock.LedgerIsSum(c.init, s.stock.processed);
    assert Backed(s.stock, o, s.orders.orders[o].status);
    forall sku
      ensures TakenFor(s.stock.processed, o, sku) ==
              if InventoryRepo.IsProcessed(s.stock.processed, o) then Demand(s.orders.orders[o].items, sku) else 0
    {
      TakenOnce(s.stock.processed, o, s.orders.orders[o].items, sku);
    }
    if s.orders.orders[o].status == Cancelled {
      RefusalStands(c, s, o);
    }
  }

  lemma RefusalStands(c: Stock.Config, s: State, o: OrderId)
    requires Inv(c, s) && Stock.WasRefused(s.stock, o)
    ensures o in s.orders.orders
    ensures Stock.Stands(s.stock.stock, s.stock.processed, o, s.orders.orders[o].items)
    ensures c.serial ==> !InventoryRepo.IsProcessed(s.stock.processed, o)
  {
    var e :| Outbox.HasEvent(s.stock.outbox.rows, InventoryRepo.StockFailed(o, e));
    var i :| 0 <= i < |s.stock.outbox.rows| && s.stock.outbox.rows[i].msg == InventoryRepo.StockFailed(o, e);
    assert Stock.RowVerdict(s.stock.stock, s.stock.processed, Demands(s.orders.orders), s.stock.outbox.rows[i].msg);
  }

  // ---------------------------------------------------------------------------
  // Verdicts
  // ---------------------------------------------------------------------------

  /** Only a commit processes an order, and none does once the order's refusal is recorded. */
  lemma StepKeepsVerdict(c: Stock.Config, s: State, a: Action, o: OrderId)
    requires Inv(c, s) && Enabled(c, s, a) && Stock.WasRefused(s.stock, o)
    ensures Stock.WasRefused(Effect(c, s, a).stock, o)
    ensures InventoryRepo.IsProcessed(Effect(c, s, a).stock.processed, o) ==
            InventoryRepo.IsProcessed(s.stock.processed, o)
  {
    hide Inv;
    if a.StockStep? {
      VerdictsStay(c, s.stock, a.stock, o, Cancelled);
      if a.stock.CommitTx? {
        CommitIsOfAnother(c, s, a, o);
      }
    }
  }

  lemma CommitIsOfAnother(c: Stock.Config, s: State, a: Action, o: OrderId)
    requires Inv(c, s) && a.StockStep? && a.stock.CommitTx? && Enabled(c, s, a) && Stock.WasRefused(s.stock, o)
    ensures InventoryRepo.IsProcessed(Effect(c, s, a).stock.processed, o) ==
            InventoryRepo.IsProcessed(s.stock.processed, o)
  {
    var tx := s.stock.txs[a.stock.t];
    Stock.NoCommitAfterRefusal(c, s.stock, a.stock, Demands(s.orders.orders));
    Stock.InsertProcessed(s.stock.processed, InventoryRepo.Entry(tx.order, tx.items), o);
  }

  /** Verdicts are final although refusals are not deduplicated, whatever overlaps. If an
      order's refusal is recorded at some point of a run, it stays recorded, and from then on
      the order is as processed or as unprocessed as it was. Unprocessed, it is refused on every
      redelivery, never has a stock.reserved row and is never CONFIRMED; and if calls for one
      order do not overlap, unprocessed it is. */
  lemma {:induction false} VerdictIsFinal(c: Stock.Config, run: seq<State>, i: nat, o: OrderId)
    requires IsRun(Protocol(c), run) && i < |run| && Stock.WasRefused(run[i].stock, o)
    ensures var s := run[|run| - 1]; var processed := InventoryRepo.IsProcessed(s.stock.processed, o);
            && Stock.WasRefused(s.stock, o)
            && processed == InventoryRepo.IsProcessed(run[i].stock.processed, o)
            && o in s.orders.orders
            && (!processed ==>
                  && Refused(s.stock.stock, s.orders.orders[o].items)
                  && !Outbox.HasEvent(s.stock.outbox.rows, InventoryRepo.StockReserved(o))
                  && s.orders.orders[o].status != Confirmed)
            && (c.serial ==> !processed)
  {
    hide Inv, Enabled, Effect, Init, Stock.WasRefused, Refused;
    var n := |run| - 1;
    if i == n {
    } else {
      var a := LastStep(Protocol(c), run);
      VerdictIsFinal(c, run[..n], i, o);
      RunKeepsInv(c, run[..n]);
      StepKeepsVerdict(c, run[n - 1], a, o);
    }
    RunKeepsInv(c, run);
    RefusedIsNotReserved(c, run[n], o);
  }

  lemma RefusedIsNotReserved(c: Stock.Config, s: State, o: OrderId)
    requires Inv(c, s) && Stock.WasRefused(s.stock, o)
    ensures o in s.orders.orders
    ensures !InventoryRepo.IsProcessed(s.stock.processed, o) ==>
              && Refused(s.stock.stock, s.orders.orders[o].items)
              && !Outbox.HasEvent(s.stock.outbox.rows, InventoryRepo.StockReserved(o))
              && s.orders.orders[o].status != Confirmed
    ensures c.serial ==> !InventoryRepo.IsProcessed(s.stock.processed, o)
  {
    RefusalStands(c, s, o);
    assert Backed(s.stock, o, s.orders.orders[o].status);
  }

  ghost predicate HasBoth(s: State, o: OrderId) {
    Outbox.HasEvent(s.stock.outbox.rows, InventoryRepo.StockReserved(o)) && Stock.WasRefused(s.stock, o)
  }

  /** The one way to both verdicts: a refused call records its failure when another call has
      meanwhile reserved the order, both having passed the EXISTS check. */
  lemma BothVerdictsExactly(c: Stock.Config, run: seq<State>, a: Action, o: OrderId)
    requires IsRun(Protocol(c), run) && Enabled(c, run[|run| - 1], a) && !HasBoth(run[|run| - 1], o)
    ensures var s := run[|run| - 1];
            HasBoth(Effect(c, s, a), o) <==>
              && a.StockStep? && a.stock.RecordFailure?
              && s.stock.txs[a.stock.t].order == o
              && InventoryRepo.IsProcessed(s.stock.processed, o)
  {
    var s := run[|run| - 1];
    RunKeepsInv(c, run);
    StepKeepsInv(c, s, a);
    ReservedIsProcessed(c, s, o);
    ReservedIsProcessed(c, Effect(c, s, a), o);
    if Stock.WasRefused(s.stock, o) {
      StepKeepsVerdict(c, s, a, o);
    } else if a.StockStep? {
      NewRefusal(c, s.stock, a.stock, o);
    }
  }

  lemma ReservedIsProcessed(c: Stock.Config, s: State, o: OrderId)
    requires Inv(c, s)
    ensures Outbox.HasEvent(s.stock.outbox.rows, InventoryRepo.StockReserved(o)) <==>
            InventoryRepo.IsProcessed(s.stock.processed, o)
  {
  }

  lemma NotOf(s: Stock.State, o: OrderId, i: nat)
    requires !Stock.WasRefused(s, o) && i < |s.outbox.rows|
    ensures s.outbox.rows[i].msg.StockFailed? ==> s.outbox.rows[i].msg.order != o
  {
    var msg := s.outbox.rows[i].msg;
    assert msg.StockFailed? ==> Outbox.HasEvent(s.outbox.rows, InventoryRepo.StockFailed(msg.order, msg.reason));
  }

  lemma NewRefusal(c: Stock.Config, s: Stock.State, a: Stock.Action, o: OrderId)
    requires Stock.Inv(c, s) && Stock.Enabled(c, s, a) && !Stock.WasRefused(s, o)
    ensures Stock.WasRefused(Stock.Effect(c, s, a), o) <==> a.RecordFailure? && s.txs[a.t].order == o
    ensures a.RecordFailure? ==> Stock.Effect(c, s, a).processed == s.processed
  {
    var s' := Stock.Effect(c, s, a);
    var rows, rows' := s.outbox.rows, s'.outbox.rows;
    forall i | 0 <= i < |rows| ensures rows'[i].msg.StockFailed? ==> rows'[i].msg.order != o {
      NotOf(s, o, i);
    }
    if a.RecordFailure? && s.txs[a.t].order == o {
      assert rows'[|rows|].msg == InventoryRepo.StockFailed(o, s.txs[a.t].error);
      assert Outbox.HasEvent(rows', InventoryRepo.StockFailed(o, s.txs[a.t].error));
    }
  }

  /** Notifications: one row at most for each (order, event type), never both a confirmation
      and a cancellation for one order, and a terminal notification only of the status the
      order has. */
  lemma NotificationsAreConsistent(c: Stock.Config, run: seq<State>, i: nat)
    requires IsRun(Protocol(c), run) && i < |run[|run| - 1].inbox|
    ensures var s := run[|run| - 1]; var row := s.inbox[i];
            && (forall j | 0 <= j < |s.inbox| && s.inbox[j] == row :: j == i)
            && row.order in s.orders.orders
            && (row.kind == Confirmation ==>
                  && s.orders.orders[row.order].status == Confirmed
                  && Notification.InboxRow(row.order, Cancellation) !in s.inbox)
            && (row.kind == Cancellation ==>
                  && s.orders.orders[row.order].status == Cancelled
                  && Notification.InboxRow(row.order, Confirmation) !in s.inbox)
  {
    RunKeepsInv(c, run);
    var s := run[|run| - 1];
    forall j | 0 <= j < |s.inbox|
      ensures var row := s.inbox[j];
              && row.order in s.orders.orders
              && (row.kind == Confirmation ==> s.orders.orders[row.order].status == Confirmed)
              && (row.kind == Cancellation ==> s.orders.orders[row.order].status == Cancelled)
    {
      assert Told(s.orders, s.inbox[j]);
      var r :| r in Orders.RowsSaying(s.orders.outbox.rows, s.inbox[j].order, s.inbox[j].kind);
      assert Orders.Says(s.orders.outbox.rows[r].msg, s.orders.orders[s.inbox[j].order]);
    }
  }

  // ---------------------------------------------------------------------------
  // What overlapping calls can do
  // ---------------------------------------------------------------------------

  function StockSteps(actions: seq<Stock.Action>): seq<Action> {
    if actions == [] then [] else [StockStep(actions[0])] + StockSteps(actions[1..])
  }

  function OrderSteps(actions: seq<Orders.Action>): seq<Action> {
    if actions == [] then [] else [OrderStep(actions[0])] + OrderSteps(actions[1..])
  }

  /** A run of inventory alone is one of the saga, if the orders it asks for are announced. */
  lemma {:induction false} LiftStock(c: Stock.Config, s: State, actions: seq<Stock.Action>)
    requires IsPath(Stock.Protocol(c), s.stock, actions)
    requires forall i | 0 <= i < |actions| && actions[i].Check? ::
               Logged(s.orders.outbox.log, OrderCreated(actions[i].order, actions[i].items))
    ensures IsPath(Protocol(c), s, StockSteps(actions))
    ensures End(Protocol(c), s, StockSteps(actions)) == s.(stock := End(Stock.Protocol(c), s.stock, actions))
    decreases |actions|
  {
    if actions == [] {
    } else {
      assert Enabled(c, s, StockStep(actions[0]));
      var t := s.(stock := Stock.Effect(c, s.stock, actions[0]));
      assert Effect(c, s, StockStep(actions[0])) == t;
      LiftStock(c, t, actions[1..]);
      assert StockSteps(actions)[1..] == StockSteps(actions[1..]);
    }
  }

  /** And a run of the order service, if the answers it acts on are there. */
  lemma {:induction false} LiftOrders(c: Stock.Config, s: State, actions: seq<Orders.Action>)
    requires IsPath(Orders.Protocol(c.batchSize), s.orders, actions)
    requires forall i | 0 <= i < |actions| && actions[i].Start? ::
               Logged(s.stock.outbox.log, Answer(actions[i].order, actions[i].target, actions[i].reason))
    ensures IsPath(Protocol(c), s, OrderSteps(actions))
    ensures End(Protocol(c), s, OrderSteps(actions)) ==
            s.(orders := End(Orders.Protocol(c.batchSize), s.orders, actions))
    decreases |actions|
  {
    if actions == [] {
    } else {
      assert Enabled(c, s, OrderStep(actions[0]));
      var t := s.(orders := Orders.Effect(c.batchSize, s.orders, actions[0]));
      assert Effect(c, s, OrderStep(actions[0])) == t;
      LiftOrders(c, t, actions[1..]);
      assert OrderSteps(actions)[1..] == OrderSteps(actions[1..]);
    }
  }

  lemma FollowStock(c: Stock.Config, run: seq<State>, actions: seq<Stock.Action>) returns (longer: seq<State>)
    requires IsRun(Protocol(c), run) && IsPath(Stock.Protocol(c), run[|run| - 1].stock, actions)
    requires forall i | 0 <= i < |actions| && actions[i].Check? ::
               Logged(run[|run| - 1].orders.outbox.log, OrderCreated(actions[i].order, actions[i].items))
    ensures IsRun(Protocol(c), longer)
    ensures longer[|longer| - 1] ==
            run[|run| - 1].(stock := End(Stock.Protocol(c), run[|run| - 1].stock, actions))
  {
    LiftStock(c, run[|run| - 1], actions);
    longer := Follow(Protocol(c), run, StockSteps(actions));
  }

  lemma FollowOrders(c: Stock.Config, run: seq<State>, actions: seq<Orders.Action>) returns (longer: seq<State>)
    requires IsRun(Protocol(c), run) && IsPath(Orders.Protocol(c.batchSize), run[|run| - 1].orders, actions)
    requires forall i | 0 <= i < |actions| && actions[i].Start? ::
               Logged(run[|run| - 1].stock.outbox.log, Answer(actions[i].order, actions[i].target, actions[i].reason))
    ensures IsRun(Protocol(c), longer)
    ensures longer[|longer| - 1] ==
            run[|run| - 1].(orders := End(Orders.Protocol(c.batchSize), run[|run| - 1].orders, actions))
  {
    LiftOrders(c, run[|run| - 1], actions);
    longer := Follow(Protocol(c), run, OrderSteps(actions));
  }

  /** An order is announced, two calls for it overlap, and both their verdicts are published. */
  lemma BothAnswersArrive(c: Stock.Config) returns (run: seq<State>)
    requires c == Stock.Config(Stock.UNIT, false, 20)
    ensures IsRun(Protocol(c), run)
    ensures run[|run| - 1] == State(Orders.Announced(), Stock.Publishing(2), [])
  {
    hide IsPath, End, Orders.Announced, Stock.Both, Stock.Publishing;
    run := [Init(c)];
    Orders.CanAnnounce(20);
    run := FollowOrders(c, run, Orders.ANNOUNCE);
    AnnouncedIsLogged();
    Stock.OverlapCanGiveBothVerdicts(c);
    run := FollowStock(c, run, Stock.FIRST + Stock.SECOND);
    Stock.CanPublishBoth(c);
    run := FollowStock(c, run, Stock.PUBLISH);
  }

  lemma AnnouncedIsLogged()
    ensures Logged(Orders.Announced().outbox.log, OrderCreated(1, ONE_UNIT))
  {
    assert Orders.Announced().outbox.log[0].msg == OrderCreated(1, ONE_UNIT);
  }

  lemma RefusalIsLogged()
    ensures Logged(Stock.Publishing(2).outbox.log, Answer(1, Cancelled, Insufficient))
  {
    assert Stock.TOLD[..2] == Stock.TOLD;
    assert Stock.Publishing(2).outbox.log[1].msg == Answer(1, Cancelled, Insufficient);
  }

  /** Without the non-overlap assumption an order can end CANCELLED with its items deducted:
      two calls pass the EXISTS check, one reserves, the other refuses, and the refusal is the
      first to be answered. */
  lemma CancelledThoughDeducted() returns (c: Stock.Config, run: seq<State>)
    ensures !c.serial && IsRun(Protocol(c), run)
    ensures var s := run[|run| - 1];
            && 1 in s.orders.orders && s.orders.orders[1].status == Cancelled
            && InventoryRepo.IsProcessed(s.stock.processed, 1)
            && TakenFor(s.stock.processed, 1, "sku") == 1
  {
    hide IsPath, End, Orders.Announced;
    c := Stock.Config(Stock.UNIT, false, 20);
    run := BothAnswersArrive(c);
    RefusalIsLogged();
    Orders.CanCancel(20, Orders.Announced());
    run := FollowOrders(c, run, Orders.CANCEL);
    var processed := run[|run| - 1].stock.processed;
    assert processed == [InventoryRepo.Entry(1, ONE_UNIT)];
    assert processed[0].order == 1 && ONE_UNIT[1..] == [];
  }
}
