/** The inventory service's store and the code that runs against it, one call at a time:
    `ReserveAll`, `RecordFailure`, `ReserveStock`, the consumer's `handleMessage` and the
    outbox worker's `processBatch`. Concurrency is the subject of InventoryProtocol. */
module InventoryRepo {
  import opened Common
  import opened Reservation
  import Outbox

  datatype StockEvent = StockReserved(order: OrderId) | StockFailed(order: OrderId, reason: Error)

  /** A message of topic order.created as the consumer decodes it. */
  datatype Message = Malformed | OrderCreated(order: OrderId, items: seq<Item>)

  /** A row of processed_events; `items` records what was reserved when it was inserted. */
  datatype Entry = Entry(order: OrderId, items: seq<Item>)

  datatype Tables = Tables(stock: Table, processed: seq<Entry>, outbox: seq<Outbox.Row<StockEvent>>)

  datatype Reply = Done | AlreadyProcessed | Rejected(error: Error) | StoreError

  predicate IsProcessed(processed: seq<Entry>, order: OrderId) {
    exists i :: 0 <= i < |processed| && processed[i].order == order
  }

  /** What ReserveAll does to the committed tables when the store does not fail. */
  function ReserveTx(t: Tables, order: OrderId, items: seq<Item>, now: int): (Tables, Reply) {
    if IsProcessed(t.processed, order) then (t, AlreadyProcessed)
    else match Decide(t.stock, items)
      case Failed(e) => (t, Rejected(e))
      case Reserved(stock) =>
        (Tables(stock, t.processed + [Entry(order, items)],
                t.outbox + [Outbox.Row(StockReserved(order), now, false)]), Done)
  }

  /** Any number of steps of the other processes: reservations and refusals are added, stock
      only goes down, and outbox rows are added or, unless held, marked. */
  ghost predicate Rely(t: Tables, t': Tables, held: seq<nat>) {
    && t.processed <= t'.processed
    && Lower(t.stock, t'.stock)
    && Outbox.Grows(t.outbox, t'.outbox, held)
  }

  lemma RelyTransitive(t0: Tables, t1: Tables, t2: Tables, held: seq<nat>)
    requires Rely(t0, t1, held) && Rely(t1, t2, held)
    ensures Rely(t0, t2, held)
  {
    Outbox.GrowsTransitive(t0.outbox, t1.outbox, t2.outbox, held);
  }

  /** What that comes to. */
  lemma ReserveTxMeans(t: Tables, order: OrderId, items: seq<Item>, now: int)
    ensures var (t', r) := ReserveTx(t, order, items, now);
            && (r.AlreadyProcessed? <==> exists i :: 0 <= i < |t.processed| && t.processed[i].order == order)
            && (r.Done? ==>
                  && AllPositive(items) && AllExist(t.stock, items) && Fits(t.stock, items)
                  && t'.stock.Keys == t.stock.Keys
                  && (forall sku | sku in t.stock ::
                        && t'.stock[sku].available == t.stock[sku].available - Demand(items, sku)
                        && t'.stock[sku].reserved == t.stock[sku].reserved + Demand(items, sku)
                        && t'.stock[sku].version == t.stock[sku].version + Lines(items, sku))
                  && t'.processed == t.processed + [Entry(order, items)]
                  && t'.outbox == t.outbox + [Outbox.Row(StockReserved(order), now, false)])
            && (r.Rejected? ==>
                  && !(AllPositive(items) && AllExist(t.stock, items) && Fits(t.stock, items))
                  && exists i :: CheckFault(t.stock, items, i, r.error) || ApplyFault(t.stock, items, i, r.error))
  {
    DecideMeetsSpec(t.stock, items);
    if Decide(t.stock, items).Failed? {
      RejectionHasFault(t.stock, items);
    }
  }

  class StockRepository {
    var stock: Table
    var processed: seq<Entry>
    var outbox: seq<Outbox.Row<StockEvent>>
    const publisher: Outbox.Publisher<StockEvent>
    /** The outbox batches committed through this object, as opposed to those of others. */
    ghost var batches: seq<seq<nat>>
    /** How many statements have failed. */
    ghost var failures: nat

    function Db(): Tables reads this {
      Tables(stock, processed, outbox)
    }

    /** Every processed order's verdict is in the outbox. */
    ghost predicate Valid() reads this {
      forall i | 0 <= i < |processed| :: Outbox.HasEvent(outbox, StockReserved(processed[i].order))
    }

    constructor (stock: Table)
      ensures Valid() && Db() == Tables(stock, [], []) && batches == [] && failures == 0
      ensures fresh(publisher) && publisher.log == [] && publisher.failures == 0
    {
      this.stock, processed, outbox, batches, failures := stock, [], [], [], 0;
      publisher := new Outbox.Publisher();
    }

    /** One statement sent to the store: it may fail at any time, and is alone in that. */
    method Statement() returns (ok: bool)
      modifies this`failures
      ensures failures == old(failures) + (if ok then 0 else 1)
    {
      ok := *;
      if !ok {
        failures := failures + 1;
      }
    }

    /** A fresh object for each stocked SKU that some item mentions. */
    method SelectForUpdate(items: seq<Item>) returns (ok: bool, stocks: map<Sku, Stock>)
      modifies this`failures
      ensures failures == old(failures) + (if ok then 0 else 1)
      ensures ok ==> stocks.Keys == Selected(stock, items).Keys
      ensures ok ==> forall s :: s in stocks <==> s in stock && exists i :: 0 <= i < |items| && items[i].sku == s
      ensures ok ==> Mirrors(stocks, stock) && forall s | s in stocks :: fresh(stocks[s])
    {
      stocks := map[];
      ok := Statement();
      var selected := Selected(stock, items);
      var rows := selected.Keys;
      while ok && rows != {}
        invariant rows <= selected.Keys && stocks.Keys == selected.Keys - rows
        invariant Mirrors(stocks, stock) && forall s | s in stocks :: fresh(stocks[s])
        invariant failures == old(failures) + (if ok then 0 else 1)
        decreases rows
      {
        var s :| s in rows;
        var o := new Stock(s, stock[s].available, stock[s].reserved);
        stocks := stocks[s := o];
        rows := rows - {s};
        ok := Statement();
      }
    }

    /** The rows selected are the rows of the table, item by item. */
    ghost predicate Mirrors(stocks: map<Sku, Stock>, table: Table)
      reads stocks.Values
    {
      forall s | s in stocks :: s in table && stocks[s].sku == s
        && stocks[s].availableQty == table[s].available && stocks[s].reservedQty == table[s].reserved
    }

    method CheckItems(stocks: map<Sku, Stock>, items: seq<Item>) returns (err: Option<Error>)
      requires Mirrors(stocks, stock) && stocks.Keys == Selected(stock, items).Keys
      ensures err == CheckLoop(stock, items)
      ensures err.None? ==> forall i | 0 <= i < |items| ::
                items[i].sku in stocks && items[i].sku in stock && items[i].qty <= stock[items[i].sku].available
      ensures err.Some? ==> exists i ::
                && 0 <= i < |items|
                && (forall j | 0 <= j < i :: items[j].sku in stock && items[j].qty <= stock[items[j].sku].available)
                && (if items[i].sku !in stock then err.value == NotFound
                    else stock[items[i].sku].available < items[i].qty && err.value == Insufficient)
    {
      assert items[0..] == items;
      for i := 0 to |items|
        invariant CheckLoop(stock, items) == CheckLoop(stock, items[i..])
        invariant forall k | 0 <= k < i ::
                    items[k].sku in stocks && items[k].sku in stock && items[k].qty <= stock[items[k].sku].available
      {
        assert items[i..][1..] == items[i + 1..];
        if items[i].sku !in stocks {
          assert items[i].sku !in stock;
          return Some(NotFound);
        }
        if stocks[items[i].sku].availableQty < items[i].qty {
          return Some(Insufficient);
        }
      }
      return None;
    }

    /** The transaction's own view of the stock table after the apply loop. */
    method ApplyItems(stocks: map<Sku, Stock>, items: seq<Item>) returns (tx: Table, failure: Option<Reply>)
      requires Mirrors(stocks, stock) && forall i | 0 <= i < |items| :: items[i].sku in stocks
      modifies this`failures, stocks.Values
      ensures failures == old(failures) + (if failure == Some(StoreError) then 1 else 0)
      ensures failure.None? ==> ApplyLoop(stock, items) == Reserved(tx)
      ensures failure.Some? && failure.value != StoreError ==>
                ApplyLoop(stock, items).Failed? && failure.value == Rejected(ApplyLoop(stock, items).error)
    {
      tx := stock;
      assert items[0..] == items;
      for i := 0 to |items|
        invariant tx.Keys == stock.Keys && Mirrors(stocks, tx) && failures == old(failures)
        invariant ApplyLoop(stock, items) == ApplyLoop(tx, items[i..])
      {
        assert items[i..][1..] == items[i + 1..];
        var s := stocks[items[i].sku];
        var err := s.Reserve(items[i].qty);
        if err.Some? {
          return tx, Some(Rejected(err.value));
        }
        var ok := Statement();
        if !ok {
          return tx, Some(StoreError);
        }
        tx := tx[items[i].sku := Row(s.availableQty, s.reservedQty, tx[items[i].sku].version + 1)];
      }
      failure := None;
    }

    /** All or nothing: the reply and the new tables are those of ReserveTx, and a store
        error, a refusal or a duplicate changes nothing. A new order is reserved if and only if
        all its lines are positive, all its SKUs exist and their sums are in stock, and then
        exactly those sums move; otherwise the error is that of the first line at fault. */
    method ReserveAll(order: OrderId, items: seq<Item>, now: int) returns (r: Reply)
      modifies this`stock, this`processed, this`outbox, this`failures
      ensures failures == old(failures) + (if r.StoreError? then 1 else 0)
      ensures !r.Done? ==> Db() == old(Db())
      ensures !r.StoreError? ==> (Db(), r) == ReserveTx(old(Db()), order, items, now)
      ensures !r.StoreError? ==> (r.AlreadyProcessed? <==>
                exists i :: 0 <= i < |old(processed)| && old(processed)[i].order == order)
      ensures r.Done? ==> AllPositive(items) && AllExist(old(stock), items) && Fits(old(stock), items)
      ensures r.Done? ==> stock.Keys == old(stock).Keys && forall sku | sku in stock ::
                && stock[sku].available == old(stock)[sku].available - Demand(items, sku)
                && stock[sku].reserved == old(stock)[sku].reserved + Demand(items, sku)
                && stock[sku].version == old(stock)[sku].version + Lines(items, sku)
      ensures r.Done? ==> processed == old(processed) + [Entry(order, items)]
      ensures r.Done? ==> outbox == old(outbox) + [Outbox.Row(StockReserved(order), now, false)]
      ensures r.Rejected? ==> !(AllPositive(items) && AllExist(old(stock), items) && Fits(old(stock), items))
      ensures r.Rejected? ==>
                exists i :: CheckFault(old(stock), items, i, r.error) || ApplyFault(old(stock), items, i, r.error)
    {
      hide Deducted, Fits, AllPositive, AllExist, CheckFault, ApplyFault, Demand, Lines;
      ReserveTxMeans(Db(), order, items, now);
      var ok := Statement();
      if !ok {
        return StoreError;
      }
      if IsProcessed(processed, order) {
        return AlreadyProcessed;
      }
      var stocks;
      ok, stocks := SelectForUpdate(items);
      if !ok {
        return StoreError;
      }

      var err := CheckItems(stocks, items);
      if err.Some? {
        return Rejected(err.value);
      }
      CheckedItemsExist(stock, items);
      var tx, failure := ApplyItems(stocks, items);
      if failure.Some? {
        return failure.value;
      }
      ok := Statement();
      if !ok {
        return StoreError;
      }
      stock := tx;
      outbox := outbox + [Outbox.Row(StockReserved(order), now, false)];
      processed := processed + [Entry(order, items)];
      return Done;
    }

    method RecordFailure(order: OrderId, reason: Error, now: int) returns (ok: bool)
      modifies this`outbox, this`failures
      ensures failures == old(failures) + (if ok then 0 else 1)
      ensures outbox == old(outbox) + (if ok then [Outbox.Row(StockFailed(order, reason), now, false)] else [])
    {
      ok := Statement();
      if ok {
        outbox := outbox + [Outbox.Row(StockFailed(order, reason), now, false)];
      }
    }

    /** The use case. A refusal is reported as such only once its stock.failed row is stored;
        only then, and on a reservation, do the tables change at all. */
    method ReserveStock(order: OrderId, items: seq<Item>, now: int) returns (r: Reply)
      modifies this`stock, this`processed, this`outbox, this`failures
      ensures failures == old(failures) + (if r.StoreError? then 1 else 0)
      ensures r.Done? || r.AlreadyProcessed? ==> (Db(), r) == ReserveTx(old(Db()), order, items, now)
      ensures r.Rejected? ==> (old(Db()), r) == ReserveTx(old(Db()), order, items, now)
      ensures r.Rejected? && (r.error.Insufficient? || r.error.NotFound?) ==>
                Db() == old(Db()).(outbox := old(outbox) + [Outbox.Row(StockFailed(order, r.error), now, false)])
      ensures r.AlreadyProcessed? || r.StoreError? || (r.Rejected? && r.error.NotPositive?) ==> Db() == old(Db())
    {
      r := ReserveAll(order, items, now);
      if r.Rejected? && IsRefusal(r.error) {
        var ok := RecordFailure(order, r.error, now);
        if !ok {
          return StoreError;
        }
      }
    }

    /** The consumer. Once it commits the offset of a readable message, the order has its
        verdict in the outbox: it was processed before, or it has just been reserved, which is
        so if every line is positive and the sums are in stock, or else the refusal of the
        first line at fault is recorded and stock is as before. It does not commit only when a
        statement failed or a new order has a line that is not positive, and then nothing has
        changed. */
    method HandleMessage(msg: Message, now: int) returns (commitOffset: bool)
      requires Valid()
      modifies this`stock, this`processed, this`outbox, this`failures
      ensures Valid() && failures >= old(failures)
      ensures !commitOffset ==>
                || failures > old(failures)
                || (&& msg.OrderCreated?
                    && (forall i | 0 <= i < |old(processed)| :: old(processed)[i].order != msg.order)
                    && exists i :: 0 <= i < |msg.items| && msg.items[i].qty <= 0)
      ensures commitOffset ==> failures == old(failures)
      ensures !commitOffset || msg.Malformed? ==> Db() == old(Db())
      ensures msg.Malformed? ==> commitOffset
      ensures commitOffset && msg.OrderCreated? && IsProcessed(old(processed), msg.order) ==>
                Db() == old(Db()) && Outbox.HasEvent(outbox, StockReserved(msg.order))
      ensures commitOffset && msg.OrderCreated? && !IsProcessed(old(processed), msg.order) ==>
                if AllPositive(msg.items) && AllExist(old(stock), msg.items) && Fits(old(stock), msg.items)
                then Db() == Tables(Deducted(old(stock), msg.items), old(processed) + [Entry(msg.order, msg.items)],
                                    old(outbox) + [Outbox.Row(StockReserved(msg.order), now, false)])
                else exists e: Error, i :: (e.Insufficient? || e.NotFound?)
                       && (CheckFault(old(stock), msg.items, i, e) || ApplyFault(old(stock), msg.items, i, e))
                       && Db() == old(Db()).(outbox := outbox)
                       && outbox == old(outbox) + [Outbox.Row(StockFailed(msg.order, e), now, false)]
    {
      if msg.Malformed? {
        return true;
      }
      DecideMeetsSpec(stock, msg.items);
      ghost var before := Db();
      var r := ReserveStock(msg.order, msg.items, now);
      assert forall i | 0 <= i < |before.outbox| :: outbox[i] == before.outbox[i];
      match r {
        case Done =>
          assert outbox[|before.outbox|].msg == StockReserved(msg.order);
          commitOffset := true;
        case AlreadyProcessed =>
          commitOffset := true;
        case Rejected(e) =>
          RejectionHasFault(before.stock, msg.items);
          commitOffset := IsRefusal(e);
        case StoreError =>
          commitOffset := false;
      }
    }

    /** The other processes' turn. */
    method Interference(held: seq<nat>)
      modifies this`stock, this`processed, this`outbox
      ensures Rely(old(Db()), Db(), held)
    {
    }

    /** The outbox worker, with every other process free to run between any two statements;
        `at` is the state of the tables when the batch ends. Whatever it published stays
        published; the rows become SENT only if the whole batch went through. */
    method ProcessBatch(locked: set<nat>, limit: nat) returns (ok: bool, ids: seq<nat>, ghost at: Tables)
      modifies this, publisher
      ensures if ok then failures == old(failures) && publisher.failures == old(publisher.failures)
              else failures + publisher.failures == old(failures + publisher.failures) + 1
      ensures batches == old(batches) + (if ok then [ids] else [])
      ensures Outbox.IsBatch(old(outbox), locked, limit, ids)
      ensures Rely(old(Db()), at, ids)
      ensures Db() == if ok then at.(outbox := Outbox.MarkSent(at.outbox, ids)) else at
      ensures old(publisher.log) <= publisher.log <= old(publisher.log) + Outbox.Announced(old(outbox), ids)
      ensures ok ==> publisher.log == old(publisher.log) + Outbox.Announced(old(outbox), ids)
    {
      hide Outbox.IsBatch, Outbox.Pending;
      ids := Outbox.FetchPending(outbox, locked, limit);
      var fetched := outbox;
      var marked: seq<nat> := [];
      at := Db();
      for i := 0 to |ids|
        invariant Db() == at && Rely(old(Db()), at, ids)
        invariant marked == ids[..i] && batches == old(batches)
        invariant failures == old(failures) && publisher.failures == old(publisher.failures)
        invariant publisher.log == old(publisher.log) + Outbox.Announced(fetched, ids[..i])
      {
        Outbox.AnnounceOne(fetched, ids, i);
        ok := publisher.Publish(ids[i], fetched[ids[i]].msg);
        if !ok {
          return;
        }
        ghost var before := at;
        Interference(ids);
        at := Db();
        RelyTransitive(old(Db()), before, at, ids);
        ok := Statement();
        if !ok {
          return;
        }
        marked := marked + [ids[i]];
      }
      assert ids[..|ids|] == ids;
      ghost var before := at;
      Interference(ids);
      at := Db();
      RelyTransitive(old(Db()), before, at, ids);
      ok := Statement();
      if ok {
        outbox := Outbox.MarkSent(outbox, marked);
        batches := batches + [ids];
      }
    }
  }
}
