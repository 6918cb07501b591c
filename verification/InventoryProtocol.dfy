/** The inventory service with any number of ReserveAll transactions and outbox workers
    interleaved statement by statement. A transaction sees its own writes only; others see
    them when it commits. FOR UPDATE locks a row until the transaction ends, and a blocked
    lock request reads the row as committed by then. */
module InventoryProtocol {
  import opened Common
  import opened Reservation
  import opened InventoryRepo
  import opened Runs
  import Outbox

  /** One ReserveStock call in progress. */
  datatype Tx =
    | Locking(order: OrderId, items: seq<Item>, read: Table)
      // passed the EXISTS check; `read` holds the rows locked so far
    | Writing(order: OrderId, items: seq<Item>, read: Table, local: Table, k: nat)
      // passed the check loop; k items applied, `local` being its own view of the locked rows
    | Claimed(order: OrderId, items: seq<Item>, read: Table, local: Table)
      // inserted its processed_events row, not yet committed
    | Refusing(order: OrderId, items: seq<Item>, error: Error)
      // rolled back; the call to RecordFailure is still to come

  datatype State = State(stock: Table, processed: seq<Entry>, outbox: Outbox.State<StockEvent>, txs: map<nat, Tx>)

  /** `serial`: calls for one order do not overlap (keyed partitions, sequential consumer). */
  datatype Config = Config(init: Table, serial: bool, batchSize: nat)

  datatype Action =
    | Check(t: nat, order: OrderId, items: seq<Item>)
    | Lock(t: nat, sku: Sku)
    | CheckItems(t: nat)
    | Write(t: nat)
    | Claim(t: nat)
    | CommitTx(t: nat, now: int)
    | RecordFailure(t: nat, now: int)
    | Drop(t: nat)
    | Fetch(w: nat, ids: seq<nat>)
    | Publish(w: nat)
    | CommitBatch(w: nat)
    | AbortBatch(w: nat)

  predicate InTx(tx: Tx) {
    !tx.Refusing?
  }

  predicate Holds(s: State, t: nat, sku: Sku) {
    t in s.txs && InTx(s.txs[t]) && sku in s.txs[t].read
  }

  predicate Mentions(items: seq<Item>, sku: Sku) {
    exists i :: 0 <= i < |items| && items[i].sku == sku
  }

  function Init(c: Config): State {
    State(c.init, [], Outbox.Empty(), map[])
  }

  ghost predicate Enabled(c: Config, s: State, a: Action) {
    match a
    case Check(t, order, _) =>
      && t !in s.txs
      && !IsProcessed(s.processed, order)
      && (c.serial ==> forall u | u in s.txs :: s.txs[u].order != order)
    case Lock(t, sku) =>
      && t in s.txs && s.txs[t].Locking?
      && sku in s.stock && Mentions(s.txs[t].items, sku) && sku !in s.txs[t].read
      && forall u | u in s.txs :: !Holds(s, u, sku)
    case CheckItems(t) =>
      t in s.txs && s.txs[t].Locking? && s.txs[t].read.Keys == Selected(s.stock, s.txs[t].items).Keys
    case Write(t) =>
      && t in s.txs && s.txs[t].Writing?
      && s.txs[t].k < |s.txs[t].items| && s.txs[t].items[s.txs[t].k].sku in s.txs[t].local
    case Claim(t) =>
      && t in s.txs && s.txs[t].Writing? && s.txs[t].k == |s.txs[t].items|
      // an uncommitted row with the same key makes the INSERT wait
      && forall u | u in s.txs && s.txs[u].Claimed? :: s.txs[u].order != s.txs[t].order
    case CommitTx(t, _) => t in s.txs && s.txs[t].Claimed?
    case RecordFailure(t, _) => t in s.txs && s.txs[t].Refusing?
    case Drop(t) => t in s.txs
    case Fetch(w, ids) => Outbox.CanFetch(s.outbox, w, c.batchSize, ids)
    case Publish(w) => Outbox.CanPublish(s.outbox, w)
    case CommitBatch(w) => Outbox.CanCommit(s.outbox, w)
    case AbortBatch(w) => w in s.outbox.batches
  }

  function Ended(s: State, t: nat): State {
    s.(txs := s.txs - {t})
  }

  function Become(s: State, t: nat, tx: Tx): State {
    s.(txs := s.txs[t := tx])
  }

  ghost function Effect(c: Config, s: State, a: Action): State
    requires Enabled(c, s, a)
  {
    match a
    case Check(t, order, items) => Become(s, t, Locking(order, items, map[]))
    case Lock(t, sku) =>
      var tx := s.txs[t];
      Become(s, t, Locking(tx.order, tx.items, tx.read[sku := s.stock[sku]]))
    case CheckItems(t) =>
      var tx := s.txs[t];
      (match CheckLoop(tx.read, tx.items)
       case Some(e) => Become(s, t, Refusing(tx.order, tx.items, e))
       case None => Become(s, t, Writing(tx.order, tx.items, tx.read, tx.read, 0)))
    case Write(t) =>
      var tx := s.txs[t];
      var it := tx.items[tx.k];
      if it.qty <= 0 then Ended(s, t)
      else if tx.local[it.sku].available < it.qty then Become(s, t, Refusing(tx.order, tx.items, Insufficient))
      else Become(s, t, tx.(local := tx.local[it.sku := Take(tx.local[it.sku], it.qty)], k := tx.k + 1))
    case Claim(t) =>
      var tx := s.txs[t];
      if IsProcessed(s.processed, tx.order) then Ended(s, t)   // unique violation
      else Become(s, t, Claimed(tx.order, tx.items, tx.read, tx.local))
    case CommitTx(t, now) =>
      var tx := s.txs[t];
      State(s.stock + tx.local, s.processed + [Entry(tx.order, tx.items)],
            Outbox.Insert(s.outbox, StockReserved(tx.order), now), s.txs - {t})
    case RecordFailure(t, now) =>
      var tx := s.txs[t];
      Ended(s, t).(outbox := Outbox.Insert(s.outbox, StockFailed(tx.order, tx.error), now))
    case Drop(t) => Ended(s, t)
    case Fetch(w, ids) => s.(outbox := Outbox.Fetch(s.outbox, w, ids))
    case Publish(w) => s.(outbox := Outbox.Publish(s.outbox, w))
    case CommitBatch(w) => s.(outbox := Outbox.Commit(s.outbox, w))
    case AbortBatch(w) => s.(outbox := Outbox.Abort(s.outbox, w))
  }

  // ---------------------------------------------------------------------------
  // The ledger
  // ---------------------------------------------------------------------------

  /** The initial stock less every processed order, in commit order. */
  function Ledger(init: Table, processed: seq<Entry>): Table {
    if processed == [] then init
    else Deducted(Ledger(init, processed[..|processed| - 1]), processed[|processed| - 1].items)
  }

  /** Units of sku over all rows of processed_events. */
  function Sold(processed: seq<Entry>, sku: Sku): int {
    if processed == [] then 0
    else Sold(processed[..|processed| - 1], sku) + Demand(processed[|processed| - 1].items, sku)
  }

  predicate NonNegative(table: Table) {
    forall sku | sku in table :: table[sku].available >= 0 && table[sku].reserved >= 0
  }

  lemma {:induction false} LedgerIsSum(init: Table, processed: seq<Entry>)
    ensures Ledger(init, processed).Keys == init.Keys
    ensures forall sku | sku in init ::
              && Ledger(init, processed)[sku].available == init[sku].available - Sold(processed, sku)
              && Ledger(init, processed)[sku].reserved == init[sku].reserved + Sold(processed, sku)
  {
    if processed == [] {
    } else {
      LedgerIsSum(init, processed[..|processed| - 1]);
    }
  }

  // ---------------------------------------------------------------------------
  // What every step keeps
  // ---------------------------------------------------------------------------

  ghost predicate LocksOk(s: State) {
    && (forall t, sku | Holds(s, t, sku) ::
          Mentions(s.txs[t].items, sku) && sku in s.stock && s.txs[t].read[sku] == s.stock[sku])
    && (forall t, u, sku | Holds(s, t, sku) && Holds(s, u, sku) :: t == u)
  }

  /** What a transaction knows at its stage. */
  predicate Stage(stock: Table, processed: seq<Entry>, tx: Tx) {
    match tx
    case Writing(_, items, read, local, k) =>
      && read == Selected(stock, items) && local.Keys == read.Keys && k <= |items|
      && CheckLoop(read, items).None? && AllExist(read, items)
      && ApplyLoop(read, items) == ApplyLoop(local, items[k..])
    case Claimed(order, items, read, local) =>
      && read == Selected(stock, items) && local.Keys == read.Keys
      && Decide(read, items) == Reserved(local)
      && !IsProcessed(processed, order)
    case _ => true
  }

  ghost predicate StagesOk(s: State) {
    && (forall t | t in s.txs :: Stage(s.stock, s.processed, s.txs[t]))
    && (forall t, u | t in s.txs && u in s.txs && s.txs[t].Claimed? && s.txs[u].Claimed? ::
          s.txs[t].order == s.txs[u].order ==> t == u)
  }

  ghost predicate Unique(processed: seq<Entry>) {
    forall i, j | 0 <= i < j < |processed| :: processed[i].order != processed[j].order
  }

  /** One stock.reserved row for each processed order and no other. */
  ghost predicate ReservedRows(s: State) {
    var rows := s.outbox.rows;
    && (forall i, j | 0 <= i < j < |rows| && rows[i].msg.StockReserved? :: rows[i].msg != rows[j].msg)
    && (forall i | 0 <= i < |rows| && rows[i].msg.StockReserved? :: IsProcessed(s.processed, rows[i].msg.order))
    && (forall o | IsProcessed(s.processed, o) :: Outbox.HasEvent(rows, StockReserved(o)))
  }

  ghost predicate Inv(c: Config, s: State) {
    && LocksOk(s)
    && StagesOk(s)
    && Unique(s.processed)
    && s.stock == Ledger(c.init, s.processed)
    && (NonNegative(c.init) ==> NonNegative(s.stock))
    && ReservedRows(s)
    && Outbox.Inv(s.outbox)
  }

  /** A step of one transaction leaves the tables, and hence every other stage, alone. */
  lemma LocalStep(c: Config, s: State, t: nat, s': State)
    requires Inv(c, s)
    requires s'.stock == s.stock && s'.processed == s.processed && s'.txs - {t} == s.txs - {t}
    requires t in s'.txs ==> Stage(s'.stock, s'.processed, s'.txs[t])
    requires t in s'.txs && s'.txs[t].Claimed? ==>
               forall u | u in s.txs && s.txs[u].Claimed? && u != t :: s.txs[u].order != s'.txs[t].order
    ensures StagesOk(s')
  {
    forall u | u in s'.txs && u != t ensures u in s.txs && s'.txs[u] == s.txs[u] {
      assert u in s'.txs - {t};
    }
  }

  lemma LocalLocks(s: State, t: nat, s': State)
    requires LocksOk(s)
    requires s'.stock == s.stock && s'.txs - {t} == s.txs - {t}
    requires t in s'.txs && InTx(s'.txs[t]) ==>
               (t in s.txs && InTx(s.txs[t]) && s'.txs[t].items == s.txs[t].items && s'.txs[t].read == s.txs[t].read)
    ensures LocksOk(s')
  {
    forall u, sku | Holds(s', u, sku)
      ensures Holds(s, u, sku) && s'.txs[u].items == s.txs[u].items && s'.txs[u].read == s.txs[u].read
    {
      if u != t {
        assert u in s'.txs - {t};
        assert s.txs[u] == (s.txs - {t})[u];
      }
    }
  }

  lemma CheckKeepsInv(c: Config, s: State, a: Action)
    requires Inv(c, s) && a.Check? && Enabled(c, s, a)
    ensures Inv(c, Effect(c, s, a))
  {
    var s' := Effect(c, s, a);
    LocalStep(c, s, a.t, s');
    assert forall u, sku | Holds(s', u, sku) :: Holds(s, u, sku) && s'.txs[u] == s.txs[u];
  }

  lemma LockKeepsInv(c: Config, s: State, a: Action)
    requires Inv(c, s) && a.Lock? && Enabled(c, s, a)
    ensures Inv(c, Effect(c, s, a))
  {
    var s' := Effect(c, s, a);
    LocalStep(c, s, a.t, s');
    assert forall u, sku | Holds(s', u, sku) :: (u == a.t && sku == a.sku) || Holds(s, u, sku);
  }

  lemma CheckItemsKeepsInv(c: Config, s: State, a: Action)
    requires Inv(c, s) && a.CheckItems? && Enabled(c, s, a)
    ensures Inv(c, Effect(c, s, a))
  {
    var s' := Effect(c, s, a);
    var tx := s.txs[a.t];
    forall sku | sku in tx.read ensures tx.read[sku] == s.stock[sku] {
      assert Holds(s, a.t, sku);
    }
    assert tx.read == Selected(s.stock, tx.items);
    if CheckLoop(tx.read, tx.items).None? {
      CheckedItemsExist(tx.read, tx.items);
      assert tx.items[0..] == tx.items;
    }
    LocalStep(c, s, a.t, s');
    LocalLocks(s, a.t, s');
  }

  lemma WriteKeepsInv(c: Config, s: State, a: Action)
    requires Inv(c, s) && a.Write? && Enabled(c, s, a)
    ensures Inv(c, Effect(c, s, a))
  {
    var s' := Effect(c, s, a);
    var tx := s.txs[a.t];
    assert tx.items[tx.k..][1..] == tx.items[tx.k + 1..];
    LocalStep(c, s, a.t, s');
    LocalLocks(s, a.t, s');
  }

  lemma ClaimKeepsInv(c: Config, s: State, a: Action)
    requires Inv(c, s) && a.Claim? && Enabled(c, s, a)
    ensures Inv(c, Effect(c, s, a))
  {
    var s' := Effect(c, s, a);
    LocalStep(c, s, a.t, s');
    LocalLocks(s, a.t, s');
  }

  /** Serializability: at the moment it commits, an interleaved transaction does to the
      committed tables exactly what ReserveAll run alone would do then, and that succeeds. */
  lemma CommitIsReserveAll(c: Config, s: State, a: Action)
    requires Inv(c, s) && a.CommitTx? && Enabled(c, s, a)
    ensures var s' := Effect(c, s, a);
            ReserveTx(Tables(s.stock, s.processed, s.outbox.rows), s.txs[a.t].order, s.txs[a.t].items, a.now)
            == (Tables(s'.stock, s'.processed, s'.outbox.rows), Done)
  {
    var tx := s.txs[a.t];
    assert Stage(s.stock, s.processed, tx);
    DecideFrame(s.stock, tx.read, tx.items);
  }

  lemma DeductedStaysNonNegative(table: Table, items: seq<Item>)
    requires Decide(table, items).Reserved? && NonNegative(table)
    ensures NonNegative(Deducted(table, items))
  {
    DecideMeetsSpec(table, items);
    forall sku | sku in table ensures 0 <= Demand(items, sku) <= table[sku].available {
      DemandOfPositive(items, sku);
    }
  }

  lemma CommitKeepsTables(c: Config, s: State, a: Action)
    requires Inv(c, s) && a.CommitTx? && Enabled(c, s, a)
    ensures var s' := Effect(c, s, a);
            && s'.stock == Deducted(s.stock, s.txs[a.t].items)
            && s'.stock == Ledger(c.init, s'.processed)
            && (NonNegative(c.init) ==> NonNegative(s'.stock))
            && Unique(s'.processed)
  {
    var s' := Effect(c, s, a);
    var tx := s.txs[a.t];
    CommitIsReserveAll(c, s, a);
    DecideMeetsSpec(s.stock, tx.items);
    assert s'.processed[..|s.processed|] == s.processed;
    if NonNegative(c.init) {
      DeductedStaysNonNegative(s.stock, tx.items);
    }
    assert Stage(s.stock, s.processed, tx);
  }

  /** A commit changes only rows that the committing transaction holds, so nothing that
      another transaction has read goes stale. */
  lemma CommitKeepsReads(c: Config, s: State, a: Action, u: nat, sku: Sku)
    requires Inv(c, s) && a.CommitTx? && Enabled(c, s, a)
    ensures var s' := Effect(c, s, a);
            && s'.stock.Keys == s.stock.Keys
            && (Holds(s', u, sku) ==>
                  && Holds(s, u, sku) && s'.txs[u] == s.txs[u]
                  && sku in s.stock && s'.stock[sku] == s.stock[sku])
  {
    assert Stage(s.stock, s.processed, s.txs[a.t]);
    if Holds(Effect(c, s, a), u, sku) {
      assert Holds(s, u, sku);
      assert !Holds(s, a.t, sku);
    }
  }

  lemma CommitKeepsLocks(c: Config, s: State, a: Action)
    requires Inv(c, s) && a.CommitTx? && Enabled(c, s, a)
    ensures LocksOk(Effect(c, s, a))
  {
    var s' := Effect(c, s, a);
    forall u, sku | Holds(s', u, sku)
      ensures Holds(s, u, sku) && s'.txs[u] == s.txs[u] && sku in s'.stock && s'.stock[sku] == s.stock[sku]
    {
      CommitKeepsReads(c, s, a, u, sku);
    }
  }

  lemma CommitKeepsStage(c: Config, s: State, a: Action, u: nat)
    requires Inv(c, s) && a.CommitTx? && Enabled(c, s, a) && u in Effect(c, s, a).txs
    ensures u in s.txs && Effect(c, s, a).txs[u] == s.txs[u] && u != a.t
    ensures Stage(Effect(c, s, a).stock, Effect(c, s, a).processed, s.txs[u])
  {
    hide Outbox.Inv, ReservedRows, LocksOk, Unique, Ledger, NonNegative;
    var s' := Effect(c, s, a);
    var ux := s.txs[u];
    assert Stage(s.stock, s.processed, ux) && Stage(s.stock, s.processed, s.txs[a.t]);
    if ux.Writing? || ux.Claimed? {
      forall sku | sku in ux.read ensures s'.stock[sku] == s.stock[sku] {
        CommitKeepsReads(c, s, a, u, sku);
      }
      assert s'.stock.Keys == s.stock.Keys;
      assert Selected(s'.stock, ux.items) == Selected(s.stock, ux.items);
    }
  }

  lemma InsertEvent(rows: seq<Outbox.Row<StockEvent>>, row: Outbox.Row<StockEvent>, e: StockEvent)
    ensures Outbox.HasEvent(rows + [row], e) <==> Outbox.HasEvent(rows, e) || row.msg == e
  {
    var more := rows + [row];
    if row.msg == e {
      assert more[|rows|].msg == e;
    }
    if Outbox.HasEvent(rows, e) {
      var i :| 0 <= i < |rows| && rows[i].msg == e;
      assert more[i].msg == e;
    }
  }

  lemma InsertProcessed(processed: seq<Entry>, e: Entry, o: OrderId)
    ensures IsProcessed(processed + [e], o) <==> IsProcessed(processed, o) || e.order == o
  {
    var more := processed + [e];
    if e.order == o {
      assert more[|processed|].order == o;
    }
    if IsProcessed(processed, o) {
      var i :| 0 <= i < |processed| && processed[i].order == o;
      assert more[i].order == o;
    }
  }

  lemma CommitKeepsRows(c: Config, s: State, a: Action)
    requires Inv(c, s) && a.CommitTx? && Enabled(c, s, a)
    ensures ReservedRows(Effect(c, s, a))
  {
    var s' := Effect(c, s, a);
    var tx := s.txs[a.t];
    assert Stage(s.stock, s.processed, tx);
    forall o ensures IsProcessed(s'.processed, o) <==> IsProcessed(s.processed, o) || o == tx.order {
      InsertProcessed(s.processed, Entry(tx.order, tx.items), o);
    }
    forall e
      ensures Outbox.HasEvent(s'.outbox.rows, e) <==> Outbox.HasEvent(s.outbox.rows, e) || e == StockReserved(tx.order)
    {
      InsertEvent(s.outbox.rows, Outbox.Row(StockReserved(tx.order), a.now, false), e);
    }
  }

  lemma CommitTxKeepsInv(c: Config, s: State, a: Action)
    requires Inv(c, s) && a.CommitTx? && Enabled(c, s, a)
    ensures Inv(c, Effect(c, s, a))
  {
    hide ReservedRows, LocksOk, Stage;
    var s' := Effect(c, s, a);
    CommitKeepsTables(c, s, a);
    CommitKeepsLocks(c, s, a);
    CommitKeepsRows(c, s, a);
    forall u | u in s'.txs ensures u in s.txs && s'.txs[u] == s.txs[u] && Stage(s'.stock, s'.processed, s'.txs[u]) {
      CommitKeepsStage(c, s, a, u);
    }
    Outbox.InsertKeepsInv(s.outbox, StockReserved(s.txs[a.t].order), a.now);
  }

  lemma EndKeepsInv(c: Config, s: State, a: Action)
    requires Inv(c, s) && (a.RecordFailure? || a.Drop?) && Enabled(c, s, a)
    ensures Inv(c, Effect(c, s, a))
  {
    var s' := Effect(c, s, a);
    LocalStep(c, s, a.t, s');
    LocalLocks(s, a.t, s');
    if a.RecordFailure? {
      var e := StockFailed(s.txs[a.t].order, s.txs[a.t].error);
      Outbox.InsertKeepsInv(s.outbox, e, a.now);
      forall x ensures Outbox.HasEvent(s'.outbox.rows, x) <==> Outbox.HasEvent(s.outbox.rows, x) || x == e {
        InsertEvent(s.outbox.rows, Outbox.Row(e, a.now, false), x);
      }
    }
  }

  predicate IsWorkerStep(a: Action) {
    a.Fetch? || a.Publish? || a.CommitBatch? || a.AbortBatch?
  }

  lemma WorkerKeepsInv(c: Config, s: State, a: Action)
    requires Inv(c, s) && IsWorkerStep(a) && Enabled(c, s, a)
    ensures Inv(c, Effect(c, s, a))
  {
    var s' := Effect(c, s, a);
    match a {
      case Fetch(w, ids) => Outbox.FetchKeepsInv(s.outbox, w, c.batchSize, ids);
      case Publish(w) => Outbox.PublishKeepsInv(s.outbox, w);
      case CommitBatch(w) => Outbox.CommitKeepsInv(s.outbox, w);
      case AbortBatch(w) => Outbox.AbortKeepsInv(s.outbox, w);
    }
    forall e ensures Outbox.HasEvent(s'.outbox.rows, e) == Outbox.HasEvent(s.outbox.rows, e) {
      SameMessages(s.outbox.rows, s'.outbox.rows, e);
    }
    assert LocksOk(s') by {
      assert forall u, sku :: Holds(s', u, sku) == Holds(s, u, sku);
    }
  }

  lemma SameMessages(rows: seq<Outbox.Row<StockEvent>>, rows': seq<Outbox.Row<StockEvent>>, e: StockEvent)
    requires |rows| == |rows'| && forall i | 0 <= i < |rows| :: rows'[i].msg == rows[i].msg
    ensures Outbox.HasEvent(rows, e) == Outbox.HasEvent(rows', e)
  {
    if Outbox.HasEvent(rows, e) {
      var i :| 0 <= i < |rows| && rows[i].msg == e;
      assert rows'[i].msg == e;
    }
  }

  lemma StepKeepsInv(c: Config, s: State, a: Action)
    requires Inv(c, s) && Enabled(c, s, a)
    ensures Inv(c, Effect(c, s, a))
  {
    match a {
      case Check(_, _, _) => CheckKeepsInv(c, s, a);
      case Lock(_, _) => LockKeepsInv(c, s, a);
      case CheckItems(_) => CheckItemsKeepsInv(c, s, a);
      case Write(_) => WriteKeepsInv(c, s, a);
      case Claim(_) => ClaimKeepsInv(c, s, a);
      case CommitTx(_, _) => CommitTxKeepsInv(c, s, a);
      case RecordFailure(_, _) => EndKeepsInv(c, s, a);
      case Drop(_) => EndKeepsInv(c, s, a);
      case _ => WorkerKeepsInv(c, s, a);
    }
  }

  // ---------------------------------------------------------------------------
  // Verdicts
  // ---------------------------------------------------------------------------

  ghost predicate TxsAgree(s: State, demand: map<OrderId, seq<Item>>) {
    forall t | t in s.txs :: s.txs[t].order in demand && demand[s.txs[t].order] == s.txs[t].items
  }

  /** Each order is always asked for with the same items. */
  ghost predicate Agrees(s: State, demand: map<OrderId, seq<Item>>) {
    && TxsAgree(s, demand)
    && (forall i | 0 <= i < |s.processed| ::
          s.processed[i].order in demand && demand[s.processed[i].order] == s.processed[i].items)
    && (forall i | 0 <= i < |s.outbox.rows| :: s.outbox.rows[i].msg.order in demand)
  }

  /** A refusal that stands: the order has been reserved all the same, by another call under
      way at the time, or it would be refused again. */
  ghost predicate Stands(stock: Table, processed: seq<Entry>, order: OrderId, items: seq<Item>) {
    IsProcessed(processed, order) || Refused(stock, items)
  }

  ghost predicate TxVerdict(stock: Table, processed: seq<Entry>, tx: Tx) {
    tx.Refusing? ==> Stands(stock, processed, tx.order, tx.items)
  }

  ghost predicate RowVerdict(stock: Table, processed: seq<Entry>, demand: map<OrderId, seq<Item>>, msg: StockEvent) {
    msg.StockFailed? && msg.order in demand ==> Stands(stock, processed, msg.order, demand[msg.order])
  }

  /** Every refusal stands, recorded or about to be. */
  ghost predicate Verdicts(s: State, demand: map<OrderId, seq<Item>>) {
    && (forall t | t in s.txs :: TxVerdict(s.stock, s.processed, s.txs[t]))
    && (forall i | 0 <= i < |s.outbox.rows| :: RowVerdict(s.stock, s.processed, demand, s.outbox.rows[i].msg))
  }

  /** Calls for one order do not overlap: while one is under way, and once one has been
      refused, the order is not processed. */
  ghost predicate Separate(s: State) {
    && (forall t, u | t in s.txs && u in s.txs && s.txs[t].order == s.txs[u].order :: t == u)
    && (forall t | t in s.txs :: !IsProcessed(s.processed, s.txs[t].order))
    && (forall i | 0 <= i < |s.outbox.rows| && s.outbox.rows[i].msg.StockFailed? ::
          !IsProcessed(s.processed, s.outbox.rows[i].msg.order))
  }

  ghost predicate WasRefused(s: State, o: OrderId) {
    exists e :: Outbox.HasEvent(s.outbox.rows, StockFailed(o, e))
  }

  ghost predicate Asks(a: Action, demand: map<OrderId, seq<Item>>) {
    a.Check? ==> a.order in demand && demand[a.order] == a.items
  }

  lemma StepTxsAgree(c: Config, s: State, a: Action, demand: map<OrderId, seq<Item>>)
    requires TxsAgree(s, demand) && Enabled(c, s, a) && Asks(a, demand)
    ensures TxsAgree(Effect(c, s, a), demand)
  {
  }

  lemma StepAgrees(c: Config, s: State, a: Action, demand: map<OrderId, seq<Item>>)
    requires Agrees(s, demand) && Enabled(c, s, a) && Asks(a, demand)
    ensures Agrees(Effect(c, s, a), demand)
  {
    StepTxsAgree(c, s, a, demand);
    assert a.CommitTx? || a.RecordFailure? ==>
        s.txs[a.t].order in demand && demand[s.txs[a.t].order] == s.txs[a.t].items;
    hide TxsAgree;
  }

  /** The decision taken on the locked rows is the decision for the whole table. */
  lemma CheckRefusalIsRefusal(c: Config, s: State, a: Action)
    requires Inv(c, s) && a.CheckItems? && Enabled(c, s, a)
    requires CheckLoop(s.txs[a.t].read, s.txs[a.t].items).Some?
    ensures Refused(s.stock, s.txs[a.t].items)
  {
    var tx := s.txs[a.t];
    forall sku | sku in tx.read ensures tx.read[sku] == s.stock[sku] {
      assert Holds(s, a.t, sku);
    }
    assert tx.read == Selected(s.stock, tx.items);
    DecideFrame(s.stock, tx.read, tx.items);
    CheckRefuses(tx.read, tx.items);
  }

  lemma WriteRefusalIsRefusal(c: Config, s: State, a: Action)
    requires Inv(c, s) && a.Write? && Enabled(c, s, a)
    requires var tx := s.txs[a.t]; 0 < tx.items[tx.k].qty && tx.local[tx.items[tx.k].sku].available < tx.items[tx.k].qty
    ensures Refused(s.stock, s.txs[a.t].items)
  {
    var tx := s.txs[a.t];
    assert Stage(s.stock, s.processed, tx);
    assert tx.items[tx.k..][0] == tx.items[tx.k];
    DecideFrame(s.stock, tx.read, tx.items);
  }

  lemma CommitLowers(c: Config, s: State, a: Action)
    requires Inv(c, s) && a.CommitTx? && Enabled(c, s, a)
    ensures Lower(s.stock, Effect(c, s, a).stock)
    ensures !Refused(s.stock, s.txs[a.t].items)
  {
    var items := s.txs[a.t].items;
    CommitIsReserveAll(c, s, a);
    DecideMeetsSpec(s.stock, items);
    forall sku | sku in s.stock ensures Demand(items, sku) >= 0 {
      DemandOfPositive(items, sku);
    }
  }

  lemma LowerKeepsStanding(stock: Table, lower: Table, processed: seq<Entry>, e: Entry,
                           order: OrderId, items: seq<Item>)
    requires Stands(stock, processed, order, items) && Lower(stock, lower)
    ensures Stands(lower, processed + [e], order, items)
  {
    InsertProcessed(processed, e, order);
    if Refused(stock, items) {
      RefusalIsFinal(stock, lower, items);
    }
  }

  lemma CommitKeepsVerdicts(c: Config, s: State, a: Action, demand: map<OrderId, seq<Item>>)
    requires Inv(c, s) && Verdicts(s, demand) && a.CommitTx? && Enabled(c, s, a)
    ensures Verdicts(Effect(c, s, a), demand)
  {
    hide Stands;
    var s' := Effect(c, s, a);
    var e := Entry(s.txs[a.t].order, s.txs[a.t].items);
    CommitLowers(c, s, a);
    forall u | u in s'.txs ensures TxVerdict(s'.stock, s'.processed, s'.txs[u]) {
      var tx := s.txs[u];
      assert TxVerdict(s.stock, s.processed, tx);
      if tx.Refusing? {
        LowerKeepsStanding(s.stock, s'.stock, s.processed, e, tx.order, tx.items);
      }
    }
    forall i | 0 <= i < |s'.outbox.rows| ensures RowVerdict(s'.stock, s'.processed, demand, s'.outbox.rows[i].msg) {
      var msg := s'.outbox.rows[i].msg;
      if msg.StockFailed? && msg.order in demand {
        assert RowVerdict(s.stock, s.processed, demand, s.outbox.rows[i].msg);
        LowerKeepsStanding(s.stock, s'.stock, s.processed, e, msg.order, demand[msg.order]);
      }
    }
  }

  /** Every other step leaves stock and processed_events alone. */
  lemma LocalKeepsVerdicts(s: State, t: nat, s': State, demand: map<OrderId, seq<Item>>)
    requires Verdicts(s, demand)
    requires s'.stock == s.stock && s'.processed == s.processed && s'.txs - {t} == s.txs - {t}
    requires t in s'.txs ==> TxVerdict(s.stock, s.processed, s'.txs[t])
    requires forall i | 0 <= i < |s'.outbox.rows| :: RowVerdict(s.stock, s.processed, demand, s'.outbox.rows[i].msg)
    ensures Verdicts(s', demand)
  {
    forall u | u in s'.txs && u != t ensures u in s.txs && s'.txs[u] == s.txs[u] {
      assert u in s'.txs - {t};
    }
  }

  lemma CheckItemsKeepsVerdicts(c: Config, s: State, a: Action, demand: map<OrderId, seq<Item>>)
    requires Inv(c, s) && Verdicts(s, demand) && a.CheckItems? && Enabled(c, s, a)
    ensures Verdicts(Effect(c, s, a), demand)
  {
    var tx := s.txs[a.t];
    if CheckLoop(tx.read, tx.items).Some? {
      CheckRefusalIsRefusal(c, s, a);
    }
    LocalKeepsVerdicts(s, a.t, Effect(c, s, a), demand);
  }

  lemma WriteKeepsVerdicts(c: Config, s: State, a: Action, demand: map<OrderId, seq<Item>>)
    requires Inv(c, s) && Verdicts(s, demand) && a.Write? && Enabled(c, s, a)
    ensures Verdicts(Effect(c, s, a), demand)
  {
    var tx := s.txs[a.t];
    if 0 < tx.items[tx.k].qty && tx.local[tx.items[tx.k].sku].available < tx.items[tx.k].qty {
      WriteRefusalIsRefusal(c, s, a);
    }
    LocalKeepsVerdicts(s, a.t, Effect(c, s, a), demand);
  }

  lemma RecordKeepsVerdicts(c: Config, s: State, a: Action, demand: map<OrderId, seq<Item>>)
    requires Agrees(s, demand) && Verdicts(s, demand) && a.RecordFailure? && Enabled(c, s, a)
    ensures Verdicts(Effect(c, s, a), demand)
  {
    assert TxVerdict(s.stock, s.processed, s.txs[a.t]);
    LocalKeepsVerdicts(s, a.t, Effect(c, s, a), demand);
  }

  lemma QuietKeepsVerdicts(c: Config, s: State, a: Action, demand: map<OrderId, seq<Item>>)
    requires Verdicts(s, demand) && (a.Check? || a.Lock? || a.Claim? || a.Drop?) && Enabled(c, s, a)
    ensures Verdicts(Effect(c, s, a), demand)
  {
    LocalKeepsVerdicts(s, a.t, Effect(c, s, a), demand);
  }

  lemma WorkerKeepsVerdicts(c: Config, s: State, a: Action, demand: map<OrderId, seq<Item>>)
    requires Verdicts(s, demand) && IsWorkerStep(a) && Enabled(c, s, a)
    ensures Verdicts(Effect(c, s, a), demand)
  {
  }

  /** Whatever overlaps: stock only goes down, so a refused order stays refused. */
  lemma StepKeepsVerdicts(c: Config, s: State, a: Action, demand: map<OrderId, seq<Item>>)
    requires Inv(c, s) && Agrees(s, demand) && Verdicts(s, demand) && Enabled(c, s, a)
    ensures Verdicts(Effect(c, s, a), demand)
  {
    match a {
      case CheckItems(_) => CheckItemsKeepsVerdicts(c, s, a, demand);
      case Write(_) => WriteKeepsVerdicts(c, s, a, demand);
      case CommitTx(_, _) => CommitKeepsVerdicts(c, s, a, demand);
      case RecordFailure(_, _) => RecordKeepsVerdicts(c, s, a, demand);
      case Check(_, _, _) => QuietKeepsVerdicts(c, s, a, demand);
      case Lock(_, _) => QuietKeepsVerdicts(c, s, a, demand);
      case Claim(_) => QuietKeepsVerdicts(c, s, a, demand);
      case Drop(_) => QuietKeepsVerdicts(c, s, a, demand);
      case _ => WorkerKeepsVerdicts(c, s, a, demand);
    }
  }

  /** A reservation never follows a recorded refusal: it would have been refused too. */
  lemma NoCommitAfterRefusal(c: Config, s: State, a: Action, demand: map<OrderId, seq<Item>>)
    requires Inv(c, s) && Agrees(s, demand) && Verdicts(s, demand) && a.CommitTx? && Enabled(c, s, a)
    ensures !WasRefused(s, s.txs[a.t].order)
  {
    var tx := s.txs[a.t];
    CommitLowers(c, s, a);
    assert Stage(s.stock, s.processed, tx);
    forall e ensures !Outbox.HasEvent(s.outbox.rows, StockFailed(tx.order, e)) {
      forall i | 0 <= i < |s.outbox.rows| ensures s.outbox.rows[i].msg != StockFailed(tx.order, e) {
        assert RowVerdict(s.stock, s.processed, demand, s.outbox.rows[i].msg);
      }
    }
  }

  lemma CommitKeepsSeparate(c: Config, s: State, a: Action, demand: map<OrderId, seq<Item>>)
    requires Inv(c, s) && Agrees(s, demand) && Verdicts(s, demand) && Separate(s) && a.CommitTx? && Enabled(c, s, a)
    ensures Separate(Effect(c, s, a))
  {
    var s' := Effect(c, s, a);
    var tx := s.txs[a.t];
    NoCommitAfterRefusal(c, s, a, demand);
    forall o ensures IsProcessed(s'.processed, o) <==> IsProcessed(s.processed, o) || o == tx.order {
      InsertProcessed(s.processed, Entry(tx.order, tx.items), o);
    }
    forall i | 0 <= i < |s'.outbox.rows| && s'.outbox.rows[i].msg.StockFailed?
      ensures !IsProcessed(s'.processed, s'.outbox.rows[i].msg.order)
    {
      var msg := s.outbox.rows[i].msg;
      assert Outbox.HasEvent(s.outbox.rows, StockFailed(msg.order, msg.reason));
    }
  }

  lemma LocalKeepsSeparate(s: State, t: nat, s': State)
    requires Separate(s) && s'.processed == s.processed && s'.txs - {t} == s.txs - {t}
    requires t in s'.txs ==> !IsProcessed(s.processed, s'.txs[t].order)
    requires t in s'.txs ==> forall u | u in s.txs && u != t :: s.txs[u].order != s'.txs[t].order
    requires forall i | 0 <= i < |s'.outbox.rows| && s'.outbox.rows[i].msg.StockFailed? ::
               !IsProcessed(s.processed, s'.outbox.rows[i].msg.order)
    ensures Separate(s')
  {
    forall u | u in s'.txs && u != t ensures u in s.txs && s'.txs[u] == s.txs[u] {
      assert u in s'.txs - {t};
    }
  }

  lemma WorkerKeepsSeparate(c: Config, s: State, a: Action)
    requires Separate(s) && IsWorkerStep(a) && Enabled(c, s, a)
    ensures Separate(Effect(c, s, a))
  {
  }

  lemma CallKeepsSeparate(c: Config, s: State, a: Action)
    requires c.serial && Separate(s) && !a.CommitTx? && !IsWorkerStep(a) && Enabled(c, s, a)
    ensures Separate(Effect(c, s, a))
  {
    LocalKeepsSeparate(s, a.t, Effect(c, s, a));
  }

  lemma StepKeepsSeparate(c: Config, s: State, a: Action, demand: map<OrderId, seq<Item>>)
    requires Inv(c, s) && Agrees(s, demand) && Verdicts(s, demand) && Enabled(c, s, a)
    requires c.serial && Separate(s)
    ensures Separate(Effect(c, s, a))
  {
    if a.CommitTx? {
      CommitKeepsSeparate(c, s, a, demand);
    } else if IsWorkerStep(a) {
      WorkerKeepsSeparate(c, s, a);
    } else {
      CallKeepsSeparate(c, s, a);
    }
  }

  // ---------------------------------------------------------------------------
  // Runs
  // ---------------------------------------------------------------------------

  ghost function Protocol(c: Config): Machine<State, Action> {
    Machine(s => s == Init(c),
            (s, a) => Enabled(c, s, a),
            (s, a) => if Enabled(c, s, a) then Effect(c, s, a) else s)
  }

  lemma RunKeepsInv(c: Config, run: seq<State>)
    requires IsRun(Protocol(c), run)
    ensures Inv(c, run[|run| - 1])
  {
    forall s, a | Inv(c, s) && Enabled(c, s, a) ensures Inv(c, Effect(c, s, a)) {
      StepKeepsInv(c, s, a);
    }
    InvHolds(Protocol(c), s => Inv(c, s), run);
  }

  /** For every interleaving, overlapping calls for one order included: each order is
      processed at most once, and each SKU has moved exactly the sum of the processed
      orders' quantities from available to reserved, neither ever below zero. */
  lemma LedgerHolds(c: Config, run: seq<State>)
    requires IsRun(Protocol(c), run) && NonNegative(c.init)
    ensures var s := run[|run| - 1];
            && Unique(s.processed)
            && s.stock.Keys == c.init.Keys
            && NonNegative(s.stock)
            && forall sku | sku in c.init ::
                 && s.stock[sku].available == c.init[sku].available - Sold(s.processed, sku)
                 && s.stock[sku].reserved == c.init[sku].reserved + Sold(s.processed, sku)
  {
    RunKeepsInv(c, run);
    LedgerIsSum(c.init, run[|run| - 1].processed);
  }

  /** Consequently no column leaves the range of a 32-bit INT if the initial totals fit. */
  lemma ColumnsFit(c: Config, run: seq<State>, max: int)
    requires IsRun(Protocol(c), run) && NonNegative(c.init)
    requires forall sku | sku in c.init :: c.init[sku].available + c.init[sku].reserved <= max
    ensures run[|run| - 1].stock.Keys == c.init.Keys
    ensures forall sku | sku in c.init ::
              var row := run[|run| - 1].stock[sku]; 0 <= row.available <= max && 0 <= row.reserved <= max
  {
    LedgerHolds(c, run);
  }

  lemma BatchMarksItsRows(c: Config, s: State, a: Action, held: seq<nat>)
    requires Inv(c, s) && Enabled(c, s, a) && a.CommitBatch?
    requires forall r | r in held :: r !in s.outbox.batches[a.w].ids
    ensures Outbox.Grows(s.outbox.rows, Effect(c, s, a).outbox.rows, held)
  {
  }

  lemma StepGrowsOutbox(c: Config, s: State, a: Action, held: seq<nat>)
    requires Inv(c, s) && Enabled(c, s, a)
    requires a.CommitBatch? ==> forall r | r in held :: r !in s.outbox.batches[a.w].ids
    ensures Outbox.Grows(s.outbox.rows, Effect(c, s, a).outbox.rows, held)
  {
    if a.CommitBatch? {
      BatchMarksItsRows(c, s, a, held);
    } else {
      assert s.outbox.rows <= Effect(c, s, a).outbox.rows;
    }
  }

  /** While a worker's batch is open, every other step of every process is one that
      ProcessBatch relies on: its rows stay, and stock only goes down. */
  lemma OpenBatchIsUndisturbed(c: Config, run: seq<State>, a: Action, w: nat)
    requires IsRun(Protocol(c), run) && Enabled(c, run[|run| - 1], a)
    requires w in run[|run| - 1].outbox.batches && a != CommitBatch(w)
    ensures var s, s' := run[|run| - 1], Effect(c, run[|run| - 1], a);
            Rely(Tables(s.stock, s.processed, s.outbox.rows), Tables(s'.stock, s'.processed, s'.outbox.rows),
                 s.outbox.batches[w].ids)
  {
    var s := run[|run| - 1];
    RunKeepsInv(c, run);
    if a.CommitTx? {
      CommitLowers(c, s, a);
    } else if a.CommitBatch? {
      forall r | r in s.outbox.batches[w].ids ensures r !in s.outbox.batches[a.w].ids {
        assert a.w != w;
      }
    }
    StepGrowsOutbox(c, s, a, s.outbox.batches[w].ids);
  }

  /** Delivery accounting of the inventory's own outbox. */
  lemma DeliveryAccounting(c: Config, run: seq<State>, r: nat)
    requires IsRun(Protocol(c), run)
    ensures Outbox.Accounted(run[|run| - 1].outbox, r)
  {
    RunKeepsInv(c, run);
    Outbox.InvAccounts(run[|run| - 1].outbox, r);
  }

  /** The late duplicate: a second transaction for a processed order can take no step that
      ends in a commit; its INSERT violates the primary key. */
  lemma LateDuplicateAborts(c: Config, run: seq<State>, t: nat)
    requires IsRun(Protocol(c), run)
    requires var s := run[|run| - 1]; t in s.txs && InTx(s.txs[t]) && IsProcessed(s.processed, s.txs[t].order)
    ensures var s := run[|run| - 1];
            && !s.txs[t].Claimed?
            && (Enabled(c, s, Claim(t)) ==> t !in Effect(c, s, Claim(t)).txs)
  {
    RunKeepsInv(c, run);
    assert Stage(run[|run| - 1].stock, run[|run| - 1].processed, run[|run| - 1].txs[t]);
  }

  /** One call that has passed the EXISTS check takes its only row and decides. */
  lemma LockAndDecide(c: Config, s: State, t: nat, items: seq<Item>, sku: Sku)
    requires items == [Item(sku, 1)] && sku in s.stock
    requires t in s.txs && s.txs[t] == Locking(1, items, map[]) && forall u | u in s.txs :: !Holds(s, u, sku)
    ensures var actions := [Lock(t, sku), CheckItems(t)];
            && IsPath(Protocol(c), s, actions)
            && End(Protocol(c), s, actions) ==
               Become(s, t, if s.stock[sku].available < 1 then Refusing(1, items, Insufficient)
                            else Writing(1, items, map[sku := s.stock[sku]], map[sku := s.stock[sku]], 0))
  {
    var read: Table := map[sku := s.stock[sku]];
    assert items[0].sku == sku;
    assert Mentions(items, sku);
    var s1 := Become(s, t, Locking(1, items, read));
    assert Effect(c, s, Lock(t, sku)) == s1;
    assert Selected(s.stock, items) == read;
    assert items[1..] == [];
    var tx := if s.stock[sku].available < 1 then Refusing(1, items, Insufficient) else Writing(1, items, read, read, 0);
    assert CheckLoop(read, items) == if s.stock[sku].available < 1 then Some(Insufficient) else None;
    assert Effect(c, s1, CheckItems(t)) == Become(s1, t, tx);
    assert s1.txs[t := tx] == s.txs[t := tx];
    Two(c, s, Lock(t, sku), CheckItems(t));
  }

  lemma One(c: Config, s: State, a: Action)
    requires Enabled(c, s, a)
    ensures IsPath(Protocol(c), s, [a]) && End(Protocol(c), s, [a]) == Effect(c, s, a)
  {
    var m, s' := Protocol(c), Effect(c, s, a);
    assert m.effect(s, a) == s';
    assert IsPath(m, s', []) && End(m, s', []) == s';
    assert [a][1..] == [];
  }

  lemma Two(c: Config, s: State, a: Action, b: Action)
    requires Enabled(c, s, a) && Enabled(c, Effect(c, s, a), b)
    ensures IsPath(Protocol(c), s, [a, b]) && End(Protocol(c), s, [a, b]) == Effect(c, Effect(c, s, a), b)
  {
    One(c, s, a);
    One(c, Effect(c, s, a), b);
    PathAppend(Protocol(c), s, [a], [b]);
    assert [a] + [b] == [a, b];
  }

  /** A call that has decided to reserve its only item applies it and commits. */
  lemma ApplyAndCommit(c: Config, s: State, t: nat, items: seq<Item>, sku: Sku, before: Table, after: Table)
    requires items == [Item(sku, 1)] && s.processed == []
    requires t in s.txs && s.txs[t] == Writing(1, items, before, before, 0)
    requires forall u | u in s.txs :: !s.txs[u].Claimed?
    requires sku in before && before[sku].available >= 1 && after == before[sku := Take(before[sku], 1)]
    ensures var actions := [Write(t), Claim(t)] + [CommitTx(t, 0)];
            && IsPath(Protocol(c), s, actions)
            && End(Protocol(c), s, actions) ==
               State(s.stock + after, [Entry(1, items)], Outbox.Insert(s.outbox, StockReserved(1), 0), s.txs - {t})
  {
    var s1 := Become(s, t, Writing(1, items, before, after, 1));
    assert Effect(c, s, Write(t)) == s1;
    var s2 := Become(s1, t, Claimed(1, items, before, after));
    assert Effect(c, s1, Claim(t)) == s2;
    Two(c, s, Write(t), Claim(t));
    One(c, s2, CommitTx(t, 0));
    assert s2.txs - {t} == s.txs - {t};
    PathAppend(Protocol(c), s, [Write(t), Claim(t)], [CommitTx(t, 0)]);
  }

  const UNIT: Table := map["sku" := Row(1, 0, 1)]
  const GONE: Table := map["sku" := Row(0, 1, 2)]

  /** Two calls for one order pass the EXISTS check; the first takes the last unit. */
  const FIRST: seq<Action> :=
    [Check(1, 1, ONE_UNIT), Check(2, 1, ONE_UNIT)] + [Lock(1, "sku"), CheckItems(1)]
    + ([Write(1), Claim(1)] + [CommitTx(1, 0)])

  /** The second is refused, and says so. */
  const SECOND: seq<Action> := [Lock(2, "sku"), CheckItems(2)] + [RecordFailure(2, 1)]

  function Won(): State {
    State(GONE, [Entry(1, ONE_UNIT)], Outbox.Insert(Outbox.Empty(), StockReserved(1), 0),
          map[2 := Locking(1, ONE_UNIT, map[])])
  }

  function Both(): State {
    State(GONE, [Entry(1, ONE_UNIT)],
          Outbox.Insert(Outbox.Insert(Outbox.Empty(), StockReserved(1), 0), StockFailed(1, Insufficient), 1), map[])
  }

  lemma FirstCallDecides(c: Config)
    requires c == Config(UNIT, false, 20)
    ensures var actions := [Check(1, 1, ONE_UNIT), Check(2, 1, ONE_UNIT)] + [Lock(1, "sku"), CheckItems(1)];
            && IsPath(Protocol(c), Init(c), actions)
            && End(Protocol(c), Init(c), actions) ==
               Init(c).(txs := map[1 := Writing(1, ONE_UNIT, UNIT, UNIT, 0), 2 := Locking(1, ONE_UNIT, map[])])
  {
    var s := Init(c).(txs := map[1 := Locking(1, ONE_UNIT, map[]), 2 := Locking(1, ONE_UNIT, map[])]);
    Two(c, Init(c), Check(1, 1, ONE_UNIT), Check(2, 1, ONE_UNIT));
    assert End(Protocol(c), Init(c), [Check(1, 1, ONE_UNIT), Check(2, 1, ONE_UNIT)]) == s;
    LockAndDecide(c, s, 1, ONE_UNIT, "sku");
    assert map["sku" := s.stock["sku"]] == UNIT;
    var tx := Writing(1, ONE_UNIT, UNIT, UNIT, 0);
    assert s.txs[1 := tx] == map[1 := tx, 2 := Locking(1, ONE_UNIT, map[])];
    PathAppend(Protocol(c), Init(c), [Check(1, 1, ONE_UNIT), Check(2, 1, ONE_UNIT)], [Lock(1, "sku"), CheckItems(1)]);
  }

  lemma FirstCallWins(c: Config)
    requires c == Config(UNIT, false, 20)
    ensures IsPath(Protocol(c), Init(c), FIRST) && End(Protocol(c), Init(c), FIRST) == Won()
  {
    FirstCallDecides(c);
    var actions := [Check(1, 1, ONE_UNIT), Check(2, 1, ONE_UNIT)] + [Lock(1, "sku"), CheckItems(1)];
    var s := End(Protocol(c), Init(c), actions);
    assert GONE == UNIT["sku" := Take(UNIT["sku"], 1)];
    ApplyAndCommit(c, s, 1, ONE_UNIT, "sku", UNIT, GONE);
    assert s.stock + GONE == GONE;
    assert s.txs - {1} == map[2 := Locking(1, ONE_UNIT, map[])];
    PathAppend(Protocol(c), Init(c), actions, [Write(1), Claim(1)] + [CommitTx(1, 0)]);
  }

  lemma SecondCallIsRefused(c: Config)
    requires c == Config(UNIT, false, 20)
    ensures IsPath(Protocol(c), Won(), SECOND) && End(Protocol(c), Won(), SECOND) == Both()
  {
    LockAndDecide(c, Won(), 2, ONE_UNIT, "sku");
    var s := Become(Won(), 2, Refusing(1, ONE_UNIT, Insufficient));
    One(c, s, RecordFailure(2, 1));
    assert s.txs - {2} == map[];
    PathAppend(Protocol(c), Won(), [Lock(2, "sku"), CheckItems(2)], [RecordFailure(2, 1)]);
  }

  /** Without the non-overlap assumption both verdicts can be recorded for one order: the
      second call, still under way when the first commits, is refused. */
  lemma OverlapCanGiveBothVerdicts(c: Config)
    requires c == Config(UNIT, false, 20)
    ensures IsPath(Protocol(c), Init(c), FIRST + SECOND)
    ensures var s := End(Protocol(c), Init(c), FIRST + SECOND);
            && s == Both()
            && Outbox.HasEvent(s.outbox.rows, StockReserved(1))
            && Outbox.HasEvent(s.outbox.rows, StockFailed(1, Insufficient))
  {
    FirstCallWins(c);
    SecondCallIsRefused(c);
    PathAppend(Protocol(c), Init(c), FIRST, SECOND);
    var rows := Both().outbox.rows;
    assert rows[0].msg == StockReserved(1) && rows[1].msg == StockFailed(1, Insufficient);
  }

  /** Both are published by one batch. */
  const PUBLISH: seq<Action> := [Fetch(0, [0, 1])] + [Publish(0), Publish(0)]

  const TOLD: seq<Outbox.Pub<StockEvent>> :=
    [Outbox.Pub(0, StockReserved(1)), Outbox.Pub(1, StockFailed(1, Insufficient))]

  function Publishing(next: nat): State
    requires next <= 2
  {
    Both().(outbox := Both().outbox.(batches := map[0 := Outbox.Batch([0, 1], next)], log := TOLD[..next]))
  }

  lemma FetchBoth(c: Config)
    requires c == Config(UNIT, false, 20)
    ensures Enabled(c, Both(), Fetch(0, [0, 1])) && Effect(c, Both(), Fetch(0, [0, 1])) == Publishing(0)
  {
    assert Outbox.Locked(Both().outbox) == {};
    assert Outbox.IsBatch(Both().outbox.rows, {}, 20, [0, 1]);
  }

  lemma PublishNext(c: Config, next: nat)
    requires next < 2
    ensures Enabled(c, Publishing(next), Publish(0)) && Effect(c, Publishing(next), Publish(0)) == Publishing(next + 1)
  {
    var b := Outbox.Batch([0, 1], next);
    assert map[0 := b][0 := b.(next := next + 1)] == map[0 := b.(next := next + 1)];
    assert TOLD[..next + 1] == TOLD[..next] + [TOLD[next]];
    assert b.ids[next] == next;
  }

  lemma CanPublishBoth(c: Config)
    requires c == Config(UNIT, false, 20)
    ensures IsPath(Protocol(c), Both(), PUBLISH) && End(Protocol(c), Both(), PUBLISH) == Publishing(2)
    ensures Publishing(2).outbox.log == TOLD
  {
    assert TOLD[..2] == TOLD;
    hide Enabled, Effect, IsPath, End, Publishing, Both;
    FetchBoth(c);
    PublishNext(c, 0);
    PublishNext(c, 1);
    One(c, Both(), Fetch(0, [0, 1]));
    Two(c, Publishing(0), Publish(0), Publish(0));
    PathAppend(Protocol(c), Both(), [Fetch(0, [0, 1])], [Publish(0), Publish(0)]);
  }
}
