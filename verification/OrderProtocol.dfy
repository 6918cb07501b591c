/** The order service with any number of outbox workers and UpdateOrderStatus calls
    interleaved: creations, polling, publications, commits, rollbacks, reads and
    compare-and-swaps in any order, with crashes anywhere. */
module OrderProtocol {
  import opened Common
  import opened Reservation
  import opened OrderService
  import opened Runs
  import Outbox

  /** An UpdateOrderStatus call: the row it last read (if it has read one since its last lost
      compare-and-swap) and how many swaps it has lost. */
  datatype Call = Call(order: OrderId, target: Status, reason: Error, lost: nat, seen: Option<OrderRow>)

  datatype State = State(orders: map<OrderId, OrderRow>, outbox: Outbox.State<Event>, calls: map<nat, Call>)

  const MAX_RETRIES: nat := 3

  datatype Action =
    | Create(order: OrderId, items: seq<Item>, now: int)
    | Start(c: nat, order: OrderId, target: Status, reason: Error)
    | Read(c: nat)
    | Swap(c: nat, now: int)
    | Drop(c: nat)
    | Fetch(w: nat, ids: seq<nat>)
    | Publish(w: nat)
    | CommitBatch(w: nat)
    | AbortBatch(w: nat)

  function Init(): State {
    State(map[], Outbox.Empty(), map[])
  }

  ghost predicate Enabled(batchSize: nat, s: State, a: Action) {
    match a
    case Create(o, items, _) => o !in s.orders && items != []
    case Start(c, _, target, _) => c !in s.calls && Terminal(target)
    case Read(c) => c in s.calls && s.calls[c].seen.None?
    case Swap(c, _) => c in s.calls && s.calls[c].seen.Some?
    case Drop(c) => c in s.calls
    case Fetch(w, ids) => Outbox.CanFetch(s.outbox, w, batchSize, ids)
    case Publish(w) => Outbox.CanPublish(s.outbox, w)
    case CommitBatch(w) => Outbox.CanCommit(s.outbox, w)
    case AbortBatch(w) => w in s.outbox.batches
  }

  function Ended(s: State, c: nat): State {
    s.(calls := s.calls - {c})
  }

  /** The compare-and-swap finds the version it read. */
  predicate Wins(s: State, call: Call)
    requires call.seen.Some?
  {
    call.order in s.orders && s.orders[call.order].version == call.seen.value.version
  }

  function CallEvent(call: Call): Event {
    if call.target == Confirmed then OrderConfirmed(call.order) else OrderCancelled(call.order, call.reason)
  }

  /** The tables that the service's transactions are about. */
  function Db(s: State): Tables {
    Tables(s.orders, s.outbox.rows)
  }

  function Write(s: State, t: Tables): State {
    s.(orders := t.orders, outbox := s.outbox.(rows := t.outbox))
  }

  ghost function Effect(batchSize: nat, s: State, a: Action): State
    requires Enabled(batchSize, s, a)
  {
    match a
    case Create(o, items, now) => Write(s, SaveTx(Db(s), o, items, now))
    case Start(c, o, target, reason) => s.(calls := s.calls[c := Call(o, target, reason, 0, None)])
    case Read(c) =>
      var call := s.calls[c];
      if call.order in s.orders && call.target in AllowedTransitions(s.orders[call.order].status)
      then s.(calls := s.calls[c := call.(seen := Some(s.orders[call.order]))])
      else Ended(s, c)
    case Swap(c, now) =>
      var call := s.calls[c];
      if Wins(s, call) then
        Ended(Write(s, StatusTx(Db(s), call.order, call.target, CallEvent(call), now)), c)
      else if call.lost + 1 < MAX_RETRIES then s.(calls := s.calls[c := call.(lost := call.lost + 1, seen := None)])
      else Ended(s, c)
    case Drop(c) => Ended(s, c)
    case Fetch(w, ids) => s.(outbox := Outbox.Fetch(s.outbox, w, ids))
    case Publish(w) => s.(outbox := Outbox.Publish(s.outbox, w))
    case CommitBatch(w) =>
      s.(orders := Awaited(s.orders, s.outbox.rows, s.outbox.batches[w].ids), outbox := Outbox.Commit(s.outbox, w))
    case AbortBatch(w) => s.(outbox := Outbox.Abort(s.outbox, w))
  }

  // ---------------------------------------------------------------------------
  // What every step keeps
  // ---------------------------------------------------------------------------

  /** Row r of the outbox announces that order o was created, or that it ended. */
  predicate IsCreation(rows: seq<Outbox.Row<Event>>, r: int, o: OrderId) {
    0 <= r < |rows| && rows[r].msg.OrderCreated? && rows[r].msg.order == o
  }

  predicate IsEnding(rows: seq<Outbox.Row<Event>>, r: int, o: OrderId) {
    0 <= r < |rows| && !rows[r].msg.OrderCreated? && rows[r].msg.order == o
  }

  predicate Says(e: Event, row: OrderRow) {
    match e
    case OrderCreated(_, items) => items == row.items
    case OrderConfirmed(_) => row.status == Confirmed
    case OrderCancelled(_, _) => row.status == Cancelled
  }

  /** The outbox mirrors the status of order o. */
  ghost predicate Mirrors(rows: seq<Outbox.Row<Event>>, o: OrderId, row: OrderRow) {
    && RowOk(row)
    && (exists r :: IsCreation(rows, r, o))
    && (forall r | IsCreation(rows, r, o) :: (rows[r].sent <==> row.status != Created))
    && (Terminal(row.status) ==> exists r :: IsEnding(rows, r, o))
  }

  /** No two rows about one order say the same kind of thing, and each says what is so. */
  ghost predicate RowsTrue(s: State) {
    var rows := s.outbox.rows;
    && (forall r | 0 <= r < |rows| :: rows[r].msg.order in s.orders && Says(rows[r].msg, s.orders[rows[r].msg.order]))
    && (forall q, r, o | IsCreation(rows, q, o) && IsCreation(rows, r, o) :: q == r)
    && (forall q, r, o | IsEnding(rows, q, o) && IsEnding(rows, r, o) :: q == r)
  }

  ghost predicate CallOk(s: State, call: Call) {
    && Terminal(call.target)
    && call.lost <= 1
    && (call.lost == 1 ==> call.order in s.orders && Terminal(s.orders[call.order].status))
    && (call.seen.Some? ==>
          && call.lost == 0
          && call.seen.value.status == AwaitingStock && call.seen.value.version == 2
          && call.order in s.orders && s.orders[call.order].status != Created)
  }

  /** Kafka never has an order's end without, earlier, its beginning. */
  ghost predicate Causal(log: seq<Outbox.Pub<Event>>) {
    forall k | 0 <= k < |log| && !log[k].msg.OrderCreated? ::
      exists j :: 0 <= j < k && log[j].msg.OrderCreated? && log[j].msg.order == log[k].msg.order
  }

  ghost predicate Inv(s: State) {
    && Outbox.Inv(s.outbox)
    && (forall o | o in s.orders :: Mirrors(s.outbox.rows, o, s.orders[o]))
    && RowsTrue(s)
    && (forall c | c in s.calls :: CallOk(s, s.calls[c]))
    && Causal(s.outbox.log)
  }

  lemma CreateKeepsInv(n: nat, s: State, a: Action)
    requires Inv(s) && a.Create? && Enabled(n, s, a)
    ensures Inv(Effect(n, s, a))
  {
    var s' := Effect(n, s, a);
    var rows, rows' := s.outbox.rows, s'.outbox.rows;
    Outbox.InsertKeepsInv(s.outbox, OrderCreated(a.order, a.items), a.now);
    assert IsCreation(rows', |rows|, a.order);
    forall o, r ensures IsCreation(rows', r, o) <==> IsCreation(rows, r, o) || (r == |rows| && o == a.order) {}
    forall o, r ensures IsEnding(rows', r, o) <==> IsEnding(rows, r, o) {}
    forall o | o in s'.orders ensures Mirrors(rows', o, s'.orders[o]) {
      if o != a.order {
        assert Mirrors(rows, o, s.orders[o]);
        var r :| IsCreation(rows, r, o);
        assert IsCreation(rows', r, o);
        if Terminal(s.orders[o].status) {
          var e :| IsEnding(rows, e, o);
          assert IsEnding(rows', e, o);
        }
      }
    }
    forall c | c in s'.calls ensures CallOk(s', s'.calls[c]) {
      assert CallOk(s, s.calls[c]);
    }
  }

  /** Steps of a call that leave the tables alone. */
  lemma CallKeepsInv(n: nat, s: State, a: Action)
    requires Inv(s) && Enabled(n, s, a)
    requires a.Start? || a.Read? || a.Drop? || (a.Swap? && !Wins(s, s.calls[a.c]))
    ensures Inv(Effect(n, s, a))
  {
    var s' := Effect(n, s, a);
    assert s'.orders == s.orders && s'.outbox == s.outbox;
    forall c | c in s'.calls ensures CallOk(s', s'.calls[c]) {
      if c in s.calls {
        assert CallOk(s, s.calls[c]);
      }
      if c == a.c && (a.Read? || a.Swap?) {
        assert Mirrors(s.outbox.rows, s.calls[c].order, s.orders[s.calls[c].order]);
      }
    }
  }

  lemma SwapKeepsMirror(n: nat, s: State, a: Action, o: OrderId)
    requires Inv(s) && a.Swap? && Enabled(n, s, a) && Wins(s, s.calls[a.c]) && o in s.orders
    ensures Mirrors(Effect(n, s, a).outbox.rows, o, Effect(n, s, a).orders[o])
  {
    var s' := Effect(n, s, a);
    var rows, rows' := s.outbox.rows, s'.outbox.rows;
    var call := s.calls[a.c];
    assert CallOk(s, call) && Mirrors(rows, call.order, s.orders[call.order]) && Mirrors(rows, o, s.orders[o]);
    assert IsEnding(rows', |rows|, call.order);
    forall r ensures IsCreation(rows', r, o) <==> IsCreation(rows, r, o) {}
    var r :| IsCreation(rows, r, o);
    assert IsCreation(rows', r, o);
    if Terminal(s.orders[o].status) {
      var e :| IsEnding(rows, e, o);
      assert IsEnding(rows', e, o);
    }
  }

  lemma SwapKeepsRows(n: nat, s: State, a: Action)
    requires Inv(s) && a.Swap? && Enabled(n, s, a) && Wins(s, s.calls[a.c])
    ensures RowsTrue(Effect(n, s, a))
  {
    var rows, rows' := s.outbox.rows, Effect(n, s, a).outbox.rows;
    var call := s.calls[a.c];
    assert CallOk(s, call) && Mirrors(rows, call.order, s.orders[call.order]);
    forall o, r ensures IsCreation(rows', r, o) <==> IsCreation(rows, r, o) {}
    forall o, r ensures IsEnding(rows', r, o) <==> IsEnding(rows, r, o) || (r == |rows| && o == call.order) {}
    assert forall r | IsEnding(rows, r, call.order) :: Says(rows[r].msg, s.orders[call.order]);
  }

  lemma SwapKeepsInv(n: nat, s: State, a: Action)
    requires Inv(s) && a.Swap? && Enabled(n, s, a) && Wins(s, s.calls[a.c])
    ensures Inv(Effect(n, s, a))
  {
    var s' := Effect(n, s, a);
    Outbox.InsertKeepsInv(s.outbox, CallEvent(s.calls[a.c]), a.now);
    SwapKeepsRows(n, s, a);
    forall o | o in s'.orders ensures Mirrors(s'.outbox.rows, o, s'.orders[o]) {
      SwapKeepsMirror(n, s, a, o);
    }
    forall c | c in s'.calls ensures CallOk(s', s'.calls[c]) {
      assert CallOk(s, s.calls[c]);
    }
  }

  /** A terminal row can only be in a batch when the order's creation has been published. */
  lemma PublishKeepsCausal(n: nat, s: State, a: Action)
    requires Inv(s) && a.Publish? && Enabled(n, s, a)
    ensures Causal(Effect(n, s, a).outbox.log)
  {
    var log, log' := s.outbox.log, Effect(n, s, a).outbox.log;
    var rows := s.outbox.rows;
    forall k | 0 <= k < |log'| && !log'[k].msg.OrderCreated?
      ensures exists j :: 0 <= j < k && log'[j].msg.OrderCreated? && log'[j].msg.order == log'[k].msg.order
    {
      if k < |log| {
        var j :| 0 <= j < k && log[j].msg.OrderCreated? && log[j].msg.order == log[k].msg.order;
        assert log'[j] == log[j];
      } else {
        var o := log'[k].msg.order;
        assert Mirrors(rows, o, s.orders[o]);
        var r :| IsCreation(rows, r, o);
        assert rows[r].sent && Outbox.Counted(s.outbox, r);
        Outbox.PublishedIsLogged(log, r);
        var j :| 0 <= j < |log| && log[j].id == r;
        assert log'[j] == log[j];
      }
    }
  }

  lemma WorkerKeepsInv(n: nat, s: State, a: Action)
    requires Inv(s) && (a.Fetch? || a.Publish? || a.AbortBatch?) && Enabled(n, s, a)
    ensures Inv(Effect(n, s, a))
  {
    var s' := Effect(n, s, a);
    match a {
      case Fetch(w, ids) => Outbox.FetchKeepsInv(s.outbox, w, n, ids);
      case Publish(w) =>
        Outbox.PublishKeepsInv(s.outbox, w);
        PublishKeepsCausal(n, s, a);
      case AbortBatch(w) => Outbox.AbortKeepsInv(s.outbox, w);
    }
    forall c | c in s'.calls ensures CallOk(s', s'.calls[c]) {
      assert CallOk(s, s.calls[c]);
    }
  }

  /** The UPDATE ... WHERE status = 'CREATED' of a committing batch never misses: an order is
      announced by the batch exactly when its creation is, and it is still CREATED. */
  lemma AwaitHitsOneRow(n: nat, s: State, a: Action, o: OrderId)
    requires Inv(s) && a.CommitBatch? && Enabled(n, s, a) && o in s.orders
    ensures var ids := s.outbox.batches[a.w].ids;
            && (Announces(s.outbox.rows, ids, o) <==> exists r: nat :: r in ids && IsCreation(s.outbox.rows, r, o))
            && (Announces(s.outbox.rows, ids, o) ==> s.orders[o].status == Created)
  {
    var rows, ids := s.outbox.rows, s.outbox.batches[a.w].ids;
    if Announces(rows, ids, o) {
      var k :| 0 <= k < |ids| && ids[k] < |rows| && rows[ids[k]].msg.OrderCreated? && rows[ids[k]].msg.order == o;
      assert ids[k] in ids && IsCreation(rows, ids[k], o) && Outbox.Pending(rows, ids[k]);
      assert Mirrors(rows, o, s.orders[o]);
    }
    if r: nat :| r in ids && IsCreation(rows, r, o) {
      var k :| 0 <= k < |ids| && ids[k] == r;
      assert rows[ids[k]].msg.order == o;
    }
  }

  lemma CommitKeepsMirror(n: nat, s: State, a: Action, o: OrderId)
    requires Inv(s) && a.CommitBatch? && Enabled(n, s, a) && o in s.orders
    ensures Mirrors(Effect(n, s, a).outbox.rows, o, Effect(n, s, a).orders[o])
  {
    var rows, rows' := s.outbox.rows, Effect(n, s, a).outbox.rows;
    assert Mirrors(rows, o, s.orders[o]);
    AwaitHitsOneRow(n, s, a, o);
    var r :| IsCreation(rows, r, o);
    assert IsCreation(rows', r, o);
    forall q | IsCreation(rows', q, o) ensures q == r {
      assert IsCreation(rows, q, o);
    }
    if Terminal(s.orders[o].status) {
      var e :| IsEnding(rows, e, o);
      assert IsEnding(rows', e, o);
    }
  }

  lemma CommitKeepsRows(n: nat, s: State, a: Action)
    requires Inv(s) && a.CommitBatch? && Enabled(n, s, a)
    ensures RowsTrue(Effect(n, s, a))
  {
    var rows, rows' := s.outbox.rows, Effect(n, s, a).outbox.rows;
    forall o, r ensures IsCreation(rows', r, o) <==> IsCreation(rows, r, o) {}
    forall o, r ensures IsEnding(rows', r, o) <==> IsEnding(rows, r, o) {}
  }

  lemma CommitBatchKeepsInv(n: nat, s: State, a: Action)
    requires Inv(s) && a.CommitBatch? && Enabled(n, s, a)
    ensures Inv(Effect(n, s, a))
  {
    var s' := Effect(n, s, a);
    Outbox.CommitKeepsInv(s.outbox, a.w);
    CommitKeepsRows(n, s, a);
    forall o | o in s'.orders ensures Mirrors(s'.outbox.rows, o, s'.orders[o]) {
      CommitKeepsMirror(n, s, a, o);
    }
    forall c | c in s'.calls ensures CallOk(s', s'.calls[c]) {
      assert CallOk(s, s.calls[c]);
    }
  }

  lemma StepKeepsInv(n: nat, s: State, a: Action)
    requires Inv(s) && Enabled(n, s, a)
    ensures Inv(Effect(n, s, a))
  {
    match a {
      case Create(_, _, _) => CreateKeepsInv(n, s, a);
      case Swap(c, _) =>
        if Wins(s, s.calls[c]) {
          SwapKeepsInv(n, s, a);
        } else {
          CallKeepsInv(n, s, a);
        }
      case Start(_, _, _, _) => CallKeepsInv(n, s, a);
      case Read(_) => CallKeepsInv(n, s, a);
      case Drop(_) => CallKeepsInv(n, s, a);
      case CommitBatch(_) => CommitBatchKeepsInv(n, s, a);
      case _ => WorkerKeepsInv(n, s, a);
    }
  }

  // ---------------------------------------------------------------------------
  // What follows for every run
  // ---------------------------------------------------------------------------

  ghost function Protocol(n: nat): Machine<State, Action> {
    Machine(s => s == Init(),
            (s, a) => Enabled(n, s, a),
            (s, a) => if Enabled(n, s, a) then Effect(n, s, a) else s)
  }

  lemma RunKeepsInv(n: nat, run: seq<State>)
    requires IsRun(Protocol(n), run)
    ensures Inv(run[|run| - 1])
  {
    forall s, a | Inv(s) && Enabled(n, s, a) ensures Inv(Effect(n, s, a)) {
      StepKeepsInv(n, s, a);
    }
    InvHolds(Protocol(n), s => Inv(s), run);
  }

  /** Although a call decides on a row it read earlier, outside the transaction, every
      committed change of a row is a declared transition from the row's status at commit
      time, one version on; COMPLETED is never reached. */
  lemma EveryChangeIsATransition(n: nat, run: seq<State>, a: Action, o: OrderId)
    requires IsRun(Protocol(n), run) && Enabled(n, run[|run| - 1], a)
    ensures var s, s' := run[|run| - 1], Effect(n, run[|run| - 1], a);
            && (o in s.orders ==> o in s'.orders)
            && (o in s'.orders && o !in s.orders ==> s'.orders[o].status == Created && s'.orders[o].version == 1)
            && (o in s.orders && s'.orders[o] != s.orders[o] ==>
                  && s'.orders[o].status in AllowedTransitions(s.orders[o].status)
                  && s'.orders[o].version == s.orders[o].version + 1
                  && s'.orders[o].items == s.orders[o].items)
            && (o in s'.orders ==> RowOk(s'.orders[o]) && s'.orders[o].status != Completed)
  {
    var s := run[|run| - 1];
    RunKeepsInv(n, run);
    StepKeepsInv(n, s, a);
    var s' := Effect(n, s, a);
    if o in s'.orders {
      assert Mirrors(s'.outbox.rows, o, s'.orders[o]);
    }
    if a.Swap? && Wins(s, s.calls[a.c]) {
      assert CallOk(s, s.calls[a.c]) && Mirrors(s.outbox.rows, s.calls[a.c].order, s.orders[s.calls[a.c].order]);
    }
  }

  /** What a batch expects of the tables when it begins. */
  lemma TablesAreSound(n: nat, run: seq<State>)
    requires IsRun(Protocol(n), run)
    ensures var s := run[|run| - 1];
            RowsOk(s.orders) && CreationsStored(Db(s))
  {
    RunKeepsInv(n, run);
    var s := run[|run| - 1];
    forall o | o in s.orders ensures RowOk(s.orders[o]) {
      assert Mirrors(s.outbox.rows, o, s.orders[o]);
    }
  }

  lemma BatchMarksItsRows(n: nat, s: State, a: Action, held: seq<nat>)
    requires Inv(s) && Enabled(n, s, a) && a.CommitBatch?
    requires forall r | r in held :: r !in s.outbox.batches[a.w].ids
    ensures Outbox.Grows(s.outbox.rows, Effect(n, s, a).outbox.rows, held)
  {
  }

  lemma StepGrowsOutbox(n: nat, s: State, a: Action, held: seq<nat>)
    requires Inv(s) && Enabled(n, s, a)
    requires a.CommitBatch? ==> forall r | r in held :: r !in s.outbox.batches[a.w].ids
    ensures Outbox.Grows(s.outbox.rows, Effect(n, s, a).outbox.rows, held)
  {
    if a.CommitBatch? {
      BatchMarksItsRows(n, s, a, held);
    } else {
      assert s.outbox.rows <= Effect(n, s, a).outbox.rows;
    }
  }

  /** Every step of every process is one that UpdateOrderStatus relies on. */
  lemma EveryStepIsReliedOn(n: nat, run: seq<State>, a: Action)
    requires IsRun(Protocol(n), run) && Enabled(n, run[|run| - 1], a)
    ensures var s, s' := run[|run| - 1], Effect(n, run[|run| - 1], a);
            Rely(Db(s), Db(s'))
  {
    var s := run[|run| - 1];
    var s' := Effect(n, s, a);
    RunKeepsInv(n, run);
    StepGrowsOutbox(n, s, a, []);
    forall o | o in s.orders ensures o in s'.orders && Advances(s.orders[o], s'.orders[o]) {
      EveryChangeIsATransition(n, run, a, o);
    }
    forall o | o in s'.orders ensures RowOk(s'.orders[o]) {
      EveryChangeIsATransition(n, run, a, o);
    }
  }

  /** The orders that an open batch is to move on. */
  ghost function AnnouncedBy(s: State, w: nat): set<OrderId>
    requires w in s.outbox.batches
  {
    set o | o in s.orders && Announces(s.outbox.rows, s.outbox.batches[w].ids, o)
  }

  lemma AnnouncedIsCreated(s: State, w: nat, o: OrderId)
    requires Inv(s) && w in s.outbox.batches && o in AnnouncedBy(s, w)
    ensures s.orders[o].status == Created && s.orders[o].version == 1
  {
    var rows, ids := s.outbox.rows, s.outbox.batches[w].ids;
    var k :| 0 <= k < |ids| && ids[k] < |rows| && rows[ids[k]].msg.OrderCreated? && rows[ids[k]].msg.order == o;
    assert ids[k] in ids && IsCreation(rows, ids[k], o) && Outbox.Pending(rows, ids[k]);
    assert Mirrors(rows, o, s.orders[o]);
  }

  lemma OthersLeaveAnnounced(n: nat, s: State, a: Action, w: nat, o: OrderId)
    requires Inv(s) && Enabled(n, s, a)
    requires w in s.outbox.batches && a != CommitBatch(w) && o in AnnouncedBy(s, w)
    ensures o in Effect(n, s, a).orders && Effect(n, s, a).orders[o] == s.orders[o]
  {
    AnnouncedIsCreated(s, w, o);
    if a.Swap? {
      assert CallOk(s, s.calls[a.c]);
    } else if a.CommitBatch? && Announces(s.outbox.rows, s.outbox.batches[a.w].ids, o) {
      OneBatchAnnounces(s, w, a.w, o);
    }
  }

  lemma OneBatchAnnounces(s: State, v: nat, w: nat, o: OrderId)
    requires Inv(s) && v in s.outbox.batches && w in s.outbox.batches
    requires Announces(s.outbox.rows, s.outbox.batches[v].ids, o)
    requires Announces(s.outbox.rows, s.outbox.batches[w].ids, o)
    ensures v == w
  {
    var rows, ids, ids' := s.outbox.rows, s.outbox.batches[v].ids, s.outbox.batches[w].ids;
    var k :| 0 <= k < |ids| && ids[k] < |rows| && rows[ids[k]].msg.OrderCreated? && rows[ids[k]].msg.order == o;
    var l :| 0 <= l < |ids'| && ids'[l] < |rows| && rows[ids'[l]].msg.OrderCreated? && rows[ids'[l]].msg.order == o;
    assert IsCreation(rows, ids[k], o) && IsCreation(rows, ids'[l], o);
    assert ids[k] in ids && ids'[l] in ids';
  }

  /** While a batch is open, no step but its own commit touches its rows or the orders that
      they announce: what ProcessBatch relies on. */
  lemma OpenBatchIsUndisturbed(n: nat, run: seq<State>, a: Action, w: nat)
    requires IsRun(Protocol(n), run) && Enabled(n, run[|run| - 1], a)
    requires w in run[|run| - 1].outbox.batches && a != CommitBatch(w)
    ensures var s, s' := run[|run| - 1], Effect(n, run[|run| - 1], a);
            RelyHolding(Db(s), Db(s'),
                        s.outbox.batches[w].ids, AnnouncedBy(s, w))
  {
    var s := run[|run| - 1];
    RunKeepsInv(n, run);
    EveryStepIsReliedOn(n, run, a);
    if a.CommitBatch? {
      forall r | r in s.outbox.batches[w].ids ensures r !in s.outbox.batches[a.w].ids {
        assert a.w != w;
      }
    }
    StepGrowsOutbox(n, s, a, s.outbox.batches[w].ids);
    forall o | o in AnnouncedBy(s, w) ensures Effect(n, s, a).orders[o] == s.orders[o] {
      OthersLeaveAnnounced(n, s, a, w, o);
    }
  }

  /** One lost compare-and-swap means the order has ended, so the next read ends the call:
      no call ever loses twice, let alone exhausts its retries. */
  lemma RetriesNeverExhausted(n: nat, run: seq<State>, c: nat, now: int)
    requires IsRun(Protocol(n), run) && c in run[|run| - 1].calls
    ensures var s := run[|run| - 1]; var call := s.calls[c];
            && call.lost + 1 < MAX_RETRIES
            && (call.lost > 0 ==> call.order in s.orders && Terminal(s.orders[call.order].status)
                                  && call.seen.None? && c !in Effect(n, s, Read(c)).calls)
            && (call.seen.Some? && !Wins(s, call) ==>
                  call.lost == 0 && call.order in s.orders && Terminal(s.orders[call.order].status)
                  && c in Effect(n, s, Swap(c, now)).calls)
  {
    RunKeepsInv(n, run);
    var s := run[|run| - 1];
    assert CallOk(s, s.calls[c]);
    if s.calls[c].order in s.orders {
      assert Mirrors(s.outbox.rows, s.calls[c].order, s.orders[s.calls[c].order]);
    }
  }

  function KindOf(e: Event): Kind {
    match e
    case OrderCreated(_, _) => Creation
    case OrderConfirmed(_) => Confirmation
    case OrderCancelled(_, _) => Cancellation
  }

  /** The outbox rows of one kind about order o. */
  function RowsSaying(rows: seq<Outbox.Row<Event>>, o: OrderId, k: Kind): set<int> {
    set r | 0 <= r < |rows| && rows[r].msg.order == o && KindOf(rows[r].msg) == k
  }

  lemma OneRow(rows: seq<Outbox.Row<Event>>, o: OrderId, k: Kind, r: int)
    requires r in RowsSaying(rows, o, k) && forall q | q in RowsSaying(rows, o, k) :: q == r
    ensures |RowsSaying(rows, o, k)| == 1
  {
    assert RowsSaying(rows, o, k) == {r};
  }

  /** Of each order the outbox has exactly one order.created row, PENDING while the order is
      CREATED; one order.confirmed row if and only if it is CONFIRMED; one order.cancelled
      row if and only if it is CANCELLED. */
  lemma OutboxMirrorsStatus(n: nat, run: seq<State>, o: OrderId)
    requires IsRun(Protocol(n), run) && o in run[|run| - 1].orders
    ensures var s := run[|run| - 1]; var status := s.orders[o].status;
            && |RowsSaying(s.outbox.rows, o, Creation)| == 1
            && (forall r | r in RowsSaying(s.outbox.rows, o, Creation) :: s.outbox.rows[r].sent <==> status != Created)
            && |RowsSaying(s.outbox.rows, o, Confirmation)| == (if status == Confirmed then 1 else 0)
            && |RowsSaying(s.outbox.rows, o, Cancellation)| == (if status == Cancelled then 1 else 0)
  {
    RunKeepsInv(n, run);
    var s := run[|run| - 1];
    var rows := s.outbox.rows;
    assert Mirrors(rows, o, s.orders[o]);
    var r :| IsCreation(rows, r, o);
    assert forall q | q in RowsSaying(rows, o, Creation) :: IsCreation(rows, q, o);
    OneRow(rows, o, Creation, r);
    forall k | k != Creation
      ensures var said := if k == Confirmation then Confirmed else Cancelled;
              |RowsSaying(rows, o, k)| == if s.orders[o].status == said then 1 else 0
    {
      assert forall q | q in RowsSaying(rows, o, k) :: IsEnding(rows, q, o) && Says(rows[q].msg, s.orders[o]);
      if s.orders[o].status == (if k == Confirmation then Confirmed else Cancelled) {
        var e :| IsEnding(rows, e, o);
        OneRow(rows, o, k, e);
      } else {
        assert RowsSaying(rows, o, k) == {};
      }
    }
  }

  /** However workers overtake each other, Kafka never has order.confirmed or
      order.cancelled for an order before an order.created for it. */
  lemma PublicationIsCausal(n: nat, run: seq<State>, k: nat)
    requires IsRun(Protocol(n), run)
    requires k < |run[|run| - 1].outbox.log| && !run[|run| - 1].outbox.log[k].msg.OrderCreated?
    ensures var log := run[|run| - 1].outbox.log;
            exists j :: 0 <= j < k && log[j].msg.OrderCreated? && log[j].msg.order == log[k].msg.order
  {
    RunKeepsInv(n, run);
  }

  /** Delivery accounting, for every interleaving of workers, failures and crashes. */
  lemma DeliveryAccounting(n: nat, run: seq<State>, r: nat)
    requires IsRun(Protocol(n), run)
    ensures Outbox.Accounted(run[|run| - 1].outbox, r)
  {
    RunKeepsInv(n, run);
    Outbox.InvAccounts(run[|run| - 1].outbox, r);
  }

  // ---------------------------------------------------------------------------
  // An order announced, and one cancelled
  // ---------------------------------------------------------------------------

  const ANNOUNCE: seq<Action> := [Create(1, ONE_UNIT, 0)] + [Fetch(0, [0])] + [Publish(0)] + [CommitBatch(0)]
  const CANCEL: seq<Action> := [Start(0, 1, Cancelled, Insufficient)] + [Read(0)] + [Swap(0, 2)]

  lemma OneStep(n: nat, s: State, a: Action)
    requires Enabled(n, s, a)
    ensures IsPath(Protocol(n), s, [a]) && End(Protocol(n), s, [a]) == Effect(n, s, a)
  {
    var m, s' := Protocol(n), Effect(n, s, a);
    assert m.effect(s, a) == s';
    assert IsPath(m, s', []) && End(m, s', []) == s';
    assert [a][1..] == [];
  }

  lemma OneMoreStep(n: nat, s: State, actions: seq<Action>, a: Action)
    requires IsPath(Protocol(n), s, actions) && Enabled(n, End(Protocol(n), s, actions), a)
    ensures IsPath(Protocol(n), s, actions + [a])
    ensures End(Protocol(n), s, actions + [a]) == Effect(n, End(Protocol(n), s, actions), a)
  {
    OneStep(n, End(Protocol(n), s, actions), a);
    PathAppend(Protocol(n), s, actions, [a]);
  }

  const TOLD: seq<Outbox.Pub<Event>> := [Outbox.Pub(0, OrderCreated(1, ONE_UNIT))]

  function Stored(batches: map<nat, Outbox.Batch>, log: seq<Outbox.Pub<Event>>): State {
    State(map[1 := OrderRow(Created, 1, ONE_UNIT)],
          Outbox.State([Outbox.Row(OrderCreated(1, ONE_UNIT), 0, false)], batches, log, multiset{}, multiset{}),
          map[])
  }

  function Announced(): State {
    State(map[1 := OrderRow(AwaitingStock, 2, ONE_UNIT)],
          Outbox.State([Outbox.Row(OrderCreated(1, ONE_UNIT), 0, true)], map[], TOLD, multiset{}, multiset{}),
          map[])
  }

  lemma CreateFirst(n: nat)
    ensures Enabled(n, Init(), Create(1, ONE_UNIT, 0))
    ensures Effect(n, Init(), Create(1, ONE_UNIT, 0)) == Stored(map[], [])
  {
  }

  lemma FetchFirst(n: nat)
    requires n > 0
    ensures Enabled(n, Stored(map[], []), Fetch(0, [0]))
    ensures Effect(n, Stored(map[], []), Fetch(0, [0])) == Stored(map[0 := Outbox.Batch([0], 0)], [])
  {
    assert Outbox.Locked(Stored(map[], []).outbox) == {};
  }

  lemma PublishFirst(n: nat)
    ensures Enabled(n, Stored(map[0 := Outbox.Batch([0], 0)], []), Publish(0))
    ensures Effect(n, Stored(map[0 := Outbox.Batch([0], 0)], []), Publish(0)) ==
            Stored(map[0 := Outbox.Batch([0], 1)], TOLD)
  {
    assert map[0 := Outbox.Batch([0], 0)][0 := Outbox.Batch([0], 1)] == map[0 := Outbox.Batch([0], 1)];
  }

  lemma CommitFirst(n: nat)
    ensures Enabled(n, Stored(map[0 := Outbox.Batch([0], 1)], TOLD), CommitBatch(0))
    ensures Effect(n, Stored(map[0 := Outbox.Batch([0], 1)], TOLD), CommitBatch(0)) == Announced()
  {
    var s := Stored(map[0 := Outbox.Batch([0], 1)], TOLD);
    var ids: seq<nat> := [0];
    assert ids[0] == 0 && s.outbox.rows[ids[0]].msg.OrderCreated?;
    assert Announces(s.outbox.rows, ids, 1);
    assert Awaited(s.orders, s.outbox.rows, ids) == Announced().orders;
    assert Outbox.MarkSent(s.outbox.rows, ids) == Announced().outbox.rows;
    assert s.outbox.batches - {0} == map[];
  }

  lemma CanAnnounce(n: nat)
    requires n > 0
    ensures IsPath(Protocol(n), Init(), ANNOUNCE) && End(Protocol(n), Init(), ANNOUNCE) == Announced()
  {
    hide Enabled, Effect, IsPath, End, Stored, Announced;
    CreateFirst(n);
    FetchFirst(n);
    PublishFirst(n);
    CommitFirst(n);
    OneStep(n, Init(), Create(1, ONE_UNIT, 0));
    OneMoreStep(n, Init(), [Create(1, ONE_UNIT, 0)], Fetch(0, [0]));
    OneMoreStep(n, Init(), [Create(1, ONE_UNIT, 0)] + [Fetch(0, [0])], Publish(0));
    OneMoreStep(n, Init(), [Create(1, ONE_UNIT, 0)] + [Fetch(0, [0])] + [Publish(0)], CommitBatch(0));
  }

  lemma CanCancel(n: nat, s: State)
    requires s == Announced()
    ensures IsPath(Protocol(n), s, CANCEL)
    ensures End(Protocol(n), s, CANCEL).orders == map[1 := OrderRow(Cancelled, 3, ONE_UNIT)]
  {
    OneStep(n, s, Start(0, 1, Cancelled, Insufficient));
    OneMoreStep(n, s, [Start(0, 1, Cancelled, Insufficient)], Read(0));
    OneMoreStep(n, s, [Start(0, 1, Cancelled, Insufficient)] + [Read(0)], Swap(0, 2));
  }
}
