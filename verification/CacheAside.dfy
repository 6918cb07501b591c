/** The gateway's cached GET of one order: how old an answer can be when readers, writers of
    the order and the cache's expiry interleave freely. Time is in ticks. */
module CacheAside {
  import opened Common
  import opened OrderService
  import opened Reservation
  import opened Runs

  /** A committed snapshot of the order and when it was committed. */
  datatype Commit = Commit(at: nat, row: OrderRow)

  /** What a fetch gives: the order service may break off reading the items, unnoticed.
      `whole` is known to nobody. */
  datatype Value = Value(row: OrderRow, whole: bool)

  /** A value read of a row: the row itself if read whole, else with some items missing. */
  predicate IsReading(v: Value, row: OrderRow) {
    && v.row.status == row.status && v.row.version == row.version
    && v.row.items <= row.items
    && (v.whole <==> v.row.items == row.items)
  }

  /** A cache entry; `fetchedAt` is when its value was read from the order service. */
  datatype Entry = Entry(value: Value, fetchedAt: nat, setAt: nat)

  /** A request in progress: it has the order service's answer, or a cache hit. */
  datatype Reader = Fetched(value: Value, at: nat) | Hit(value: Value, at: nat, fetchedAt: nat)

  datatype Answer = Answer(value: Value, at: nat, hit: bool)

  /** `ttl` of an entry; `use`, the longest a reader takes from its fetch to its Set and its
      answer; `reply`, the longest it takes from a hit to its answer. */
  datatype Params = Params(ttl: nat, use: nat, reply: nat)

  datatype State =
    State(now: nat, history: seq<Commit>, cache: Option<Entry>, readers: map<nat, Reader>, answers: seq<Answer>)

  datatype Action =
    | Tick
    | Write(status: Status)
    | GetHit(r: nat)
    | Fetch(r: nat, n: nat)
    | SetCache(r: nat)
    | Reply(r: nat)
    | Leave(r: nat)
    | Evict

  function Init(row: OrderRow): State {
    State(0, [Commit(0, row)], None, map[], [])
  }

  predicate Live(p: Params, e: Entry, now: nat) {
    now < e.setAt + p.ttl
  }

  predicate MayWait(p: Params, r: Reader, now: nat) {
    match r
    case Fetched(_, at) => now <= at + p.use
    case Hit(_, at, _) => now <= at + p.reply
  }

  predicate AllMayWait(p: Params, s: State, until: nat) {
    forall r | r in s.readers :: MayWait(p, s.readers[r], until)
  }

  function Last(s: State): OrderRow
    requires s.history != []
  {
    s.history[|s.history| - 1].row
  }

  /** A fetch is possible even with a live entry: a Redis error sends the reader on. It reads
      the first n items. An order's items are never written again. */
  predicate Enabled(p: Params, s: State, a: Action) {
    match a
    case Tick => AllMayWait(p, s, s.now + 1)
    case Write(_) => s.history != []
    case GetHit(r) => r !in s.readers && s.cache.Some? && Live(p, s.cache.value, s.now)
    case Fetch(r, n) => r !in s.readers && s.history != [] && n <= |Last(s).items|
    case SetCache(r) => r in s.readers && s.readers[r].Fetched?
    case Reply(r) => r in s.readers
    case Leave(r) => r in s.readers
    case Evict => true
  }

  function Effect(p: Params, s: State, a: Action): State
    requires Enabled(p, s, a)
  {
    match a
    case Tick => s.(now := s.now + 1)
    case Write(status) =>
      s.(history := s.history + [Commit(s.now, Last(s).(status := status, version := Last(s).version + 1))])
    case GetHit(r) => s.(readers := s.readers[r := Hit(s.cache.value.value, s.now, s.cache.value.fetchedAt)])
    case Fetch(r, n) =>
      var v := Value(Last(s).(items := Last(s).items[..n]), n == |Last(s).items|);
      s.(readers := s.readers[r := Fetched(v, s.now)])
    case SetCache(r) => s.(cache := Some(Entry(s.readers[r].value, s.readers[r].at, s.now)))
    case Reply(r) =>
      var answer := Answer(s.readers[r].value, s.now, s.readers[r].Hit?);
      s.(readers := s.readers - {r}, answers := s.answers + [answer])
    case Leave(r) => s.(readers := s.readers - {r})
    case Evict => s.(cache := None)
  }

  // ---------------------------------------------------------------------------
  // Staleness
  // ---------------------------------------------------------------------------

  /** The i-th commit was the order's state at time t. */
  predicate CurrentAt(history: seq<Commit>, i: int, t: nat) {
    0 <= i < |history| && history[i].at <= t && (i + 1 < |history| ==> t <= history[i + 1].at)
  }

  /** The value was read of the row committed at time t. */
  ghost predicate ReadAt(history: seq<Commit>, v: Value, t: nat) {
    exists i :: CurrentAt(history, i, t) && IsReading(v, history[i].row)
  }

  /** The answer came soon enough after time t: within the reader's own delay on a miss,
      strictly before the entry's life and all delays have passed on a hit. */
  predicate Within(p: Params, a: Answer, t: nat) {
    t <= a.at && if a.hit then a.at < t + p.ttl + p.use + p.reply else a.at <= t + p.use
  }

  /** The value answered was read of a row that was the order's state at some time within
      the bound. */
  ghost predicate RecentEnough(p: Params, history: seq<Commit>, a: Answer) {
    exists t: nat :: Within(p, a, t) && ReadAt(history, a.value, t)
  }

  ghost predicate ReaderOk(p: Params, s: State, r: Reader) {
    match r
    case Fetched(v, at) => at <= s.now <= at + p.use && ReadAt(s.history, v, at)
    case Hit(v, at, f) => f <= at <= s.now <= at + p.reply && at < f + p.use + p.ttl && ReadAt(s.history, v, f)
  }

  ghost predicate AnswerOk(p: Params, s: State, a: Answer) {
    a.at <= s.now && RecentEnough(p, s.history, a)
  }

  ghost predicate Inv(p: Params, s: State) {
    && s.history != [] && s.history[|s.history| - 1].at <= s.now
    && (forall r | r in s.readers :: ReaderOk(p, s, s.readers[r]))
    && (s.cache.Some? ==>
          var e := s.cache.value;
          e.fetchedAt <= e.setAt <= s.now && e.setAt <= e.fetchedAt + p.use && ReadAt(s.history, e.value, e.fetchedAt))
    && (forall i | 0 <= i < |s.answers| :: AnswerOk(p, s, s.answers[i]))
  }

  /** What was read of the state at a past time stays so when more is committed now. */
  lemma ReadingStays(history: seq<Commit>, c: Commit, v: Value, t: nat)
    requires ReadAt(history, v, t) && t <= c.at
    ensures ReadAt(history + [c], v, t)
  {
    var i :| CurrentAt(history, i, t) && IsReading(v, history[i].row);
    assert CurrentAt(history + [c], i, t) && (history + [c])[i] == history[i];
  }

  lemma LastIsCurrent(history: seq<Commit>, n: nat, t: nat)
    requires history != [] && history[|history| - 1].at <= t && n <= |history[|history| - 1].row.items|
    ensures var row := history[|history| - 1].row;
            ReadAt(history, Value(row.(items := row.items[..n]), n == |row.items|), t)
  {
    var row := history[|history| - 1].row;
    assert CurrentAt(history, |history| - 1, t);
    assert n == |row.items| ==> row.items[..n] == row.items;
  }

  lemma WriteKeepsInv(p: Params, s: State, a: Action)
    requires Inv(p, s) && a.Write? && Enabled(p, s, a)
    ensures Inv(p, Effect(p, s, a))
  {
    var s' := Effect(p, s, a);
    var c := s'.history[|s.history|];
    forall r | r in s'.readers ensures ReaderOk(p, s', s'.readers[r]) {
      assert ReaderOk(p, s, s.readers[r]);
      var x := s.readers[r];
      ReadingStays(s.history, c, x.value, if x.Hit? then x.fetchedAt else x.at);
    }
    if s.cache.Some? {
      ReadingStays(s.history, c, s.cache.value.value, s.cache.value.fetchedAt);
    }
    forall i | 0 <= i < |s'.answers| ensures AnswerOk(p, s', s'.answers[i]) {
      var x := s.answers[i];
      assert AnswerOk(p, s, x);
      var t: nat :| Within(p, x, t) && ReadAt(s.history, x.value, t);
      ReadingStays(s.history, c, x.value, t);
    }
  }

  lemma ReplyKeepsInv(p: Params, s: State, a: Action)
    requires Inv(p, s) && a.Reply? && Enabled(p, s, a)
    ensures Inv(p, Effect(p, s, a))
  {
    hide ReadAt;
    var s' := Effect(p, s, a);
    var r := s.readers[a.r];
    assert ReaderOk(p, s, r);
    var t := if r.Hit? then r.fetchedAt else r.at;
    var x := Answer(r.value, s.now, r.Hit?);
    assert Within(p, x, t) && ReadAt(s'.history, x.value, t);
    forall i | 0 <= i < |s'.answers| ensures AnswerOk(p, s', s'.answers[i]) {
      if i < |s.answers| {
        assert s'.answers[i] == s.answers[i] && AnswerOk(p, s, s.answers[i]);
      }
    }
    forall q | q in s'.readers ensures ReaderOk(p, s', s'.readers[q]) {
      assert ReaderOk(p, s, s.readers[q]);
    }
  }

  lemma StepKeepsInv(p: Params, s: State, a: Action)
    requires Inv(p, s) && Enabled(p, s, a)
    ensures Inv(p, Effect(p, s, a))
  {
    hide ReadAt, RecentEnough;
    var s' := Effect(p, s, a);
    if a.Write? {
      WriteKeepsInv(p, s, a);
    } else if a.Reply? {
      ReplyKeepsInv(p, s, a);
    } else {
      if a.Fetch? {
        LastIsCurrent(s.history, a.n, s.now);
      }
      if a.SetCache? {
        assert ReaderOk(p, s, s.readers[a.r]);
      }
      forall r | r in s'.readers ensures ReaderOk(p, s', s'.readers[r]) {
        if r in s.readers {
          assert ReaderOk(p, s, s.readers[r]);
        }
      }
    }
  }

  // ---------------------------------------------------------------------------
  // Runs
  // ---------------------------------------------------------------------------

  ghost function Protocol(p: Params): Machine<State, Action> {
    Machine(s => exists v :: s == Init(v),
            (s, a) => Enabled(p, s, a),
            (s, a) => if Enabled(p, s, a) then Effect(p, s, a) else s)
  }

  lemma RunKeepsInv(p: Params, run: seq<State>)
    requires IsRun(Protocol(p), run)
    ensures Inv(p, run[|run| - 1])
  {
    forall s, a | Inv(p, s) && Enabled(p, s, a) ensures Inv(p, Effect(p, s, a)) {
      StepKeepsInv(p, s, a);
    }
    InvHolds(Protocol(p), s => Inv(p, s), run);
  }

  /** Every answer has the status and the version of a committed snapshot of the order less old
      than the entry's time to live plus the readers' own delays, also when a slow reader
      overwrites a newer entry. Its items are a prefix of that snapshot's, and all of them if
      and only if the fetch behind the answer was read whole. An answer that missed the cache
      is no older than its own reader's delay. */
  lemma AnswersAreFresh(p: Params, run: seq<State>, i: nat)
    requires IsRun(Protocol(p), run) && i < |run[|run| - 1].answers|
    ensures var s := run[|run| - 1]; var a := s.answers[i];
            exists t: nat, j ::
              && t <= a.at
              && (if a.hit then a.at < t + p.ttl + p.use + p.reply else a.at <= t + p.use)
              && CurrentAt(s.history, j, t)
              && a.value.row.status == s.history[j].row.status
              && a.value.row.version == s.history[j].row.version
              && a.value.row.items <= s.history[j].row.items
              && (a.value.whole <==> a.value.row.items == s.history[j].row.items)
  {
    RunKeepsInv(p, run);
    var s := run[|run| - 1];
    var a := s.answers[i];
    assert AnswerOk(p, s, a);
    var t: nat :| Within(p, a, t) && ReadAt(s.history, a.value, t);
    var j :| CurrentAt(s.history, j, t) && IsReading(a.value, s.history[j].row);
  }

  // The bound is reached: nothing smaller holds of every run.

  lemma {:induction false} Wait(p: Params, run: seq<State>, n: nat) returns (longer: seq<State>)
    requires IsRun(Protocol(p), run)
    requires AllMayWait(p, run[|run| - 1], run[|run| - 1].now + n)
    ensures IsRun(Protocol(p), longer) && longer[|longer| - 1] == run[|run| - 1].(now := run[|run| - 1].now + n)
    decreases n
  {
    longer := run;
    if n == 0 {
    } else {
      longer := Extend(Protocol(p), run, Tick);
      longer := Wait(p, longer, n - 1);
    }
  }

  /** A status superseded at once, with an item missing, can still be answered
      ttl + use + reply - 1 ticks later: one reader fetches it, sets it as late as it may, and
      another hits it as late as it may. */
  lemma BoundIsReached(p: Params, item: Item) returns (run: seq<State>)
    requires p.ttl > 0
    ensures IsRun(Protocol(p), run) && |run[|run| - 1].answers| == 1
    ensures var s := run[|run| - 1]; var a := s.answers[0];
            && a.at == p.ttl + p.use + p.reply - 1
            && !a.value.whole && a.value.row.items == []
            && forall t: nat | ReadAt(s.history, a.value, t) :: t == 0
  {
    var row := OrderRow(AwaitingStock, 2, [item]);
    run := [Init(row)];
    run := Extend(Protocol(p), run, Fetch(0, 0));
    run := Extend(Protocol(p), run, Write(Confirmed));
    run := Wait(p, run, p.use);
    run := Extend(Protocol(p), run, SetCache(0));
    run := Extend(Protocol(p), run, Leave(0));
    run := Wait(p, run, p.ttl - 1);
    run := Extend(Protocol(p), run, GetHit(1));
    run := Wait(p, run, p.reply);
    run := Extend(Protocol(p), run, Reply(1));
    assert run[|run| - 1].history == [Commit(0, row), Commit(0, row.(status := Confirmed, version := 3))];
  }

  // ---------------------------------------------------------------------------
  // The handler
  // ---------------------------------------------------------------------------

  datatype Response = Shown(row: OrderRow) | Unavailable

  type Cache = map<string, (OrderRow, nat)>

  /** One GET of a key, the order service having the order's row, if there is one: a hit answers
      from a live entry alone; otherwise the answer is a reading of the row, and only that may
      be cached; what the order service cannot give is neither answered nor cached. */
  ghost predicate Serves(ttl: nat, key: string, stored: Option<OrderRow>, now: nat, cache: Cache,
                         r: Response, fetched: bool, cache': Cache)
  {
    if !fetched then
      key in cache && now < cache[key].1 + ttl && r == Shown(cache[key].0) && cache' == cache
    else if r.Shown? then
      && stored.Some? && (exists whole :: IsReading(Value(r.row, whole), stored.value))
      && (cache' == cache || cache' == cache[key := (r.row, now)])
    else
      cache' == cache
  }

  class OrderHandler {
    const ttl: nat
    /** Redis: value and time of the Set, by key. */
    var cache: Cache
    /** How many exchanges with Redis or the order service have failed, or broken off. */
    ghost var failures: nat

    constructor (ttl: nat)
      ensures this.ttl == ttl && cache == map[] && failures == 0
    {
      this.ttl, cache, failures := ttl, map[], 0;
    }

    /** One exchange with Redis or the order service: it may fail at any time. */
    method Exchange() returns (ok: bool)
      modifies this`failures
      ensures failures == old(failures) + (if ok then 0 else 1)
    {
      ok := *;
      if !ok {
        failures := failures + 1;
      }
    }

    /** Redis GET: a key is gone once its time to live is over. */
    method CacheGet(key: string, now: nat) returns (ok: bool, found: Option<OrderRow>)
      modifies this`failures
      ensures failures == old(failures) + (if ok then 0 else 1)
      ensures found == if ok && key in cache && now < cache[key].1 + ttl then Some(cache[key].0) else None
    {
      ok := Exchange();
      found := None;
      if ok && key in cache && now < cache[key].1 + ttl {
        found := Some(cache[key].0);
      }
    }

    /** GetOrder of the order service: reading the items may break off, unnoticed. */
    method CallOrderService(stored: Option<OrderRow>) returns (row: Option<OrderRow>)
      modifies this`failures
      ensures failures >= old(failures)
      ensures row.None? ==> stored.None? || failures > old(failures)
      ensures row.Some? ==> stored.Some? && exists whole :: IsReading(Value(row.value, whole), stored.value)
      ensures row.Some? && failures == old(failures) ==> row == stored
    {
      var ok := Exchange();
      if !ok || stored.None? {
        return None;
      }
      var items := [];
      for i := 0 to |stored.value.items|
        invariant items == stored.value.items[..i] && failures == old(failures)
      {
        var next := Exchange();
        if !next {
          break;
        }
        items := items + [stored.value.items[i]];
      }
      row := Some(stored.value.(items := items));
      assert IsReading(Value(row.value, items == stored.value.items), stored.value);
    }

    /** One GET; `stored` is the order service's row at the time of the call. `fetched` tells
        whether the order service was asked. It is asked exactly when there is no live entry,
        unless Redis fails; and unless something fails the answer is the order's row, which is
        cached from now on, or that there is none. */
    method GetOrder(id: string, stored: Option<OrderRow>, now: nat) returns (r: Response, fetched: bool)
      modifies this
      ensures Serves(ttl, "order:" + id, stored, now, old(cache), r, fetched, cache)
      ensures failures >= old(failures)
      ensures var key := "order:" + id;
              !fetched ==> key in old(cache) && now < old(cache)[key].1 + ttl && r == Shown(old(cache)[key].0)
      ensures var key := "order:" + id;
              failures == old(failures) ==> (fetched <==> key !in old(cache) || now >= old(cache)[key].1 + ttl)
      ensures r.Unavailable? ==> fetched && (stored.None? || failures > old(failures))
      ensures fetched && failures == old(failures) ==>
                if stored.None? then r == Unavailable && cache == old(cache)
                else r == Shown(stored.value) && cache == old(cache)["order:" + id := (stored.value, now)]
    {
      var key := "order:" + id;
      var ok, found := CacheGet(key, now);
      if found.Some? {
        return Shown(found.value), false;
      }
      fetched := true;
      var row := CallOrderService(stored);
      if row.None? {
        return Unavailable, fetched;
      }
      r := Shown(row.value);
      ok := Exchange();
      if ok {
        cache := cache[key := (row.value, now)];
      }
    }
  }

  // ---------------------------------------------------------------------------
  // The handler's steps are the machine's
  // ---------------------------------------------------------------------------

  /** The machine's cache is the handler's entry for the key. */
  ghost predicate SameEntry(cache: Cache, key: string, s: State) {
    match s.cache
    case None => key !in cache
    case Some(e) => key in cache && cache[key] == (e.value.row, e.setAt)
  }

  /** One GET takes the machine from s to s', adding the answer, if any. */
  ghost predicate Matches(p: Params, s: State, actions: seq<Action>, key: string,
                          r: Response, fetched: bool, cache': Cache)
  {
    && IsPath(Protocol(p), s, actions)
    && var s' := End(Protocol(p), s, actions);
    && SameEntry(cache', key, s')
    && s'.now == s.now && s'.history == s.history && s'.readers == s.readers
    && if r.Shown?
       then |s'.answers| == |s.answers| + 1 && s'.answers[..|s.answers|] == s.answers
            && s'.answers[|s.answers|].value.row == r.row
            && s'.answers[|s.answers|].at == s.now && s'.answers[|s.answers|].hit == !fetched
       else s'.answers == s.answers
  }

  lemma OneAction(p: Params, s: State, a: Action)
    requires Enabled(p, s, a)
    ensures IsPath(Protocol(p), s, [a]) && End(Protocol(p), s, [a]) == Effect(p, s, a)
  {
    var m, s' := Protocol(p), Effect(p, s, a);
    assert m.effect(s, a) == s';
    assert IsPath(m, s', []) && End(m, s', []) == s';
    assert [a][1..] == [];
  }

  lemma OneMoreAction(p: Params, s: State, actions: seq<Action>, a: Action)
    requires IsPath(Protocol(p), s, actions) && Enabled(p, End(Protocol(p), s, actions), a)
    ensures IsPath(Protocol(p), s, actions + [a])
    ensures End(Protocol(p), s, actions + [a]) == Effect(p, End(Protocol(p), s, actions), a)
  {
    OneAction(p, End(Protocol(p), s, actions), a);
    PathAppend(Protocol(p), s, actions, [a]);
  }

  lemma HitIsMachineRun(p: Params, s: State, q: nat, key: string, cache: Cache, r: Response)
      returns (actions: seq<Action>)
    requires SameEntry(cache, key, s) && q !in s.readers
    requires Serves(p.ttl, key, None, s.now, cache, r, false, cache)
    ensures Matches(p, s, actions, key, r, false, cache)
  {
    OneAction(p, s, GetHit(q));
    OneMoreAction(p, s, [GetHit(q)], Reply(q));
    actions := [GetHit(q)] + [Reply(q)];
    assert s.readers[q := Hit(s.cache.value.value, s.now, s.cache.value.fetchedAt)] - {q} == s.readers;
  }

  lemma FetchIsMachineRun(p: Params, s: State, q: nat, key: string, cache: Cache, r: Response, cache': Cache)
      returns (actions: seq<Action>)
    requires SameEntry(cache, key, s) && q !in s.readers && s.history != []
    requires r.Shown? && Serves(p.ttl, key, Some(Last(s)), s.now, cache, r, true, cache')
    ensures Matches(p, s, actions, key, r, true, cache')
  {
    var n := |r.row.items|;
    assert r.row == Last(s).(items := Last(s).items[..n]);
    OneAction(p, s, Fetch(q, n));
    var s1 := Effect(p, s, Fetch(q, n));
    assert s1.readers - {q} == s.readers;
    if cache' == cache {
      OneMoreAction(p, s, [Fetch(q, n)], Reply(q));
      actions := [Fetch(q, n)] + [Reply(q)];
    } else {
      OneMoreAction(p, s, [Fetch(q, n)], SetCache(q));
      OneMoreAction(p, s, [Fetch(q, n)] + [SetCache(q)], Reply(q));
      actions := [Fetch(q, n)] + [SetCache(q)] + [Reply(q)];
    }
  }

  /** Whatever GetOrder does is a run of the machine by one more reader: GetHit and Reply, or
      Fetch, perhaps SetCache, and Reply. So AnswersAreFresh speaks of its answers. */
  lemma HandlerIsReader(p: Params, s: State, q: nat, key: string, cache: Cache,
                        r: Response, fetched: bool, cache': Cache)
      returns (actions: seq<Action>)
    requires SameEntry(cache, key, s) && q !in s.readers && s.history != []
    requires Serves(p.ttl, key, Some(Last(s)), s.now, cache, r, fetched, cache')
    ensures Matches(p, s, actions, key, r, fetched, cache')
  {
    if !fetched {
      actions := HitIsMachineRun(p, s, q, key, cache, r);
    } else if r.Shown? {
      actions := FetchIsMachineRun(p, s, q, key, cache, r, cache');
    } else {
      actions := [];
    }
  }
}
