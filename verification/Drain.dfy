/** How soon one polling worker gets to a given row: the outbox as a bounded FIFO. */
module Drain {
  import opened Outbox

  /** The worker's number; it is the only one to open batches. */
  const WORKER: nat := 0

  /** What can happen next. Rows are inserted at any time, also while a batch is open. */
  datatype Event<+M> = Inserted(msg: M, createdAt: int) | Fetched(ids: seq<nat>) | Published | Committed | Aborted

  ghost predicate Can<M>(s: State<M>, e: Event<M>, batchSize: nat) {
    match e
    case Inserted(_, _) => true
    case Fetched(ids) => CanFetch(s, WORKER, batchSize, ids)
    case Published => CanPublish(s, WORKER)
    case Committed => CanCommit(s, WORKER)
    case Aborted => WORKER in s.batches
  }

  ghost function Step<M>(s: State<M>, e: Event<M>, batchSize: nat): State<M>
    requires Can(s, e, batchSize)
  {
    match e
    case Inserted(msg, createdAt) => Insert(s, msg, createdAt)
    case Fetched(ids) => Fetch(s, WORKER, ids)
    case Published => Publish(s, WORKER)
    case Committed => Commit(s, WORKER)
    case Aborted => Abort(s, WORKER)
  }

  ghost predicate IsRun<M>(s: State<M>, events: seq<Event<M>>, batchSize: nat)
    decreases |events|
  {
    events == [] || (Can(s, events[0], batchSize) && IsRun(Step(s, events[0], batchSize), events[1..], batchSize))
  }

  ghost function After<M>(s: State<M>, events: seq<Event<M>>, batchSize: nat): State<M>
    requires IsRun(s, events, batchSize)
    decreases |events|
  {
    if events == [] then s else After(Step(s, events[0], batchSize), events[1..], batchSize)
  }

  function Commits<M>(events: seq<Event<M>>): nat {
    if events == [] then 0 else (if events[0].Committed? then 1 else 0) + Commits(events[1..])
  }

  /** Whatever is inserted from here on is created after time t. */
  predicate Later<M>(events: seq<Event<M>>, t: int) {
    forall i | 0 <= i < |events| && events[i].Inserted? :: t < events[i].createdAt
  }

  predicate Sent<M>(s: State<M>, r: nat) {
    r < |s.rows| && s.rows[r].sent
  }

  /** A state of the outbox machine in which nobody but the worker has a batch open. */
  ghost predicate OneWorker<M>(s: State<M>, batchSize: nat) {
    && Inv(s)
    && (forall w | w in s.batches :: w == WORKER && |s.batches[w].ids| <= batchSize)
  }

  // ---------------------------------------------------------------------------
  // How many commits a row may have to wait for
  // ---------------------------------------------------------------------------

  /** The other pending rows that are not younger than r: those a batch may prefer to it. */
  function Ahead<M>(rows: seq<Row<M>>, r: nat): set<nat>
    requires r < |rows|
  {
    set q | 0 <= q < |rows| && q != r && !rows[q].sent && rows[q].createdAt <= rows[r].createdAt
  }

  /** A batch is open that will not send r, having been fetched before r was there. */
  predicate LeftOut<M>(s: State<M>, r: nat) {
    WORKER in s.batches && r !in s.batches[WORKER].ids
  }

  /** The rows ahead of r that no open batch will send. */
  function Backlog<M>(s: State<M>, r: nat): set<nat>
    requires r < |s.rows|
  {
    Ahead(s.rows, r) - (if LeftOut(s, r) then Members(s.batches[WORKER].ids) else {})
  }

  /** Full batches among p rows, p / batchSize. */
  function Rounds(p: nat, batchSize: nat): nat
    requires batchSize > 0
  {
    if p < batchSize then 0 else 1 + Rounds(p - batchSize, batchSize)
  }

  /** Commits until r is SENT: those that the backlog fills, one that takes r, and before
      them the one of an open batch that leaves r out. */
  function Need<M>(s: State<M>, batchSize: nat, r: nat): nat
    requires batchSize > 0 && r < |s.rows|
  {
    Rounds(|Backlog(s, r)|, batchSize) + 1 + (if LeftOut(s, r) then 1 else 0)
  }

  lemma {:induction false} DistinctMembers(ids: seq<nat>)
    requires Distinct(ids)
    ensures |Members(ids)| == |ids|
  {
    if ids == [] {
    } else {
      var n := |ids| - 1;
      DistinctMembers(ids[..n]);
      assert Members(ids) == Members(ids[..n]) + {ids[n]};
    }
  }

  lemma MemberIn(ids: seq<nat>, q: nat)
    ensures q in Members(ids) <==> q in ids
  {
  }

  lemma Multiples(d: int, b: int)
    requires b >= 0
    ensures d >= 1 ==> d * b >= b
    ensures d <= -1 ==> d * b <= -b
  {
  }

  lemma DivUnique(p: nat, b: nat, q: int, m: nat)
    requires m < b && p == q * b + m
    ensures p / b == q
  {
    assert p == p / b * b + p % b;
    assert (p / b - q) * b == m - p % b;
    Multiples(p / b - q, b);
  }

  lemma DivMinus(p: nat, b: nat)
    requires 0 < b <= p
    ensures (p - b) / b == p / b - 1
  {
    assert p == p / b * b + p % b;
    DivUnique(p - b, b, p / b - 1, p % b);
  }

  lemma {:induction false} RoundsAreQuotient(p: nat, batchSize: nat)
    requires batchSize > 0
    ensures Rounds(p, batchSize) == p / batchSize
  {
    if p < batchSize {
    } else {
      RoundsAreQuotient(p - batchSize, batchSize);
      DivMinus(p, batchSize);
    }
  }

  lemma {:induction false} RoundsGrow(p: nat, q: nat, batchSize: nat)
    requires batchSize > 0 && p <= q
    ensures Rounds(p, batchSize) <= Rounds(q, batchSize)
  {
    if p < batchSize {
    } else {
      RoundsGrow(p - batchSize, q - batchSize, batchSize);
    }
  }

  /** A batch that does not take r takes batchSize rows from ahead of it. */
  lemma BatchTakesAhead<M>(rows: seq<Row<M>>, batchSize: nat, ids: seq<nat>, r: nat)
    requires IsBatch(rows, {}, batchSize, ids) && Pending(rows, r) && r !in ids
    ensures Members(ids) <= Ahead(rows, r) && |Members(ids)| == |ids| == batchSize
    ensures |Ahead(rows, r) - Members(ids)| == |Ahead(rows, r)| - batchSize
  {
    DistinctMembers(ids);
    forall i | 0 <= i < |ids| ensures ids[i] in Ahead(rows, r) {
      assert Pending(rows, ids[i]);
    }
  }

  /** An idle worker finds no row locked. */
  lemma NothingLocked<M>(s: State<M>, batchSize: nat)
    requires OneWorker(s, batchSize) && WORKER !in s.batches
    ensures Locked(s) == {}
  {
  }

  // ---------------------------------------------------------------------------
  // What each step does to the need
  // ---------------------------------------------------------------------------

  lemma InsertKeepsNeed<M>(s: State<M>, e: Event<M>, batchSize: nat, r: nat)
    requires batchSize > 0 && OneWorker(s, batchSize) && Pending(s.rows, r)
    requires e.Inserted? && s.rows[r].createdAt < e.createdAt
    ensures var t := Step(s, e, batchSize);
            OneWorker(t, batchSize) && Pending(t.rows, r) && Need(t, batchSize, r) == Need(s, batchSize, r)
  {
    var t := Step(s, e, batchSize);
    InsertKeepsInv(s, e.msg, e.createdAt);
    assert Ahead(t.rows, r) == Ahead(s.rows, r);
  }

  lemma PublishKeepsNeed<M>(s: State<M>, e: Event<M>, batchSize: nat, r: nat)
    requires batchSize > 0 && OneWorker(s, batchSize) && Pending(s.rows, r)
    requires e.Published? && Can(s, e, batchSize)
    ensures var t := Step(s, e, batchSize);
            OneWorker(t, batchSize) && Pending(t.rows, r) && Need(t, batchSize, r) == Need(s, batchSize, r)
  {
    PublishKeepsInv(s, WORKER);
  }

  lemma FullBatchIsOneRound<M>(rows: seq<Row<M>>, batchSize: nat, ids: seq<nat>, r: nat)
    requires batchSize > 0 && IsBatch(rows, {}, batchSize, ids) && Pending(rows, r) && r !in ids
    ensures Rounds(|Ahead(rows, r) - Members(ids)|, batchSize) + 1 == Rounds(|Ahead(rows, r)|, batchSize)
  {
    BatchTakesAhead(rows, batchSize, ids, r);
    SubsetSize(Members(ids), Ahead(rows, r));
  }

  lemma FetchKeepsNeed<M>(s: State<M>, e: Event<M>, batchSize: nat, r: nat)
    requires batchSize > 0 && OneWorker(s, batchSize) && Pending(s.rows, r)
    requires e.Fetched? && Can(s, e, batchSize)
    ensures var t := Step(s, e, batchSize);
            OneWorker(t, batchSize) && Pending(t.rows, r) && Need(t, batchSize, r) == Need(s, batchSize, r)
  {
    hide Rounds, Ahead, Inv;
    NothingLocked(s, batchSize);
    FetchKeepsInv(s, WORKER, batchSize, e.ids);
    if r !in e.ids {
      FullBatchIsOneRound(s.rows, batchSize, e.ids, r);
    }
  }

  lemma SubsetSize(a: set<nat>, b: set<nat>)
    requires a <= b
    ensures |a| <= |b|
  {
    assert b == a + (b - a);
  }

  lemma AbortNeedsNoMore<M>(s: State<M>, e: Event<M>, batchSize: nat, r: nat)
    requires batchSize > 0 && OneWorker(s, batchSize) && Pending(s.rows, r)
    requires e.Aborted? && Can(s, e, batchSize)
    ensures var t := Step(s, e, batchSize);
            && OneWorker(t, batchSize) && Pending(t.rows, r)
            && Need(t, batchSize, r) <= Need(s, batchSize, r)
            && (!LeftOut(s, r) ==> Need(t, batchSize, r) == Need(s, batchSize, r))
  {
    AbortKeepsInv(s, WORKER);
    if LeftOut(s, r) {
      var ahead, ids := Ahead(s.rows, r), s.batches[WORKER].ids;
      DistinctMembers(ids);
      SubsetSize(ahead, (ahead - Members(ids)) + Members(ids));
      RoundsGrow(|ahead|, |ahead - Members(ids)| + batchSize, batchSize);
    }
  }

  lemma CommitNeedsOneLess<M>(s: State<M>, e: Event<M>, batchSize: nat, r: nat)
    requires batchSize > 0 && OneWorker(s, batchSize) && Pending(s.rows, r)
    requires e.Committed? && Can(s, e, batchSize)
    ensures var t := Step(s, e, batchSize);
            && OneWorker(t, batchSize)
            && (Sent(t, r) <==> !LeftOut(s, r))
            && (LeftOut(s, r) ==> Pending(t.rows, r) && Need(t, batchSize, r) == Need(s, batchSize, r) - 1)
  {
    var t := Step(s, e, batchSize);
    CommitKeepsInv(s, WORKER);
    if LeftOut(s, r) {
      forall q: nat ensures q in Members(s.batches[WORKER].ids) <==> q in s.batches[WORKER].ids {
        MemberIn(s.batches[WORKER].ids, q);
      }
      assert Backlog(t, r) == Backlog(s, r);
    }
  }

  // ---------------------------------------------------------------------------
  // That many commits are enough
  // ---------------------------------------------------------------------------

  lemma {:induction false} SentStaysSent<M>(s: State<M>, events: seq<Event<M>>, batchSize: nat, r: nat)
    requires IsRun(s, events, batchSize) && Sent(s, r)
    ensures Sent(After(s, events, batchSize), r)
    decreases |events|
  {
    if events == [] {
    } else {
      SentStaysSent(Step(s, events[0], batchSize), events[1..], batchSize, r);
    }
  }

  lemma StepNeeds<M>(s: State<M>, e: Event<M>, batchSize: nat, r: nat)
    requires batchSize > 0 && OneWorker(s, batchSize) && Pending(s.rows, r) && Can(s, e, batchSize)
    requires e.Inserted? ==> s.rows[r].createdAt < e.createdAt
    ensures var t := Step(s, e, batchSize);
            || Sent(t, r)
            || (&& OneWorker(t, batchSize) && Pending(t.rows, r) && t.rows[r].createdAt == s.rows[r].createdAt
                && Need(t, batchSize, r) <= Need(s, batchSize, r) - (if e.Committed? then 1 else 0))
  {
    match e
    case Inserted(_, _) => InsertKeepsNeed(s, e, batchSize, r);
    case Fetched(_) => FetchKeepsNeed(s, e, batchSize, r);
    case Published => PublishKeepsNeed(s, e, batchSize, r);
    case Committed => CommitNeedsOneLess(s, e, batchSize, r);
    case Aborted => AbortNeedsNoMore(s, e, batchSize, r);
  }

  lemma {:induction false} SentWhenCovered<M>(s: State<M>, events: seq<Event<M>>, batchSize: nat, r: nat)
    requires batchSize > 0 && OneWorker(s, batchSize) && Pending(s.rows, r)
    requires IsRun(s, events, batchSize) && Later(events, s.rows[r].createdAt)
    requires Commits(events) >= Need(s, batchSize, r)
    ensures Sent(After(s, events, batchSize), r)
    decreases |events|
  {
    hide Can, Step, OneWorker, Need;
    NeedIsPositive(s, batchSize, r);
    if events == [] {
      assert false;
    } else {
      var t := Step(s, events[0], batchSize);
      StepNeeds(s, events[0], batchSize, r);
      if Sent(t, r) {
        SentStaysSent(t, events[1..], batchSize, r);
      } else {
        SentWhenCovered(t, events[1..], batchSize, r);
      }
    }
  }

  // ---------------------------------------------------------------------------
  // Fewer are not
  // ---------------------------------------------------------------------------

  lemma {:induction false} OldestOf<M>(rows: seq<Row<M>>, among: set<nat>) returns (q: nat)
    requires among != {} && forall p | p in among :: p < |rows|
    ensures q in among && forall p | p in among :: rows[q].createdAt <= rows[p].createdAt
    decreases among
  {
    q :| q in among;
    if among == {q} {
    } else {
      var rest := among - {q};
      var o := OldestOf(rows, rest);
      if rows[o].createdAt < rows[q].createdAt {
        q := o;
      }
    }
  }

  /** The n oldest of a set of rows, oldest first. */
  lemma {:induction false} OldestFirst<M>(rows: seq<Row<M>>, among: set<nat>, n: nat) returns (ids: seq<nat>)
    requires n <= |among| && forall p | p in among :: p < |rows|
    ensures |ids| == n && Distinct(ids) && forall k | 0 <= k < n :: ids[k] in among
    ensures forall j, k | 0 <= j < k < n :: rows[ids[j]].createdAt <= rows[ids[k]].createdAt
    ensures forall p, k | p in among && p !in ids && 0 <= k < n :: rows[ids[k]].createdAt <= rows[p].createdAt
    decreases n
  {
    if n == 0 {
      ids := [];
    } else {
      var q := OldestOf(rows, among);
      var rest := OldestFirst(rows, among - {q}, n - 1);
      ids := [q] + rest;
    }
  }

  /** When the rows ahead of r fill a batch, the query may select one without r. */
  lemma FetchWithout<M>(s: State<M>, batchSize: nat, r: nat) returns (e: Event<M>)
    requires OneWorker(s, batchSize) && WORKER !in s.batches && Pending(s.rows, r)
    requires batchSize <= |Ahead(s.rows, r)|
    ensures e.Fetched? && r !in e.ids && Can(s, e, batchSize)
  {
    NothingLocked(s, batchSize);
    var ids := OldestFirst(s.rows, Ahead(s.rows, r), batchSize);
    e := Fetched(ids);
  }

  ghost function Phase<M>(s: State<M>, batchSize: nat): nat {
    if WORKER !in s.batches then batchSize + 1
    else if s.batches[WORKER].next <= |s.batches[WORKER].ids| then |s.batches[WORKER].ids| - s.batches[WORKER].next
    else 0
  }

  predicate Takes<M>(s: State<M>, r: nat) {
    WORKER in s.batches && r in s.batches[WORKER].ids
  }

  lemma NeedMeansBacklog<M>(s: State<M>, batchSize: nat, r: nat)
    requires batchSize > 0 && r < |s.rows| && WORKER !in s.batches && Need(s, batchSize, r) > 1
    ensures |Ahead(s.rows, r)| >= batchSize
  {
  }

  lemma MayPublish<M>(s: State<M>)
    requires BatchesOk(s) && WORKER in s.batches && s.batches[WORKER].next != |s.batches[WORKER].ids|
    ensures CanPublish(s, WORKER)
  {
    var b := s.batches[WORKER];
    assert b.next < |b.ids|;
    assert b.ids[b.next] in b.ids;
    assert Pending(s.rows, b.ids[b.next]);
  }

  /** The next step of a run that keeps r waiting as long as it can. */
  lemma Postpone<M>(s: State<M>, batchSize: nat, r: nat) returns (e: Event<M>)
    requires batchSize > 0 && OneWorker(s, batchSize) && Pending(s.rows, r)
    requires Need(s, batchSize, r) > 1 || Takes(s, r)
    ensures !e.Inserted? && Can(s, e, batchSize)
    ensures if WORKER !in s.batches then e.Fetched? && r !in e.ids
            else if r in s.batches[WORKER].ids then e.Aborted?
            else e.Committed? || e.Published?
  {
    if WORKER !in s.batches {
      NeedMeansBacklog(s, batchSize, r);
      e := FetchWithout(s, batchSize, r);
    } else if r in s.batches[WORKER].ids {
      e := Aborted;
    } else if s.batches[WORKER].next == |s.batches[WORKER].ids| {
      e := Committed;
    } else {
      MayPublish(s);
      e := Published;
    }
  }

  lemma PostponedStep<M>(s: State<M>, e: Event<M>, batchSize: nat, r: nat)
    requires batchSize > 0 && OneWorker(s, batchSize) && Pending(s.rows, r) && Can(s, e, batchSize)
    requires if WORKER !in s.batches then e.Fetched? && r !in e.ids
             else if r in s.batches[WORKER].ids then e.Aborted?
             else e.Committed? || e.Published?
    ensures var t := Step(s, e, batchSize);
            && OneWorker(t, batchSize) && Pending(t.rows, r) && t.rows[r].createdAt == s.rows[r].createdAt
            && Need(t, batchSize, r) == Need(s, batchSize, r) - (if e.Committed? then 1 else 0)
            && !Takes(t, r)
            && (e.Committed? || Takes(s, r) || Phase(t, batchSize) < Phase(s, batchSize))
  {
    match e
    case Fetched(_) => FetchKeepsNeed(s, e, batchSize, r);
    case Published => PublishKeepsNeed(s, e, batchSize, r);
    case Committed => CommitNeedsOneLess(s, e, batchSize, r);
    case Aborted => AbortNeedsNoMore(s, e, batchSize, r);
  }

  lemma Prepend<M>(s: State<M>, e: Event<M>, rest: seq<Event<M>>, batchSize: nat) returns (events: seq<Event<M>>)
    requires Can(s, e, batchSize) && IsRun(Step(s, e, batchSize), rest, batchSize)
    ensures events == [e] + rest && IsRun(s, events, batchSize)
    ensures After(s, events, batchSize) == After(Step(s, e, batchSize), rest, batchSize)
    ensures Commits(events) == Commits(rest) + (if e.Committed? then 1 else 0)
  {
    hide Can, Step;
    events := [e] + rest;
    assert events[1..] == rest;
  }

  /** Some run leaves r waiting through all the commits but one. */
  lemma {:induction false} CanBeThatLate<M>(s: State<M>, batchSize: nat, r: nat) returns (events: seq<Event<M>>)
    requires batchSize > 0 && OneWorker(s, batchSize) && Pending(s.rows, r)
    ensures IsRun(s, events, batchSize) && Later(events, s.rows[r].createdAt)
    ensures Commits(events) == Need(s, batchSize, r) - 1
    ensures !Sent(After(s, events, batchSize), r)
    decreases if Takes(s, r) then 1 else 0, Need(s, batchSize, r), Phase(s, batchSize)
  {
    hide Can, Step, OneWorker, Phase;
    if Need(s, batchSize, r) == 1 && !Takes(s, r) {
      events := [];
    } else {
      NeedIsPositive(s, batchSize, r);
      var e := Postpone(s, batchSize, r);
      PostponedStep(s, e, batchSize, r);
      hide Need, Takes, LeftOut;
      var rest := CanBeThatLate(Step(s, e, batchSize), batchSize, r);
      events := Prepend(s, e, rest, batchSize);
    }
  }

  lemma NeedIsPositive<M>(s: State<M>, batchSize: nat, r: nat)
    requires batchSize > 0 && r < |s.rows|
    ensures Need(s, batchSize, r) >= 1
  {
  }

  // ---------------------------------------------------------------------------
  // The bound
  // ---------------------------------------------------------------------------

  ghost predicate SentBy<M>(s: State<M>, events: seq<Event<M>>, batchSize: nat, r: nat) {
    IsRun(s, events, batchSize) ==> Sent(After(s, events, batchSize), r)
  }

  /** The drain is exact: k commits are sure to have sent a pending row, whatever is inserted
      after it and however many batches fail in between, if and only if k is at least Need. */
  lemma BoundedDrain<M>(s: State<M>, batchSize: nat, r: nat, k: nat)
    requires batchSize > 0 && OneWorker(s, batchSize) && Pending(s.rows, r)
    ensures k >= Need(s, batchSize, r) <==>
              forall events |
                IsRun(s, events, batchSize) && Later(events, s.rows[r].createdAt) && Commits(events) >= k ::
                SentBy(s, events, batchSize, r)
  {
    if k >= Need(s, batchSize, r) {
      forall events | IsRun(s, events, batchSize) && Later(events, s.rows[r].createdAt) && Commits(events) >= k
        ensures SentBy(s, events, batchSize, r)
      {
        SentWhenCovered(s, events, batchSize, r);
      }
    } else {
      var events := CanBeThatLate(s, batchSize, r);
      assert !SentBy(s, events, batchSize, r);
    }
  }

  /** With p rows ahead of r the need is p / batchSize + 1 unless an open batch leaves r out,
      and then at most one more. */
  lemma NeedIsBounded<M>(s: State<M>, batchSize: nat, r: nat)
    requires batchSize > 0 && OneWorker(s, batchSize) && Pending(s.rows, r)
    ensures !LeftOut(s, r) ==> Need(s, batchSize, r) == |Ahead(s.rows, r)| / batchSize + 1
    ensures LeftOut(s, r) ==>
              |Ahead(s.rows, r)| / batchSize + 1 <= Need(s, batchSize, r) <= |Ahead(s.rows, r)| / batchSize + 2
  {
    RoundsAreQuotient(|Ahead(s.rows, r)|, batchSize);
    if LeftOut(s, r) {
      AbortNeedsNoMore(s, Aborted, batchSize, r);
      SubsetSize(Backlog(s, r), Ahead(s.rows, r));
      RoundsGrow(|Backlog(s, r)|, |Ahead(s.rows, r)|, batchSize);
    }
  }

  /** That one more is needed: a row inserted while a batch for an older one is open has one
      row ahead of it, yet the next commit does not send it. */
  lemma OpenBatchCostsOneMore<M>(a: M, b: M) returns (s: State<M>, events: seq<Event<M>>)
    ensures OneWorker(s, 20) && Pending(s.rows, 1) && |Ahead(s.rows, 1)| / 20 + 1 == 1
    ensures IsRun(Empty<M>(), [Inserted(a, 1), Fetched([0]), Inserted(b, 2)], 20)
    ensures After(Empty<M>(), [Inserted(a, 1), Fetched([0]), Inserted(b, 2)], 20) == s
    ensures IsRun(s, events, 20) && Commits(events) == 1 && !Sent(After(s, events, 20), 1)
  {
    s := Interrupted(a, b);
    InterruptedIsReached(a, b);
    assert Ahead(s.rows, 1) == {0};
    var ids: seq<nat> := [0];
    assert ids[0] in Members(ids);
    assert Members(ids) == {0};
    assert Backlog(s, 1) == {};
    events := CanBeThatLate(s, 20, 1);
  }

  function Interrupted<M>(a: M, b: M): State<M> {
    State([Row(a, 1, false), Row(b, 2, false)], map[WORKER := Batch([0], 0)], [], multiset{}, multiset{})
  }

  lemma InterruptedIsReached<M>(a: M, b: M)
    ensures OneWorker(Interrupted(a, b), 20)
    ensures var events := [Inserted(a, 1), Fetched([0]), Inserted(b, 2)];
            IsRun(Empty<M>(), events, 20) && After(Empty<M>(), events, 20) == Interrupted(a, b)
  {
    var s0 := Empty<M>();
    var s1 := Insert(s0, a, 1);
    var s2 := Fetch(s1, WORKER, [0]);
    InsertKeepsInv(s0, a, 1);
    NothingLocked(s1, 20);
    assert CanFetch(s1, WORKER, 20, [0]);
    FetchKeepsInv(s1, WORKER, 20, [0]);
    InsertKeepsInv(s2, b, 2);
    assert Insert(s2, b, 2) == Interrupted(a, b);
    assert IsRun(Interrupted(a, b), [], 20);
    var third := Prepend(s2, Inserted(b, 2), [], 20);
    var second := Prepend(s1, Fetched([0]), third, 20);
    var first := Prepend(s0, Inserted(a, 1), second, 20);
    assert first == [Inserted(a, 1), Fetched([0]), Inserted(b, 2)];
  }
}
