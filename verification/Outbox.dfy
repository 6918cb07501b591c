/** The outbox table shared by both services: what one polling query selects
    (`fetchPendingTx`), and the machine of any number of workers that publish
    selected rows and mark them SENT in one transaction per batch. */
module Outbox {

  /** One row of the table. Rows are numbered in the order they were committed;
      that number stands for the row's generated UUID. */
  datatype Row<+M> = Row(msg: M, createdAt: int, sent: bool)

  predicate Pending<M>(rows: seq<Row<M>>, r: nat) {
    r < |rows| && !rows[r].sent
  }

  predicate HasEvent<M(==)>(rows: seq<Row<M>>, e: M) {
    exists i :: 0 <= i < |rows| && rows[i].msg == e
  }

  function Members(ids: seq<nat>): set<nat> {
    set k | 0 <= k < |ids| :: ids[k]
  }

  predicate Distinct(ids: seq<nat>) {
    forall i, j | 0 <= i < j < |ids| :: ids[i] != ids[j]
  }

  // ---------------------------------------------------------------------------
  // The polling query
  // ---------------------------------------------------------------------------

  /** WHERE status = 'PENDING' ORDER BY created_at ASC LIMIT limit FOR UPDATE SKIP LOCKED */
  ghost predicate IsBatch<M>(rows: seq<Row<M>>, locked: set<nat>, limit: nat, ids: seq<nat>) {
    && |ids| <= limit
    && Distinct(ids)
    && (forall k | 0 <= k < |ids| :: Pending(rows, ids[k]) && ids[k] !in locked)
    && (forall j, k | 0 <= j < k < |ids| :: rows[ids[j]].createdAt <= rows[ids[k]].createdAt)
    && (forall r: nat | Pending(rows, r) && r !in locked && r !in ids ::
          |ids| == limit && forall k | 0 <= k < |ids| :: rows[ids[k]].createdAt <= rows[r].createdAt)
  }

  /** The scan of one LIMIT slot: the oldest pending row that is neither locked nor taken. */
  method Oldest<M>(rows: seq<Row<M>>, locked: set<nat>, ids: seq<nat>) returns (found: bool, best: nat)
    ensures found ==> Pending(rows, best) && best !in locked && best !in ids
    ensures forall r: nat | Pending(rows, r) && r !in locked && r !in ids ::
              found && rows[best].createdAt <= rows[r].createdAt
  {
    found, best := false, 0;
    for r := 0 to |rows|
      invariant found ==> best < r && Pending(rows, best) && best !in locked && best !in ids
      invariant forall q: nat | q < r && Pending(rows, q) && q !in locked && q !in ids ::
                  found && rows[best].createdAt <= rows[q].createdAt
    {
      if !rows[r].sent && r !in locked && r !in ids && (!found || rows[r].createdAt < rows[best].createdAt) {
        found, best := true, r;
      }
    }
  }

  method FetchPending<M>(rows: seq<Row<M>>, locked: set<nat>, limit: nat) returns (ids: seq<nat>)
    ensures IsBatch(rows, locked, limit, ids)
    ensures forall k | 0 <= k < |ids| :: ids[k] < |rows|
  {
    ids := [];
    while |ids| < limit
      invariant |ids| <= limit && Distinct(ids)
      invariant forall k | 0 <= k < |ids| :: Pending(rows, ids[k]) && ids[k] !in locked
      invariant forall j, k | 0 <= j < k < |ids| :: rows[ids[j]].createdAt <= rows[ids[k]].createdAt
      invariant forall r: nat, k | Pending(rows, r) && r !in locked && r !in ids && 0 <= k < |ids| ::
                  rows[ids[k]].createdAt <= rows[r].createdAt
    {
      var found, best := Oldest(rows, locked, ids);
      if !found {
        return;
      }
      ids := ids + [best];
    }
  }

  /** UPDATE outbox SET status = 'SENT' for every row of a batch. */
  function MarkSent<M>(rows: seq<Row<M>>, ids: seq<nat>): (r: seq<Row<M>>)
    ensures |r| == |rows|
    ensures forall i | 0 <= i < |rows| :: r[i] == rows[i].(sent := rows[i].sent || i in ids)
  {
    seq(|rows|, i requires 0 <= i < |rows| => rows[i].(sent := rows[i].sent || i in ids))
  }

  /** The messages of a batch as Kafka gets them. */
  function Announced<M>(rows: seq<Row<M>>, ids: seq<nat>): (pubs: seq<Pub<M>>)
    requires forall k | 0 <= k < |ids| :: ids[k] < |rows|
    ensures |pubs| == |ids| && forall k | 0 <= k < |ids| :: pubs[k] == Pub(ids[k], rows[ids[k]].msg)
  {
    seq(|ids|, k requires 0 <= k < |ids| => Pub(ids[k], rows[ids[k]].msg))
  }

  lemma AnnounceOne<M>(rows: seq<Row<M>>, ids: seq<nat>, i: nat)
    requires i < |ids| && forall k | 0 <= k < |ids| :: ids[k] < |rows|
    ensures Announced(rows, ids[..i + 1]) == Announced(rows, ids[..i]) + [Pub(ids[i], rows[ids[i]].msg)]
    ensures Announced(rows, ids[..i]) <= Announced(rows, ids) && Announced(rows, ids[..i + 1]) <= Announced(rows, ids)
  {
  }

  /** What other transactions may do to the table meanwhile: rows are added, rows are marked,
      but not the rows held FOR UPDATE. */
  ghost predicate Grows<M>(rows: seq<Row<M>>, rows': seq<Row<M>>, held: seq<nat>) {
    && |rows| <= |rows'|
    && forall i | 0 <= i < |rows| ::
         && rows'[i] == rows[i].(sent := rows'[i].sent)
         && (rows[i].sent ==> rows'[i].sent)
         && (i in held ==> rows'[i] == rows[i])
  }

  lemma GrowsTransitive<M>(rows: seq<Row<M>>, rows': seq<Row<M>>, rows'': seq<Row<M>>, held: seq<nat>)
    requires Grows(rows, rows', held) && Grows(rows', rows'', held)
    ensures Grows(rows, rows'', held)
  {
    forall i | 0 <= i < |rows|
      ensures && rows''[i] == rows[i].(sent := rows''[i].sent)
              && (rows[i].sent ==> rows''[i].sent)
              && (i in held ==> rows''[i] == rows[i])
    {
      assert rows'[i] == rows[i].(sent := rows'[i].sent);
    }
  }

  lemma GrowsKeepsEvent<M>(rows: seq<Row<M>>, rows': seq<Row<M>>, e: M)
    requires Grows(rows, rows', []) && HasEvent(rows, e)
    ensures HasEvent(rows', e)
  {
    var i :| 0 <= i < |rows| && rows[i].msg == e;
    assert rows'[i].msg == e;
  }

  /** The connection to Kafka; `log` is what Kafka has been told through it, `failures` counts
      the publishes that reported an error. */
  class Publisher<M> {
    var log: seq<Pub<M>>
    ghost var failures: nat

    constructor ()
      ensures log == [] && failures == 0
    {
      log, failures := [], 0;
    }

    /** What Kafka has acknowledged is in the log; a publish that failed may be there too. */
    method Publish(id: nat, msg: M) returns (ok: bool)
      modifies this
      ensures log == old(log) + [Pub(id, msg)] || (!ok && log == old(log))
      ensures failures == old(failures) + (if ok then 0 else 1)
    {
      ok := *;
      var written := *;
      if ok || written {
        log := log + [Pub(id, msg)];
      }
      if !ok {
        failures := failures + 1;
      }
    }
  }

  // ---------------------------------------------------------------------------
  // Workers
  // ---------------------------------------------------------------------------

  /** One worker's open transaction: the rows it has locked, and how many of them it has
      published (and marked, invisibly to others) so far. */
  datatype Batch = Batch(ids: seq<nat>, next: nat)

  datatype Pub<+M> = Pub(id: nat, msg: M)

  /** `log` is everything ever written to Kafka. Of the batches that contained row r and did
      not commit, `aborted[r]` counts all and `lost[r]` those that had already published r. */
  datatype State<+M> =
    State(rows: seq<Row<M>>, batches: map<nat, Batch>, log: seq<Pub<M>>, aborted: multiset<nat>, lost: multiset<nat>)

  function Empty<M>(): State<M> {
    State([], map[], [], multiset{}, multiset{})
  }

  ghost predicate InFlight<M>(s: State<M>, r: nat) {
    exists w :: w in s.batches && r in s.batches[w].ids
  }

  function PublishedBy(b: Batch): set<nat> {
    set k | 0 <= k < |b.ids| && k < b.next :: b.ids[k]
  }

  /** Worker w's open batch has published row r. */
  ghost predicate HasPublished<M>(s: State<M>, w: nat, r: nat) {
    w in s.batches && exists k :: 0 <= k < s.batches[w].next && k < |s.batches[w].ids| && s.batches[w].ids[k] == r
  }

  ghost predicate PublishedInFlight<M>(s: State<M>, r: nat) {
    exists w :: HasPublished(s, w, r)
  }

  ghost function Locked<M>(s: State<M>): set<nat> {
    set r | 0 <= r < |s.rows| && InFlight(s, r)
  }

  function Insert<M>(s: State<M>, msg: M, createdAt: int): State<M> {
    s.(rows := s.rows + [Row(msg, createdAt, false)])
  }

  ghost predicate CanFetch<M>(s: State<M>, w: nat, limit: nat, ids: seq<nat>) {
    w !in s.batches && IsBatch(s.rows, Locked(s), limit, ids)
  }

  function Fetch<M>(s: State<M>, w: nat, ids: seq<nat>): State<M> {
    s.(batches := s.batches[w := Batch(ids, 0)])
  }

  predicate CanPublish<M>(s: State<M>, w: nat) {
    && w in s.batches
    && s.batches[w].next < |s.batches[w].ids|
    && s.batches[w].ids[s.batches[w].next] < |s.rows|
  }

  /** Kafka has the message from here on, whatever becomes of the transaction. */
  function Publish<M>(s: State<M>, w: nat): State<M>
    requires CanPublish(s, w)
  {
    var b := s.batches[w];
    var r := b.ids[b.next];
    s.(log := s.log + [Pub(r, s.rows[r].msg)], batches := s.batches[w := b.(next := b.next + 1)])
  }

  predicate CanCommit<M>(s: State<M>, w: nat) {
    w in s.batches && s.batches[w].next == |s.batches[w].ids|
  }

  function Commit<M>(s: State<M>, w: nat): State<M>
    requires CanCommit(s, w)
  {
    s.(rows := MarkSent(s.rows, s.batches[w].ids), batches := s.batches - {w})
  }

  /** A publish error, a store error or a crash: the transaction rolls back. */
  function Abort<M>(s: State<M>, w: nat): State<M>
    requires w in s.batches
  {
    var b := s.batches[w];
    s.(batches := s.batches - {w},
       aborted := s.aborted + multiset(Members(b.ids)),
       lost := s.lost + multiset(PublishedBy(b)))
  }

  // ---------------------------------------------------------------------------
  // Delivery accounting
  // ---------------------------------------------------------------------------

  /** How many times row r was written to Kafka. */
  function Pubs<M>(log: seq<Pub<M>>, r: nat): nat {
    if |log| == 0 then 0
    else Pubs(log[..|log| - 1], r) + (if log[|log| - 1].id == r then 1 else 0)
  }

  ghost predicate BatchesOk<M>(s: State<M>) {
    && (forall w | w in s.batches :: s.batches[w].next <= |s.batches[w].ids| && Distinct(s.batches[w].ids))
    && (forall w, r | w in s.batches && r in s.batches[w].ids :: Pending(s.rows, r))
    && (forall v, w, r | v in s.batches && w in s.batches && r in s.batches[v].ids && r in s.batches[w].ids :: v == w)
  }

  ghost predicate LogOk<M>(s: State<M>) {
    forall k | 0 <= k < |s.log| :: s.log[k].id < |s.rows| && s.rows[s.log[k].id].msg == s.log[k].msg
  }

  /** Row r was published once by each batch that went on to fail, and once more if a batch
      has committed it or has it published and is still open. */
  ghost predicate Counted<M>(s: State<M>, r: nat)
    requires r < |s.rows|
  {
    Pubs(s.log, r) == s.lost[r] + (if s.rows[r].sent || PublishedInFlight(s, r) then 1 else 0)
  }

  /** What every step of every worker keeps. */
  ghost predicate Inv<M>(s: State<M>) {
    && s.lost <= s.aborted
    && (forall r | r in s.lost :: r < |s.rows|)
    && BatchesOk(s)
    && LogOk(s)
    && (forall r: nat | r < |s.rows| :: Counted(s, r))
  }

  lemma PubsAppend<M>(log: seq<Pub<M>>, p: Pub<M>, r: nat)
    ensures Pubs(log + [p], r) == Pubs(log, r) + (if p.id == r then 1 else 0)
  {
    assert (log + [p])[..|log|] == log;
  }

  lemma {:induction false} PubsBeyond<M>(log: seq<Pub<M>>, r: nat)
    requires forall k | 0 <= k < |log| :: log[k].id != r
    ensures Pubs(log, r) == 0
  {
    if |log| == 0 {
    } else {
      PubsBeyond(log[..|log| - 1], r);
    }
  }

  lemma {:induction false} PublishedIsLogged<M>(log: seq<Pub<M>>, r: nat)
    requires Pubs(log, r) >= 1
    ensures exists k :: 0 <= k < |log| && log[k].id == r
  {
    if log[|log| - 1].id != r {
      PublishedIsLogged(log[..|log| - 1], r);
      var k :| 0 <= k < |log| - 1 && log[..|log| - 1][k].id == r;
      assert log[k].id == r;
    }
  }

  lemma SameBatches<M>(s: State<M>, t: State<M>, r: nat)
    requires s.batches == t.batches
    ensures PublishedInFlight(s, r) == PublishedInFlight(t, r)
  {
    assert forall w :: HasPublished(s, w, r) == HasPublished(t, w, r);
  }

  lemma PublishedIsPending<M>(s: State<M>, r: nat)
    requires BatchesOk(s)
    ensures PublishedInFlight(s, r) ==> Pending(s.rows, r)
  {
    forall w | HasPublished(s, w, r) ensures Pending(s.rows, r) {
      assert r in s.batches[w].ids;
    }
  }

  lemma NextIsUnpublished<M>(s: State<M>, w: nat)
    requires BatchesOk(s) && CanPublish(s, w)
    ensures !PublishedInFlight(s, s.batches[w].ids[s.batches[w].next])
  {
    var p := s.batches[w].ids[s.batches[w].next];
    assert p in s.batches[w].ids;
    assert forall v | v in s.batches && p in s.batches[v].ids :: v == w;
  }

  lemma InsertKeepsInv<M>(s: State<M>, msg: M, createdAt: int)
    requires Inv(s)
    ensures Inv(Insert(s, msg, createdAt))
  {
    var t := Insert(s, msg, createdAt);
    forall w, r | w in t.batches && r in t.batches[w].ids ensures Pending(t.rows, r) {
      assert Pending(s.rows, r);
    }
    forall r: nat | r < |t.rows| ensures Counted(t, r) {
      SameBatches(s, t, r);
      if r < |s.rows| {
        assert Counted(s, r);
      } else {
        PubsBeyond(s.log, r);
        PublishedIsPending(s, r);
      }
    }
  }

  lemma FetchKeepsInv<M>(s: State<M>, w: nat, limit: nat, ids: seq<nat>)
    requires Inv(s) && CanFetch(s, w, limit, ids)
    ensures Inv(Fetch(s, w, ids))
  {
    var t := Fetch(s, w, ids);
    forall v, r | v in s.batches && r in s.batches[v].ids ensures r !in ids {
      assert InFlight(s, r);
      assert Pending(s.rows, r);
    }
    forall r: nat | r < |t.rows| ensures Counted(t, r) {
      assert Counted(s, r);
      assert forall v :: HasPublished(s, v, r) == HasPublished(t, v, r);
    }
  }

  lemma PublishKeepsInv<M>(s: State<M>, w: nat)
    requires Inv(s) && CanPublish(s, w)
    ensures Inv(Publish(s, w))
  {
    var t := Publish(s, w);
    var b := s.batches[w];
    var p := b.ids[b.next];
    assert p in b.ids;
    assert Pending(s.rows, p);
    forall r: nat | r < |t.rows| ensures Counted(t, r) {
      assert Counted(s, r);
      PubsAppend(s.log, Pub(p, s.rows[p].msg), r);
      if r == p {
        NextIsUnpublished(s, w);
        assert HasPublished(t, w, p);
      } else {
        assert forall v :: HasPublished(s, v, r) == HasPublished(t, v, r);
      }
    }
  }

  /** Closing a batch changes the in-flight publications only for the batch's own rows. */
  lemma ClosedBatch<M>(s: State<M>, t: State<M>, w: nat, r: nat)
    requires BatchesOk(s) && w in s.batches && t.batches == s.batches - {w}
    ensures r !in s.batches[w].ids ==> PublishedInFlight(t, r) == PublishedInFlight(s, r)
    ensures r in s.batches[w].ids ==> !PublishedInFlight(t, r)
  {
    forall v | HasPublished(t, v, r) ensures r !in s.batches[w].ids && HasPublished(s, v, r) {
      assert r in s.batches[v].ids;
    }
    forall v | HasPublished(s, v, r) && r !in s.batches[w].ids ensures HasPublished(t, v, r) {
      assert r in s.batches[v].ids;
    }
  }

  lemma CommitKeepsInv<M>(s: State<M>, w: nat)
    requires Inv(s) && CanCommit(s, w)
    ensures Inv(Commit(s, w))
  {
    var t := Commit(s, w);
    var b := s.batches[w];
    forall r: nat | r < |t.rows| ensures Counted(t, r) {
      assert Counted(s, r);
      ClosedBatch(s, t, w, r);
      if r in b.ids {
        assert HasPublished(s, w, r);
      }
    }
    forall v, r | v in t.batches && r in t.batches[v].ids ensures Pending(t.rows, r) {
      assert v in s.batches && Pending(s.rows, r);
      assert r !in b.ids;
    }
  }

  lemma AbortCounts<M>(s: State<M>, w: nat, r: nat)
    requires BatchesOk(s) && w in s.batches
    ensures Abort(s, w).lost[r] == s.lost[r] + (if HasPublished(s, w, r) then 1 else 0)
    ensures HasPublished(s, w, r) ==> r in s.batches[w].ids && PublishedInFlight(s, r)
    ensures PublishedInFlight(s, r) && r in s.batches[w].ids ==> HasPublished(s, w, r)
  {
    var b := s.batches[w];
    assert HasPublished(s, w, r) <==> r in PublishedBy(b);
    forall v | HasPublished(s, v, r) ensures r in s.batches[v].ids {
    }
  }

  lemma AbortLosesRows<M>(s: State<M>, w: nat)
    requires Inv(s) && w in s.batches
    ensures Abort(s, w).lost <= Abort(s, w).aborted
    ensures forall r | r in Abort(s, w).lost :: r < |s.rows|
  {
    var b := s.batches[w];
    forall r | r in PublishedBy(b) ensures r in Members(b.ids) && r < |s.rows| {
      assert r in b.ids && Pending(s.rows, r);
    }
    assert PublishedBy(b) <= Members(b.ids);
    assert forall r :: multiset(PublishedBy(b))[r] <= multiset(Members(b.ids))[r];
    assert forall r | r in s.lost + multiset(PublishedBy(b)) :: r in s.lost || r in PublishedBy(b);
  }

  lemma AbortKeepsInv<M>(s: State<M>, w: nat)
    requires Inv(s) && w in s.batches
    ensures Inv(Abort(s, w))
  {
    var t := Abort(s, w);
    AbortLosesRows(s, w);
    forall r: nat | r < |t.rows| ensures Counted(t, r) {
      assert Counted(s, r);
      ClosedBatch(s, t, w, r);
      AbortCounts(s, w, r);
      PublishedIsPending(s, r);
    }
  }

  /** Open batches never share a row; a SENT row was published; only stored rows are
      published; a row is published exactly once by each of its batches that published it and
      did not commit, and once more if it is SENT or published by an open batch. */
  ghost predicate Accounted<M>(s: State<M>, r: nat) {
    && (forall v, w | v in s.batches && w in s.batches && r in s.batches[v].ids && r in s.batches[w].ids :: v == w)
    && (forall k | 0 <= k < |s.log| :: s.log[k].id < |s.rows| && s.log[k].msg == s.rows[s.log[k].id].msg)
    && (r < |s.rows| ==>
          && (s.rows[r].sent ==> exists k :: 0 <= k < |s.log| && s.log[k] == Pub(r, s.rows[r].msg))
          && Pubs(s.log, r) == s.lost[r] + (if s.rows[r].sent || PublishedInFlight(s, r) then 1 else 0)
          && s.lost[r] <= s.aborted[r])
  }

  lemma InvAccounts<M>(s: State<M>, r: nat)
    requires Inv(s)
    ensures Accounted(s, r)
  {
    if r < |s.rows| {
      assert Counted(s, r);
      if s.rows[r].sent {
        PublishedIsLogged(s.log, r);
        var k :| 0 <= k < |s.log| && s.log[k].id == r;
        assert s.log[k] == Pub(r, s.rows[r].msg);
      }
    }
  }
}
