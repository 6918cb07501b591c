/** The notification service's inbox: one row for each (order, event type), enforced by the
    table's primary key. */
module Notification {
  import opened Common

  /** A row of inbox_events; the event type is the topic the message came from. */
  datatype InboxRow = InboxRow(order: OrderId, kind: Kind)

  predicate NoDuplicates(inbox: seq<InboxRow>) {
    forall i, j | 0 <= i < j < |inbox| :: inbox[i] != inbox[j]
  }

  /** INSERT INTO inbox_events: a second row with the same key is a unique violation. */
  function Marked(inbox: seq<InboxRow>, row: InboxRow): seq<InboxRow> {
    if row in inbox then inbox else inbox + [row]
  }

  /** A message of one of the three topics as the consumer decodes it. */
  datatype Message = Malformed | About(order: OrderId)

  datatype Reply = Done | AlreadyProcessed | StoreError

  class InboxRepository {
    var inbox: seq<InboxRow>
    /** The notifications sent, in order; sending does not roll back. */
    var sent: seq<InboxRow>
    /** How many statements have failed. */
    ghost var failures: nat

    /** Every row of the inbox stands for a notification that was sent. */
    ghost predicate Valid() reads this {
      NoDuplicates(inbox) && forall row | row in inbox :: row in sent
    }

    constructor ()
      ensures Valid() && inbox == [] && sent == [] && failures == 0
    {
      inbox, sent, failures := [], [], 0;
    }

    /** One statement sent to the store: it may fail at any time, and is alone in that. */
    method Statement() returns (ok: bool)
      modifies this`failures
      ensures failures == old(failures) + (if ok then 0 else 1)
    {
      ok := *;
      if !ok {
        failures := failures + 1;
      }
    }

    /** A duplicate is neither stored nor notified; a store error before the insert changes
        nothing; one at commit leaves the inbox as it was but the notification out. */
    method MarkProcessedAndNotify(order: OrderId, kind: Kind) returns (r: Reply)
      requires Valid()
      modifies this
      ensures Valid()
      ensures failures == old(failures) + (if r.StoreError? then 1 else 0)
      ensures r.AlreadyProcessed? ==> InboxRow(order, kind) in old(inbox)
      ensures r.Done? ==> InboxRow(order, kind) !in old(inbox) && sent == old(sent) + [InboxRow(order, kind)]
      ensures !r.StoreError? ==> inbox == Marked(old(inbox), InboxRow(order, kind))
      ensures inbox == old(inbox) + (if r.Done? then [InboxRow(order, kind)] else [])
      ensures InboxRow(order, kind) in old(inbox) ==> sent == old(sent)
      ensures sent == old(sent) || sent == old(sent) + [InboxRow(order, kind)]
    {
      var row := InboxRow(order, kind);
      var ok := Statement();
      if !ok {
        return StoreError;
      }
      if row in inbox {
        return AlreadyProcessed;
      }
      sent := sent + [row];
      ok := Statement();
      if !ok {
        return StoreError;
      }
      inbox := inbox + [row];
      return Done;
    }

    /** Unless a statement fails the offset is committed. Then a readable message has its row
        stored and its notification out, both just now if the row is new and neither if not. */
    method HandleMessage(kind: Kind, msg: Message) returns (commitOffset: bool)
      requires Valid()
      modifies this
      ensures Valid()
      ensures failures == old(failures) + (if commitOffset then 0 else 1)
      ensures msg.Malformed? ==> commitOffset && inbox == old(inbox) && sent == old(sent)
      ensures commitOffset && msg.About? ==> InboxRow(msg.order, kind) in inbox && InboxRow(msg.order, kind) in sent
      ensures msg.About? && InboxRow(msg.order, kind) in old(inbox) ==> inbox == old(inbox) && sent == old(sent)
      ensures msg.About? && InboxRow(msg.order, kind) !in old(inbox) ==>
                var row := InboxRow(msg.order, kind);
                if commitOffset then inbox == old(inbox) + [row] && sent == old(sent) + [row]
                else inbox == old(inbox) && (sent == old(sent) || sent == old(sent) + [row])
    {
      if msg.Malformed? {
        return true;
      }
      var r := MarkProcessedAndNotify(msg.order, kind);
      commitOffset := !r.StoreError?;
    }
  }
}
