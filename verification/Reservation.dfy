/** The stock aggregate and the arithmetic of reserving a whole order: the check loop
    over the rows as read, then the apply loop that reserves item by item. */
module Reservation {
  import opened Common

  type Sku = string

  /** A row of the stock table. */
  datatype Row = Row(available: int, reserved: int, version: int)

  type Table = map<Sku, Row>

  datatype Item = Item(sku: Sku, qty: int)

  const ONE_UNIT: seq<Item> := [Item("sku", 1)]

  datatype Error = NotPositive | Insufficient | NotFound

  /** The two errors the use case records as a refusal; NotPositive is not one of them. */
  predicate IsRefusal(e: Error) {
    e.Insufficient? || e.NotFound?
  }

  // ---------------------------------------------------------------------------
  // The aggregate
  // ---------------------------------------------------------------------------

  class Stock {
    const sku: Sku
    var availableQty: int
    var reservedQty: int

    constructor (sku: Sku, availableQty: int, reservedQty: int)
      ensures this.sku == sku && this.availableQty == availableQty && this.reservedQty == reservedQty
    {
      this.sku, this.availableQty, this.reservedQty := sku, availableQty, reservedQty;
    }

    /** Moves qty units from available to reserved, or says why not and changes nothing. */
    method Reserve(qty: int) returns (err: Option<Error>)
      modifies this
      ensures err.None? <==> 0 < qty <= old(availableQty)
      ensures err.Some? ==> err.value == if qty <= 0 then NotPositive else Insufficient
      ensures availableQty == old(availableQty) - (if err.None? then qty else 0)
      ensures availableQty + reservedQty == old(availableQty + reservedQty)
    {
      if qty <= 0 {
        return Some(NotPositive);
      }
      if availableQty < qty {
        return Some(Insufficient);
      }
      availableQty := availableQty - qty;
      reservedQty := reservedQty + qty;
      return None;
    }

    /** The compensation. It undoes a successful Reserve of the same quantity exactly. */
    method Release(qty: int) returns (ok: bool)
      modifies this
      ensures ok <==> 0 < qty <= old(reservedQty)
      ensures availableQty == old(availableQty) + (if ok then qty else 0)
      ensures availableQty + reservedQty == old(availableQty + reservedQty)
    {
      if qty <= 0 || reservedQty < qty {
        return false;
      }
      reservedQty := reservedQty - qty;
      availableQty := availableQty + qty;
      return true;
    }
  }

  // ---------------------------------------------------------------------------
  // The two loops
  // ---------------------------------------------------------------------------

  datatype Outcome = Reserved(table: Table) | Failed(error: Error)

  /** Loop 1: every item against the rows as read, none of them diminished yet. */
  function CheckLoop(table: Table, items: seq<Item>): Option<Error> {
    if items == [] then None
    else if items[0].sku !in table then Some(NotFound)
    else if table[items[0].sku].available < items[0].qty then Some(Insufficient)
    else CheckLoop(table, items[1..])
  }

  /** Reserve on the row object, then UPDATE stock ... version = version + 1. */
  function Take(row: Row, qty: int): Row {
    Row(row.available - qty, row.reserved + qty, row.version + 1)
  }

  /** Loop 2: reserve and write back item by item. */
  function ApplyLoop(table: Table, items: seq<Item>): Outcome
    requires forall i | 0 <= i < |items| :: items[i].sku in table
  {
    if items == [] then Reserved(table)
    else if items[0].qty <= 0 then Failed(NotPositive)
    else if table[items[0].sku].available < items[0].qty then Failed(Insufficient)
    else ApplyLoop(table[items[0].sku := Take(table[items[0].sku], items[0].qty)], items[1..])
  }

  /** What a reservation of items does to the rows it has locked. */
  function Decide(table: Table, items: seq<Item>): Outcome {
    match CheckLoop(table, items)
    case Some(e) => Failed(e)
    case None => CheckedItemsExist(table, items); ApplyLoop(table, items)
  }

  lemma {:induction false} CheckedItemsExist(table: Table, items: seq<Item>)
    requires CheckLoop(table, items).None?
    ensures forall i | 0 <= i < |items| :: items[i].sku in table && items[i].qty <= table[items[i].sku].available
  {
    if items == [] {
    } else {
      CheckedItemsExist(table, items[1..]);
      assert forall i | 1 <= i < |items| :: items[i] == items[1..][i - 1];
    }
  }

  // ---------------------------------------------------------------------------
  // The specification: per-SKU sums
  // ---------------------------------------------------------------------------

  /** Units of sku asked for in all. */
  function Demand(items: seq<Item>, sku: Sku): int {
    if items == [] then 0
    else (if items[0].sku == sku then items[0].qty else 0) + Demand(items[1..], sku)
  }

  /** Lines that mention sku, hence UPDATEs of its row. */
  function Lines(items: seq<Item>, sku: Sku): nat {
    if items == [] then 0
    else (if items[0].sku == sku then 1 else 0) + Lines(items[1..], sku)
  }

  predicate AllPositive(items: seq<Item>) {
    forall i | 0 <= i < |items| :: items[i].qty > 0
  }

  predicate AllExist(table: Table, items: seq<Item>) {
    forall i | 0 <= i < |items| :: items[i].sku in table
  }

  predicate Fits(table: Table, items: seq<Item>) {
    forall sku | sku in table :: Lines(items, sku) > 0 ==> Demand(items, sku) <= table[sku].available
  }

  /** Every row diminished by exactly the demand for its SKU. */
  function Deducted(table: Table, items: seq<Item>): Table {
    map sku | sku in table ::
      Row(table[sku].available - Demand(items, sku), table[sku].reserved + Demand(items, sku),
          table[sku].version + Lines(items, sku))
  }

  lemma {:induction false} DemandOfPositive(items: seq<Item>, sku: Sku)
    requires AllPositive(items)
    ensures Demand(items, sku) >= Lines(items, sku)
    ensures forall i | 0 <= i < |items| && items[i].sku == sku :: items[i].qty <= Demand(items, sku)
    ensures Lines(items, sku) == 0 ==> Demand(items, sku) == 0
  {
    if items == [] {
    } else {
      DemandOfPositive(items[1..], sku);
      assert forall i | 1 <= i < |items| :: items[i] == items[1..][i - 1];
    }
  }

  lemma {:induction false} NoLines(items: seq<Item>, sku: Sku)
    requires forall i | 0 <= i < |items| :: items[i].sku != sku
    ensures Lines(items, sku) == 0 && Demand(items, sku) == 0
  {
    if items == [] {
    } else {
      NoLines(items[1..], sku);
    }
  }

  lemma {:induction false} CheckPasses(table: Table, items: seq<Item>)
    requires forall i | 0 <= i < |items| :: items[i].sku in table && items[i].qty <= table[items[i].sku].available
    ensures CheckLoop(table, items).None?
  {
    if items == [] {
    } else {
      CheckPasses(table, items[1..]);
    }
  }

  /** Taking the first item off table and items leaves the same question. */
  lemma FirstItemFits(table: Table, items: seq<Item>)
    requires AllExist(table, items) && items != [] && AllPositive(items)
    requires items[0].qty <= table[items[0].sku].available
    ensures var t := table[items[0].sku := Take(table[items[0].sku], items[0].qty)];
            && (Fits(table, items) <==> Fits(t, items[1..]))
            && Deducted(t, items[1..]) == Deducted(table, items)
  {
    var it, rest := items[0], items[1..];
    var t := table[it.sku := Take(table[it.sku], it.qty)];
    assert AllPositive(rest);
    DemandOfPositive(rest, it.sku);
    forall sku | sku in table
      ensures (Lines(items, sku) > 0 ==> Demand(items, sku) <= table[sku].available)
          <==> (Lines(rest, sku) > 0 ==> Demand(rest, sku) <= t[sku].available)
    {
    }
  }

  lemma {:induction false} ApplySpec(table: Table, items: seq<Item>)
    requires AllExist(table, items)
    ensures ApplyLoop(table, items).Reserved? <==> AllPositive(items) && Fits(table, items)
    ensures ApplyLoop(table, items).Reserved? ==> ApplyLoop(table, items).table == Deducted(table, items)
  {
    if items == [] {
      assert Deducted(table, items) == table;
    } else {
      var it, rest := items[0], items[1..];
      assert forall i | 1 <= i < |items| :: items[i] == rest[i - 1];
      if 0 < it.qty <= table[it.sku].available {
        ApplySpec(table[it.sku := Take(table[it.sku], it.qty)], rest);
        assert AllPositive(items) <==> AllPositive(rest);
        if AllPositive(items) {
          FirstItemFits(table, items);
        }
      } else if AllPositive(items) {
        DemandOfPositive(items, it.sku);
        assert !Fits(table, items);
      }
    }
  }

  /** A reservation commits iff all quantities are positive, all SKUs exist and, SKU by
      SKU, the sum over all its lines is in stock; it then subtracts exactly those sums. */
  lemma DecideMeetsSpec(table: Table, items: seq<Item>)
    ensures Decide(table, items).Reserved? <==>
              AllPositive(items) && AllExist(table, items) && Fits(table, items)
    ensures Decide(table, items).Reserved? ==> Decide(table, items).table == Deducted(table, items)
  {
    if CheckLoop(table, items).None? {
      CheckedItemsExist(table, items);
      ApplySpec(table, items);
    } else if AllPositive(items) && AllExist(table, items) && Fits(table, items) {
      forall i | 0 <= i < |items| ensures items[i].qty <= table[items[i].sku].available {
        DemandOfPositive(items, items[i].sku);
        if Lines(items, items[i].sku) == 0 {
          LineCounted(items, i);
        }
      }
      CheckPasses(table, items);
    }
  }

  lemma {:induction false} LineCounted(items: seq<Item>, i: nat)
    requires i < |items|
    ensures Lines(items, items[i].sku) > 0
  {
    if i == 0 {
    } else {
      LineCounted(items[1..], i - 1);
    }
  }

  // ---------------------------------------------------------------------------
  // Which error it is
  // ---------------------------------------------------------------------------

  /** Item i is the first that the check loop does not let pass, and why. */
  predicate CheckFault(table: Table, items: seq<Item>, i: int, e: Error) {
    && 0 <= i < |items|
    && (forall j | 0 <= j < i :: items[j].sku in table && items[j].qty <= table[items[j].sku].available)
    && (if items[i].sku !in table then e == NotFound
        else table[items[i].sku].available < items[i].qty && e == Insufficient)
  }

  /** Item i is the first that the apply loop does not reserve, and why: up to it every line is
      positive and the sum of the lines so far for its SKU is in stock. */
  predicate ApplyFault(table: Table, items: seq<Item>, i: int, e: Error) {
    && 0 <= i < |items| && AllExist(table, items)
    && (forall j | 0 <= j < i ::
          items[j].qty > 0 && Demand(items[..j + 1], items[j].sku) <= table[items[j].sku].available)
    && (if items[i].qty <= 0 then e == NotPositive
        else table[items[i].sku].available < Demand(items[..i + 1], items[i].sku) && e == Insufficient)
  }

  lemma {:induction false} CheckFindsFault(table: Table, items: seq<Item>) returns (i: int)
    requires CheckLoop(table, items).Some?
    ensures CheckFault(table, items, i, CheckLoop(table, items).value)
  {
    if items[0].sku !in table || table[items[0].sku].available < items[0].qty {
      i := 0;
    } else {
      var k := CheckFindsFault(table, items[1..]);
      i := k + 1;
      assert forall j | 1 <= j < |items| :: items[j] == items[1..][j - 1];
    }
  }

  lemma {:induction false} ApplyFindsFault(table: Table, items: seq<Item>) returns (i: int)
    requires AllExist(table, items) && ApplyLoop(table, items).Failed?
    ensures ApplyFault(table, items, i, ApplyLoop(table, items).error)
  {
    var it, rest := items[0], items[1..];
    assert items[..1] == [it] && Demand(items[..1], it.sku) == it.qty by {
      assert [it][1..] == [];
    }
    if it.qty <= 0 || table[it.sku].available < it.qty {
      i := 0;
    } else {
      var t := table[it.sku := Take(table[it.sku], it.qty)];
      var k := ApplyFindsFault(t, rest);
      i := k + 1;
      forall j | 1 <= j <= i
        ensures items[j] == rest[j - 1]
        ensures Demand(items[..j + 1], items[j].sku) ==
                Demand(rest[..j], items[j].sku) + table[items[j].sku].available - t[items[j].sku].available
      {
        assert items[..j + 1][1..] == rest[..j];
      }
    }
  }

  /** A reservation that fails fails for the first line at fault, and never for a line that is
      not positive when all are. */
  lemma RejectionHasFault(table: Table, items: seq<Item>)
    requires Decide(table, items).Failed?
    ensures exists i :: CheckFault(table, items, i, Decide(table, items).error)
                     || ApplyFault(table, items, i, Decide(table, items).error)
    ensures Decide(table, items).error == NotPositive ==> exists i :: 0 <= i < |items| && items[i].qty <= 0
  {
    if CheckLoop(table, items).Some? {
      var i := CheckFindsFault(table, items);
    } else {
      CheckedItemsExist(table, items);
      var i := ApplyFindsFault(table, items);
    }
  }

  // ---------------------------------------------------------------------------
  // Order of the items does not matter
  // ---------------------------------------------------------------------------

  lemma {:induction false} SumsAppend(a: seq<Item>, b: seq<Item>, sku: Sku)
    ensures Demand(a + b, sku) == Demand(a, sku) + Demand(b, sku)
    ensures Lines(a + b, sku) == Lines(a, sku) + Lines(b, sku)
  {
    if a == [] {
      assert a + b == b;
    } else {
      SumsAppend(a[1..], b, sku);
      assert (a + b)[1..] == a[1..] + b;
    }
  }

  function Without(b: seq<Item>, k: nat): seq<Item>
    requires k < |b|
  {
    b[..k] + b[k + 1..]
  }

  lemma DropOne(b: seq<Item>, k: nat, sku: Sku)
    requires k < |b|
    ensures multiset(Without(b, k)) == multiset(b) - multiset{b[k]}
    ensures Demand(b, sku) == Demand(Without(b, k), sku) + (if b[k].sku == sku then b[k].qty else 0)
    ensures Lines(b, sku) == Lines(Without(b, k), sku) + (if b[k].sku == sku then 1 else 0)
  {
    SumsAppend(b[..k], b[k + 1..], sku);
    SumsAppend(b[..k], b[k..], sku);
    assert b == b[..k] + b[k..] && b[k..] == [b[k]] + b[k + 1..];
  }

  lemma FindIn(b: seq<Item>, it: Item) returns (k: nat)
    requires it in multiset(b)
    ensures k < |b| && b[k] == it
  {
    assert it in b;
    k :| 0 <= k < |b| && b[k] == it;
  }

  lemma {:induction false} SumsOfPermutation(a: seq<Item>, b: seq<Item>, sku: Sku)
    requires multiset(a) == multiset(b)
    ensures Demand(a, sku) == Demand(b, sku) && Lines(a, sku) == Lines(b, sku)
    decreases |a|
  {
    if |a| == 0 {
      assert |b| == |multiset(b)| == |multiset(a)|;
    } else {
      assert a[0] in multiset(a);
      var k := FindIn(b, a[0]);
      DropOne(a, 0, sku);
      DropOne(b, k, sku);
      SumsOfPermutation(Without(a, 0), Without(b, k), sku);
    }
  }

  lemma SameItems(table: Table, a: seq<Item>, b: seq<Item>)
    requires multiset(a) == multiset(b)
    ensures AllPositive(a) ==> AllPositive(b)
    ensures AllExist(table, a) ==> AllExist(table, b)
  {
    forall i | 0 <= i < |b| ensures b[i] in a {
      assert b[i] in multiset(b);
    }
  }

  lemma SuccessIgnoresItemOrder(table: Table, a: seq<Item>, b: seq<Item>)
    requires multiset(a) == multiset(b)
    ensures Decide(table, a).Reserved? == Decide(table, b).Reserved?
    ensures Decide(table, a).Reserved? ==> Decide(table, a).table == Decide(table, b).table
  {
    DecideMeetsSpec(table, a);
    DecideMeetsSpec(table, b);
    SameItems(table, a, b);
    SameItems(table, b, a);
    forall sku ensures Demand(a, sku) == Demand(b, sku) && Lines(a, sku) == Lines(b, sku) {
      SumsOfPermutation(a, b, sku);
    }
  }

  // ---------------------------------------------------------------------------
  // Refusals are final while stock only goes down
  // ---------------------------------------------------------------------------

  /** The same SKUs, none of them more available. */
  predicate Lower(table: Table, lower: Table) {
    lower.Keys == table.Keys && forall sku | sku in table :: lower[sku].available <= table[sku].available
  }

  /** The reservation would be refused: the use case records stock.failed. */
  predicate Refused(table: Table, items: seq<Item>) {
    var d := Decide(table, items);
    d.Failed? && IsRefusal(d.error)
  }

  lemma {:induction false} CheckRefusalFinal(table: Table, lower: Table, items: seq<Item>)
    requires Lower(table, lower) && CheckLoop(table, items).Some?
    ensures CheckLoop(lower, items).Some?
  {
    if items[0].sku in table && table[items[0].sku].available >= items[0].qty {
      CheckRefusalFinal(table, lower, items[1..]);
    }
  }

  lemma {:induction false} CheckRefuses(table: Table, items: seq<Item>)
    ensures CheckLoop(table, items).Some? ==> IsRefusal(CheckLoop(table, items).value)
  {
    if items == [] {
    } else {
      CheckRefuses(table, items[1..]);
    }
  }

  lemma {:induction false} ApplyRefusalFinal(table: Table, lower: Table, items: seq<Item>)
    requires Lower(table, lower) && AllExist(table, items)
    requires ApplyLoop(table, items) == Failed(Insufficient)
    ensures ApplyLoop(lower, items) == Failed(Insufficient)
  {
    var it := items[0];
    if table[it.sku].available >= it.qty && lower[it.sku].available >= it.qty {
      ApplyRefusalFinal(table[it.sku := Take(table[it.sku], it.qty)],
                        lower[it.sku := Take(lower[it.sku], it.qty)], items[1..]);
    }
  }

  /** A refused order is refused again by every later, lower stock. */
  lemma RefusalIsFinal(table: Table, lower: Table, items: seq<Item>)
    requires Lower(table, lower) && Refused(table, items)
    ensures Refused(lower, items)
  {
    CheckRefuses(lower, items);
    if CheckLoop(table, items).Some? {
      CheckRefusalFinal(table, lower, items);
    } else if CheckLoop(lower, items).None? {
      CheckedItemsExist(table, items);
      ApplyFailures(table, items);
      ApplyRefusalFinal(table, lower, items);
    }
  }

  lemma {:induction false} ApplyFailures(table: Table, items: seq<Item>)
    requires AllExist(table, items)
    ensures ApplyLoop(table, items).Failed? ==> ApplyLoop(table, items).error != NotFound
  {
    if items == [] {
    } else if 0 < items[0].qty <= table[items[0].sku].available {
      ApplyFailures(table[items[0].sku := Take(table[items[0].sku], items[0].qty)], items[1..]);
    }
  }

  // ---------------------------------------------------------------------------
  // Only the locked rows matter
  // ---------------------------------------------------------------------------

  /** The rows SELECT ... WHERE sku = ANY(...) returns. */
  function Selected(table: Table, items: seq<Item>): Table {
    map sku | sku in table && (exists i :: 0 <= i < |items| && items[i].sku == sku) :: table[sku]
  }

  lemma {:induction false} CheckFrame(part: Table, whole: Table, items: seq<Item>)
    requires forall i | 0 <= i < |items| ::
               && (items[i].sku in part <==> items[i].sku in whole)
               && (items[i].sku in part ==> part[items[i].sku] == whole[items[i].sku])
    ensures CheckLoop(part, items) == CheckLoop(whole, items)
  {
    if items == [] {
    } else {
      CheckFrame(part, whole, items[1..]);
    }
  }

  lemma {:induction false} ApplyFrame(part: Table, whole: Table, items: seq<Item>)
    requires AllExist(part, items)
    ensures ApplyLoop(part, items).Failed? ==> ApplyLoop(whole + part, items) == ApplyLoop(part, items)
    ensures ApplyLoop(part, items).Reserved? ==>
              ApplyLoop(whole + part, items) == Reserved(whole + ApplyLoop(part, items).table)
  {
    if items == [] {
    } else if 0 < items[0].qty <= part[items[0].sku].available {
      var row := Take(part[items[0].sku], items[0].qty);
      ApplyFrame(part[items[0].sku := row], whole, items[1..]);
      assert (whole + part)[items[0].sku := row] == whole + part[items[0].sku := row];
    }
  }

  /** Deciding on the selected rows and writing those back is deciding on the whole table. */
  lemma DecideFrame(table: Table, part: Table, items: seq<Item>)
    requires part == Selected(table, items)
    ensures Decide(part, items).Failed? ==> Decide(table, items) == Decide(part, items)
    ensures Decide(part, items).Reserved? ==> Decide(table, items) == Reserved(table + Decide(part, items).table)
  {
    CheckFrame(part, table, items);
    if CheckLoop(part, items).None? {
      CheckedItemsExist(part, items);
      ApplyFrame(part, table, items);
      assert table + part == table;
    }
  }
}
