/**
 Where a recompute sends the money, said item by item: a lane weighs what its items cost, and
 without pins every lane gets its items' part of the total to the cent.
 */
module LaneItems {
  import opened Prelude
  import opened Apportionment
  import opened MoneyPath
  import opened Recompute

  ghost predicate DistinctItems(items: seq<Item>) {
    forall i, j | 0 <= i < j < |items| :: items[i].id != items[j].id
  }

  /** No item is assigned twice. */
  ghost predicate AssignedOnce(assignments: seq<Assignment>) {
    forall i, j | 0 <= i < j < |assignments| :: assignments[i].item != assignments[j].item
  }

  /** An item without an amount costs nothing. */
  function Cost(item: Item): int {
    match item.amount case None => 0 case Some(a) => a
  }

  ghost predicate IsOn(assignments: seq<Assignment>, id: string, lane: LaneId) {
    Assignment(id, lane) in assignments
  }

  /** What the items on a lane cost, discounts included: a sum over the items, not over the assignments. */
  ghost function CostOn(items: seq<Item>, assignments: seq<Assignment>, lane: LaneId): int {
    if items == [] then 0
    else
      var last := items[|items| - 1];
      CostOn(items[..|items| - 1], assignments, lane) + if IsOn(assignments, last.id, lane) then Cost(last) else 0
  }

  // ---------- both sums are the same ----------

  lemma {:induction false} AmountOfListed(items: seq<Item>, i: nat)
    requires DistinctItems(items) && i < |items|
    ensures ItemAmount(items, items[i].id) == Cost(items[i])
  {
    if i < |items| - 1 {
      assert items[i] == items[..|items| - 1][i];
      AmountOfListed(items[..|items| - 1], i);
    }
  }

  lemma {:induction false} AmountOfUnlisted(items: seq<Item>, id: string)
    requires forall i | 0 <= i < |items| :: items[i].id != id
    ensures ItemAmount(items, id) == 0
  {
    if items != [] {
      AmountOfUnlisted(items[..|items| - 1], id);
    }
  }

  lemma OnSnoc(assignments: seq<Assignment>, a: Assignment, id: string, lane: LaneId)
    ensures IsOn(assignments + [a], id, lane) <==> IsOn(assignments, id, lane) || a == Assignment(id, lane)
  {
  }

  /** One more assignment adds its item's cost, once, to the sum over the items. */
  lemma {:induction false} CostOnSnoc(items: seq<Item>, assignments: seq<Assignment>, a: Assignment, lane: LaneId)
    requires DistinctItems(items)
    requires forall k | 0 <= k < |assignments| :: assignments[k].item != a.item
    ensures CostOn(items, assignments + [a], lane)
            == CostOn(items, assignments, lane) + if a.lane == lane then ItemAmount(items, a.item) else 0
  {
    hide IsOn;
    if items != [] {
      var n := |items| - 1;
      var last := items[n];
      CostOnSnoc(items[..n], assignments, a, lane);
      OnSnoc(assignments, a, last.id, lane);
      if last.id == a.item {
        NotYetOn(assignments, a.item, lane);
        AmountOfUnlisted(items[..n], a.item);
      }
    }
  }

  lemma NotYetOn(assignments: seq<Assignment>, id: string, lane: LaneId)
    requires forall k | 0 <= k < |assignments| :: assignments[k].item != id
    ensures !IsOn(assignments, id, lane)
  {
  }

  lemma {:induction false} NothingOn(items: seq<Item>, lane: LaneId)
    ensures CostOn(items, [], lane) == 0
  {
    if items != [] {
      NothingOn(items[..|items| - 1], lane);
    }
  }

  /** Items that are assigned at most once: a lane's total is what the items on it cost. */
  lemma {:induction false} LaneTotalIsCost(items: seq<Item>, assignments: seq<Assignment>, lane: LaneId)
    requires DistinctItems(items) && AssignedOnce(assignments)
    ensures LaneTotal(items, assignments, lane) == CostOn(items, assignments, lane)
  {
    hide IsOn;
    if assignments == [] {
      NothingOn(items, lane);
    } else {
      var n := |assignments| - 1;
      LaneTotalIsCost(items, assignments[..n], lane);
      assert assignments == assignments[..n] + [assignments[n]];
      CostOnSnoc(items, assignments[..n], assignments[n], lane);
    }
  }

  /** So the lane weighs that, and nothing when discounts outweigh the rest. */
  lemma LaneWeighsItsItems(ws: Workspace, lane: LaneId)
    requires DistinctItems(ws.items) && AssignedOnce(ws.assignments)
    ensures LaneWeight(ws, lane) >= 0
    ensures var cost := CostOn(ws.items, ws.assignments, lane);
            LaneWeight(ws, lane) == cost || (cost < 0 && LaneWeight(ws, lane) == 0)
  {
    LaneTotalIsCost(ws.items, ws.assignments, lane);
  }

  // ---------- moving an item ----------

  lemma {:induction false} TotalAfterReassign(items: seq<Item>, assignments: seq<Assignment>, k: nat, to: LaneId,
                                              lane: LaneId)
    requires k < |assignments|
    ensures var a := assignments[k];
            var amount := ItemAmount(items, a.item);
            LaneTotal(items, assignments[k := Assignment(a.item, to)], lane)
            == LaneTotal(items, assignments, lane)
               - (if a.lane == lane then amount else 0) + (if to == lane then amount else 0)
  {
    var n := |assignments| - 1;
    var moved := assignments[k := Assignment(assignments[k].item, to)];
    if k == n {
      assert moved[..n] == assignments[..n];
    } else {
      TotalAfterReassign(items, assignments[..n], k, to, lane);
      assert moved[..n] == assignments[..n][k := Assignment(assignments[k].item, to)];
    }
  }

  /** Moving an item takes its cost from one lane to the other; a discount weighs on the lane it comes to. */
  lemma MovingMovesTheCost(ws: Workspace, i: nat, k: nat, to: LaneId)
    requires DistinctItems(ws.items) && i < |ws.items| && k < |ws.assignments|
    requires ws.assignments[k].item == ws.items[i].id && ws.assignments[k].lane != to
    ensures var from, cost := ws.assignments[k].lane, Cost(ws.items[i]);
            var moved := ws.assignments[k := Assignment(ws.items[i].id, to)];
            && LaneTotal(ws.items, moved, to) == LaneTotal(ws.items, ws.assignments, to) + cost
            && LaneTotal(ws.items, moved, from) == LaneTotal(ws.items, ws.assignments, from) - cost
            && forall lane | lane != from && lane != to ::
                 LaneTotal(ws.items, moved, lane) == LaneTotal(ws.items, ws.assignments, lane)
  {
    AmountOfListed(ws.items, i);
    forall lane {
      TotalAfterReassign(ws.items, ws.assignments, k, to, lane);
    }
  }

  // ---------- what every lane gets ----------

  /** What the items of each lane cost, nothing for a lane in debt. */
  ghost function Costs(ws: Workspace, lanes: seq<Lane>): (c: seq<int>)
    ensures |c| == |lanes|
    ensures forall i | 0 <= i < |c| :: c[i] == Max(CostOn(ws.items, ws.assignments, lanes[i].id), 0)
  {
    seq(|lanes|, i requires 0 <= i < |lanes| => Max(CostOn(ws.items, ws.assignments, lanes[i].id), 0))
  }

  lemma WeightsAreCosts(ws: Workspace, lanes: seq<Lane>)
    requires DistinctItems(ws.items) && AssignedOnce(ws.assignments)
    ensures Weights(ws, lanes) == Costs(ws, lanes)
    ensures forall i | 0 <= i < |lanes| :: Costs(ws, lanes)[i] >= 0
  {
    forall i | 0 <= i < |lanes| ensures Weights(ws, lanes)[i] == Costs(ws, lanes)[i] {
      LaneWeighsItsItems(ws, lanes[i].id);
    }
  }

  /**
   A recompute without kept pins: each lane gets its items' part of the total to the cent, a lane
   with dearer items never less, a lane without cost nothing, and the parts are even when nothing
   on any lane has a cost.
   */
  lemma LanesGetTheirItemsPart(ws: Workspace, lanes: seq<Lane>, total: int, amounts: map<LaneId, int>)
    requires DistinctItems(ws.items) && AssignedOnce(ws.assignments)
    requires lanes != [] && total > 0 && Gives(ws, lanes, total, false, amounts)
    ensures Sum(Costs(ws, lanes)) > 0 ==> Proportional(total, Costs(ws, lanes), AmountsOf(lanes, amounts))
    ensures Sum(Costs(ws, lanes)) == 0 ==> Even(total, AmountsOf(lanes, amounts))
  {
    WeightsAreCosts(ws, lanes);
    CentsAreProportional(total, Weights(ws, lanes), AmountsOf(lanes, amounts));
  }

  /** With kept pins the unpinned lanes share what the pins leave in the same way. */
  lemma UnpinnedGetTheirItemsPart(ws: Workspace, lanes: seq<Lane>, total: int, amounts: map<LaneId, int>)
    requires DistinctItems(ws.items) && AssignedOnce(ws.assignments)
    requires Unpinned(lanes) != [] && total > PinnedSum(lanes) && Gives(ws, lanes, total, true, amounts)
    ensures var rest, open := total - PinnedSum(lanes), Unpinned(lanes);
            && (Sum(Costs(ws, open)) > 0 ==> Proportional(rest, Costs(ws, open), AmountsOf(open, amounts)))
            && (Sum(Costs(ws, open)) == 0 ==> Even(rest, AmountsOf(open, amounts)))
  {
    hide AllocatesCents, Weights, Sum, Proportional, Even, Costs, PinnedSum;
    WeightsAreCosts(ws, Unpinned(lanes));
    CentsAreProportional(total - PinnedSum(lanes), Weights(ws, Unpinned(lanes)), AmountsOf(Unpinned(lanes), amounts));
  }

  // ---------- the rows of the next payload ----------

  /** quantize(0.01, ROUND_HALF_UP): the nearest cent, and half a cent goes away from zero. */
  lemma CentsAreNearest(milliunits: int)
    ensures var c := ToCents(milliunits);
            if milliunits >= 0 then -5 < 10 * c - milliunits <= 5 else -5 <= 10 * c - milliunits < 5
  {
  }

  /** The row of a lane: its category, its amount, and the memo the payload had at the lane's index. */
  predicate IsRowOf(row: Split, p: Payload, l: Lane, cents: int)
    requires l.id.SplitLane?
  {
    && row.amount == 10 * cents
    && (match l.category case None => row.category == "" case Some(c) => row.category == c)
    && row.memo == if l.id.index < |p.splits| then p.splits[l.id.index].memo else ""
  }

  /** A payload's rows in lane order: row i is that of split lane i, when the lanes are 0 to n - 1 in any order. */
  lemma RowsInLaneOrder(p: Payload, lanes: seq<Lane>, amounts: map<LaneId, int>, next: Payload)
    requires SplitsFrom(p, lanes, amounts, next)
    requires DistinctIds(lanes) && forall l | l in lanes :: l.id.index < |lanes|
    ensures next == p.(category := None, splits := next.splits) && |next.splits| == |lanes|
    ensures forall l | l in lanes :: IsRowOf(next.splits[l.id.index], p, l, amounts[l.id])
  {
    SplitsSum(p, lanes, amounts, next);
    var sorted: seq<Lane> :| RowsFor(p, lanes, amounts, sorted, next.splits);
    hide RowsFor, SplitsFrom, IsRowOf;
    forall l | l in lanes ensures IsRowOf(next.splits[l.id.index], p, l, amounts[l.id]) {
      RowOfLane(p, lanes, amounts, sorted, next.splits, l);
    }
  }

  lemma RowOfLane(p: Payload, lanes: seq<Lane>, amounts: map<LaneId, int>, sorted: seq<Lane>, rows: seq<Split>, l: Lane)
    requires RowsFor(p, lanes, amounts, sorted, rows) && l in lanes && DistinctIds(lanes)
    requires forall x | x in lanes :: x.id.SplitLane? && x.id in amounts && x.id.index < |rows|
    requires |rows| == |lanes|
    ensures IsRowOf(rows[l.id.index], p, l, amounts[l.id])
  {
    hide IsAscending, DistinctIds;
    SameElements(sorted, lanes);
    SameElements(lanes, sorted);
    StillDistinct(sorted, lanes);
    assert l in sorted;
    var i :| 0 <= i < |sorted| && sorted[i] == l;
    forall k | 0 <= k < |sorted| ensures sorted[k].id.SplitLane? && sorted[k].id.index < |sorted| {
      assert sorted[k] in sorted;
    }
    IndexIsPosition(sorted, i);
    assert rows[i] == SplitFor(p, l, amounts[l.id]);
  }

  lemma StillDistinct(a: seq<Lane>, b: seq<Lane>)
    requires multiset(a) == multiset(b) && DistinctIds(b)
    ensures DistinctIds(a)
  {
    forall i, j | 0 <= i < j < |a| ensures a[i].id != a[j].id {
      if a[i].id == a[j].id {
        SameElements(a, b);
        assert a[i] in b && a[j] in b;
        assert a[i] == a[j];
        assert a == a[..i] + [a[i]] + a[i + 1..j] + [a[j]] + a[j + 1..];
        assert multiset(a)[a[i]] >= 2;
        OnceInDistinct(b, a[i]);
      }
    }
  }

  lemma {:induction false} OnceInDistinct(b: seq<Lane>, l: Lane)
    requires DistinctIds(b)
    ensures multiset(b)[l] <= 1
  {
    if b != [] {
      var n := |b| - 1;
      assert b == b[..n] + [b[n]];
      OnceInDistinct(b[..n], l);
      if b[n] == l {
        assert l !in b[..n];
      }
    }
  }

  /** Distinct indices below n, in ascending order, are 0 to n - 1. */
  lemma IndexIsPosition(sorted: seq<Lane>, i: nat)
    requires IsAscending(sorted) && DistinctIds(sorted) && i < |sorted|
    requires forall k | 0 <= k < |sorted| :: sorted[k].id.SplitLane? && sorted[k].id.index < |sorted|
    ensures sorted[i].id.index == i
  {
    IndexAtLeast(sorted, i);
    IndexAtMost(sorted, i);
  }

  lemma {:induction false} IndexAtLeast(sorted: seq<Lane>, i: nat)
    requires IsAscending(sorted) && DistinctIds(sorted) && i < |sorted|
    requires forall k | 0 <= k < |sorted| :: sorted[k].id.SplitLane?
    ensures sorted[i].id.index >= i
  {
    if i > 0 {
      IndexAtLeast(sorted, i - 1);
    }
  }

  lemma {:induction false} IndexAtMost(sorted: seq<Lane>, i: nat)
    requires IsAscending(sorted) && DistinctIds(sorted) && i < |sorted|
    requires forall k | 0 <= k < |sorted| :: sorted[k].id.SplitLane? && sorted[k].id.index < |sorted|
    ensures sorted[i].id.index <= i
    decreases |sorted| - i
  {
    if i < |sorted| - 1 {
      IndexAtMost(sorted, i + 1);
    }
  }

  /**
   The whole of it: split lanes 0 to n - 1 without pins over items with a positive cost. Row i of the
   next payload is less than a cent from the total times what the items on lane i cost, over what
   the items on all lanes cost.
   */
  lemma SplitsFollowTheirItems(p: Payload, ws: Workspace, lanes: seq<Lane>, amounts: map<LaneId, int>, next: Payload)
    requires DistinctItems(ws.items) && AssignedOnce(ws.assignments)
    requires lanes != [] && ToCents(p.total) > 0 && DistinctIds(lanes)
    requires Gives(ws, lanes, ToCents(p.total), false, amounts) && SplitsFrom(p, lanes, amounts, next)
    requires forall i | 0 <= i < |lanes| :: lanes[i].id == SplitLane(i)
    requires Sum(Costs(ws, lanes)) > 0
    ensures |next.splits| == |lanes|
    ensures var all := Sum(Costs(ws, lanes));
            forall i | 0 <= i < |lanes| ::
              -10 * all < all * next.splits[i].amount - 10 * ToCents(p.total) * Costs(ws, lanes)[i] < 10 * all
  {
    hide Gives, SplitsFrom, ToCents, Sum, Costs;
    AllGiven(ws, lanes, ToCents(p.total), false, amounts);
    var cents, all := ToCents(p.total), Sum(Costs(ws, lanes));
    LanesGetTheirItemsPart(ws, lanes, cents, amounts);
    forall l | l in lanes ensures l.id.SplitLane? && l.id.index < |lanes| {
      var i :| 0 <= i < |lanes| && lanes[i] == l;
    }
    RowsInLaneOrder(p, lanes, amounts, next);
    SplitsSum(p, lanes, amounts, next);
    forall i | 0 <= i < |lanes|
      ensures -10 * all < all * next.splits[i].amount - 10 * cents * Costs(ws, lanes)[i] < 10 * all
    {
      assert lanes[i] in lanes;
      TenTimes(all, AmountsOf(lanes, amounts)[i], cents, Costs(ws, lanes)[i]);
    }
  }

  lemma TenTimes(all: int, amount: int, cents: int, cost: int)
    requires -all < all * amount - cents * cost < all
    ensures -10 * all < all * (10 * amount) - 10 * cents * cost < 10 * all
  {
    assert all * (10 * amount) == 10 * (all * amount);
    assert 10 * cents * cost == 10 * (cents * cost);
  }
}
