/**
 From the allocation workspace to split amounts: recompute_payload_from_workspace of
 services/allocation_workspace.py and materialize_arrangement of
 services/category_resolution.py, composed with the validator and the payload builder.
 */
module Recompute {
  import opened Prelude
  import opened Apportionment
  import opened MoneyPath

  datatype LaneId = Main | SplitLane(index: nat) | Unassigned

  /** A lane; pinned is an exact amount in milliunits. */
  datatype Lane = Lane(id: LaneId, category: Option<string>, pinned: Option<int>)

  datatype Item = Item(id: string, amount: Option<int>)

  datatype Assignment = Assignment(item: string, lane: LaneId)

  datatype Workspace = Workspace(items: seq<Item>, lanes: seq<Lane>, assignments: seq<Assignment>)

  datatype Warning = NoLanes | PinsExceedTotal | Unallocated(difference: int)

  /** quantize(0.01, ROUND_HALF_UP): from milliunits to cents, ties away from zero. */
  function ToCents(milliunits: int): int {
    if milliunits >= 0 then (milliunits + 5) / 10 else -((5 - milliunits) / 10)
  }

  /** The lanes money may go to. */
  function Assignable(lanes: seq<Lane>): (r: seq<Lane>)
    ensures forall l :: l in r <==> l in lanes && l.id != Unassigned
  {
    if lanes == [] then []
    else
      var init, last := lanes[..|lanes| - 1], lanes[|lanes| - 1];
      assert lanes == init + [last];
      Assignable(init) + if last.id == Unassigned then [] else [last]
  }

  ghost predicate DistinctIds(lanes: seq<Lane>) {
    forall i, j | 0 <= i < j < |lanes| :: lanes[i].id != lanes[j].id
  }

  // ---------- weights ----------

  function ItemAmount(items: seq<Item>, id: string): int {
    if items == [] then 0
    else
      var last := items[|items| - 1];
      if last.id == id then (if last.amount.Some? then last.amount.value else 0)
      else ItemAmount(items[..|items| - 1], id)
  }

  /** What the assignments put on a lane; discounts count negatively. */
  function LaneTotal(items: seq<Item>, assignments: seq<Assignment>, lane: LaneId): int {
    if assignments == [] then 0
    else
      var last := assignments[|assignments| - 1];
      LaneTotal(items, assignments[..|assignments| - 1], lane)
      + if last.lane == lane then ItemAmount(items, last.item) else 0
  }

  /** A net-negative lane weighs nothing. */
  function LaneWeight(ws: Workspace, lane: LaneId): int {
    Max(LaneTotal(ws.items, ws.assignments, lane), 0)
  }

  function Weights(ws: Workspace, lanes: seq<Lane>): (w: seq<int>)
    ensures |w| == |lanes|
  {
    seq(|lanes|, i requires 0 <= i < |lanes| => LaneWeight(ws, lanes[i].id))
  }

  // ---------- what the lanes are given ----------

  function Unpinned(lanes: seq<Lane>): (r: seq<Lane>)
    ensures forall l :: l in r <==> l in lanes && l.pinned.None?
  {
    if lanes == [] then []
    else
      var init, last := lanes[..|lanes| - 1], lanes[|lanes| - 1];
      assert lanes == init + [last];
      Unpinned(init) + if last.pinned.None? then [last] else []
  }

  function PinnedSum(lanes: seq<Lane>): int {
    if lanes == [] then 0
    else
      var last := lanes[|lanes| - 1];
      PinnedSum(lanes[..|lanes| - 1]) + if last.pinned.Some? then ToCents(last.pinned.value) else 0
  }

  function AmountsOf(lanes: seq<Lane>, amounts: map<LaneId, int>): (a: seq<int>)
    requires forall l | l in lanes :: l.id in amounts
    ensures |a| == |lanes|
  {
    seq(|lanes|, i requires 0 <= i < |lanes| => assert lanes[i] in lanes; amounts[lanes[i].id])
  }

  /** amounts is what recompute gives the lanes, in cents. */
  ghost predicate Gives(ws: Workspace, lanes: seq<Lane>, total: int, keepManual: bool, amounts: map<LaneId, int>) {
    && (forall l | l in lanes :: l.id in amounts)
    && if keepManual then
         && (forall l | l in lanes && l.pinned.Some? :: amounts[l.id] == ToCents(l.pinned.value))
         && AllocatesCents(Max(total - PinnedSum(lanes), 0), Weights(ws, Unpinned(lanes)),
                           AmountsOf(Unpinned(lanes), amounts))
       else AllocatesCents(total, Weights(ws, lanes), AmountsOf(lanes, amounts))
  }

  /** The warnings of one recompute: none, or one of the two about pins. */
  function PinWarnings(lanes: seq<Lane>, total: int, keepManual: bool): seq<Warning> {
    var remainder := total - PinnedSum(lanes);
    if !keepManual then []
    else if remainder < 0 then [PinsExceedTotal]
    else if Unpinned(lanes) == [] && remainder > 0 then [Unallocated(remainder)]
    else []
  }

  lemma AmountsSnoc(init: seq<Lane>, last: Lane, amounts: map<LaneId, int>)
    requires forall l | l in init :: l.id in amounts
    requires last.id in amounts
    ensures forall l | l in init + [last] :: l.id in amounts
    ensures Sum(AmountsOf(init + [last], amounts)) == Sum(AmountsOf(init, amounts)) + amounts[last.id]
  {
    assert AmountsOf(init + [last], amounts) == AmountsOf(init, amounts) + [amounts[last.id]];
    SumSnoc(AmountsOf(init, amounts), amounts[last.id]);
  }

  lemma PinsSnoc(init: seq<Lane>, last: Lane)
    ensures PinnedSum(init + [last]) == PinnedSum(init) + if last.pinned.Some? then ToCents(last.pinned.value) else 0
    ensures Unpinned(init + [last]) == Unpinned(init) + if last.pinned.None? then [last] else []
  {
    assert (init + [last])[..|init|] == init;
  }

  lemma {:induction false} PinsAndRestSum(lanes: seq<Lane>, amounts: map<LaneId, int>)
    requires forall l | l in lanes :: l.id in amounts
    requires forall l | l in lanes && l.pinned.Some? :: amounts[l.id] == ToCents(l.pinned.value)
    ensures Sum(AmountsOf(lanes, amounts)) == PinnedSum(lanes) + Sum(AmountsOf(Unpinned(lanes), amounts))
  {
    if lanes != [] {
      hide Sum, AmountsOf, PinnedSum, Unpinned, ToCents;
      var init, last := lanes[..|lanes| - 1], lanes[|lanes| - 1];
      assert lanes == init + [last];
      assert last in lanes && forall l | l in init :: l in lanes;
      PinsAndRestSum(init, amounts);
      AmountsSnoc(init, last, amounts);
      PinsSnoc(init, last);
      if last.pinned.None? {
        AmountsSnoc(Unpinned(init), last, amounts);
      } else {
        assert Unpinned(init) + [] == Unpinned(init);
      }
    }
  }

  lemma {:induction false} SumOfZeros(s: seq<int>)
    requires forall i | 0 <= i < |s| :: s[i] == 0
    ensures Sum(s) == 0
  {
    if s != [] {
      SumOfZeros(s[..|s| - 1]);
    }
  }

  lemma AllocatedSum(target: int, weights: seq<int>, shares: seq<int>)
    requires AllocatesCents(target, weights, shares) && target >= 0
    ensures Sum(shares) == if weights == [] then 0 else target
    ensures forall i | 0 <= i < |shares| :: shares[i] >= 0
  {
    if target == 0 || weights == [] {
      SumOfZeros(shares);
    } else {
      var w := Effective(Magnitudes(weights));
      forall i | 0 <= i < |shares| ensures shares[i] >= 0 {
        ShareIsFloorOrCeiling(target, w, shares, i);
      }
    }
  }

  /** For a total that is not negative the lanes get exactly the total, or there is a pin warning: never both. */
  lemma ExactOrWarned(ws: Workspace, lanes: seq<Lane>, total: int, keepManual: bool, amounts: map<LaneId, int>)
    requires lanes != [] && total >= 0
    requires Gives(ws, lanes, total, keepManual, amounts)
    ensures PinWarnings(lanes, total, keepManual) == [] <==> Sum(AmountsOf(lanes, amounts)) == total
    ensures |PinWarnings(lanes, total, keepManual)| <= 1
    ensures PinsExceedTotal in PinWarnings(lanes, total, keepManual) <==> Sum(AmountsOf(lanes, amounts)) > total
    ensures forall d :: Unallocated(d) in PinWarnings(lanes, total, keepManual)
                        <==> d > 0 && Sum(AmountsOf(lanes, amounts)) + d == total
  {
    if keepManual {
      PinsAndRestSum(lanes, amounts);
      AllocatedSum(Max(total - PinnedSum(lanes), 0), Weights(ws, Unpinned(lanes)), AmountsOf(Unpinned(lanes), amounts));
    } else {
      AllocatedSum(total, Weights(ws, lanes), AmountsOf(lanes, amounts));
    }
  }

  // ---------- the next splits ----------

  ghost predicate IsAscending(lanes: seq<Lane>) {
    forall i, j | 0 <= i < j < |lanes| ::
      lanes[i].id.SplitLane? && lanes[j].id.SplitLane? && lanes[i].id.index <= lanes[j].id.index
  }

  lemma InsertInOrder(sorted: seq<Lane>, p: nat, l: Lane)
    requires IsAscending(sorted) && p <= |sorted| && l.id.SplitLane?
    requires forall k | 0 <= k < |sorted| :: sorted[k].id.SplitLane?
    requires p > 0 ==> sorted[p - 1].id.index <= l.id.index
    requires forall k | p <= k < |sorted| :: sorted[k].id.index > l.id.index
    ensures IsAscending(sorted[..p] + [l] + sorted[p..])
    ensures forall k | 0 <= k <= |sorted| :: (sorted[..p] + [l] + sorted[p..])[k].id.SplitLane?
  {
    var r := sorted[..p] + [l] + sorted[p..];
    forall i, j | 0 <= i < j < |r|
      ensures r[i].id.SplitLane? && r[j].id.SplitLane? && r[i].id.index <= r[j].id.index
    {
      var a := if i < p then sorted[i] else if i == p then l else sorted[i - 1];
      var b := if j < p then sorted[j] else if j == p then l else sorted[j - 1];
      assert r[i] == a && r[j] == b;
      assert i < p - 1 ==> sorted[i].id.index <= sorted[p - 1].id.index;
    }
  }

  lemma MultisetInsert<T>(s: seq<T>, p: nat, x: T)
    requires p <= |s|
    ensures multiset(s[..p] + [x] + s[p..]) == multiset(s) + multiset{x}
  {
    assert s == s[..p] + s[p..];
  }

  /** The split lanes in the order of their index. */
  method SortByIndex(lanes: seq<Lane>) returns (sorted: seq<Lane>)
    requires forall l | l in lanes :: l.id.SplitLane?
    ensures multiset(sorted) == multiset(lanes)
    ensures IsAscending(sorted)
  {
    sorted := [];
    for i := 0 to |lanes|
      invariant multiset(sorted) == multiset(lanes[..i]) && |sorted| == i
      invariant IsAscending(sorted) && forall k | 0 <= k < |sorted| :: sorted[k].id.SplitLane?
    {
      assert lanes[..i + 1] == lanes[..i] + [lanes[i]];
      assert multiset(lanes[..i + 1]) == multiset(lanes[..i]) + multiset{lanes[i]};
      assert lanes[i] in lanes;
      var p := i;
      while p > 0 && sorted[p - 1].id.index > lanes[i].id.index
        invariant 0 <= p <= i
        invariant forall k | p <= k < i :: sorted[k].id.index > lanes[i].id.index
      {
        p := p - 1;
      }
      InsertInOrder(sorted, p, lanes[i]);
      MultisetInsert(sorted, p, lanes[i]);
      sorted := sorted[..p] + [lanes[i]] + sorted[p..];
    }
    assert lanes[..|lanes|] == lanes;
  }

  lemma SameMultisetWithout<T>(a: seq<T>, b: seq<T>, j: nat)
    requires a != [] && j < |b| && multiset(a) == multiset(b) && a[|a| - 1] == b[j]
    ensures var init, rest := a[..|a| - 1], b[..j] + b[j + 1..];
            && multiset(init) == multiset(rest)
            && (forall l | l in init :: l in a)
            && (forall l | l in rest :: l in b)
  {
    var init, rest := a[..|a| - 1], b[..j] + b[j + 1..];
    assert a == init + [b[j]];
    assert b == b[..j] + [b[j]] + b[j + 1..];
    assert rest[..j] == b[..j] && rest[j..] == b[j + 1..];
    MultisetInsert(rest, j, b[j]);
    assert multiset(init) == multiset(a) - multiset{b[j]};
    assert multiset(rest) == multiset(b) - multiset{b[j]};
  }

  lemma {:induction false} SumOfPermuted(a: seq<Lane>, b: seq<Lane>, amounts: map<LaneId, int>)
    requires multiset(a) == multiset(b)
    requires forall l | l in a :: l.id in amounts
    requires forall l | l in b :: l.id in amounts
    ensures |a| == |b| && Sum(AmountsOf(a, amounts)) == Sum(AmountsOf(b, amounts))
  {
    if a == [] {
      assert |multiset(b)| == 0;
    } else {
      hide Sum, AmountsOf;
      var init, x := a[..|a| - 1], a[|a| - 1];
      assert a == init + [x];
      assert x in multiset(b);
      var j :| 0 <= j < |b| && b[j] == x;
      var rest := b[..j] + b[j + 1..];
      SameMultisetWithout(a, b, j);
      SumOfPermuted(init, rest, amounts);
      AmountsSnoc(init, x, amounts);
      AmountsWithout(b, j, amounts);
    }
  }

  lemma AmountsWithout(b: seq<Lane>, j: nat, amounts: map<LaneId, int>)
    requires j < |b| && forall l | l in b :: l.id in amounts
    ensures forall l | l in b[..j] + b[j + 1..] :: l.id in amounts
    ensures Sum(AmountsOf(b, amounts)) == Sum(AmountsOf(b[..j] + b[j + 1..], amounts)) + amounts[b[j].id]
  {
    hide Sum;
    var rest := b[..j] + b[j + 1..];
    assert forall l | l in rest :: l in b;
    SumWithout(AmountsOf(b, amounts), j);
    assert AmountsOf(rest, amounts) == AmountsOf(b, amounts)[..j] + AmountsOf(b, amounts)[j + 1..];
  }

  lemma {:induction false} SumWithout(s: seq<int>, j: nat)
    requires j < |s|
    ensures Sum(s) == Sum(s[..j] + s[j + 1..]) + s[j]
  {
    var n := |s| - 1;
    if j == n {
      assert s[..j] + s[j + 1..] == s[..n];
    } else {
      SumWithout(s[..n], j);
      var without := s[..j] + s[j + 1..];
      assert without[..n - 1] == s[..n][..j] + s[..n][j + 1..];
    }
  }

  function MemoAt(splits: seq<Split>, index: nat): string {
    if index < |splits| then splits[index].memo else ""
  }

  function CategoryOf(l: Lane): string {
    if l.category.Some? then l.category.value else ""
  }

  /** The split row written for a lane: its category, ten milliunits to the cent, and the memo of its index. */
  function SplitFor(p: Payload, l: Lane, cents: int): Split
    requires l.id.SplitLane?
  {
    Split(CategoryOf(l), 10 * cents, MemoAt(p.splits, l.id.index))
  }

  /** splits are the rows of the lanes, which sorted lists in index order. */
  ghost predicate RowsFor(p: Payload, lanes: seq<Lane>, amounts: map<LaneId, int>, sorted: seq<Lane>,
                          splits: seq<Split>) {
    && multiset(sorted) == multiset(lanes) && IsAscending(sorted)
    && |splits| == |sorted|
    && forall i | 0 <= i < |sorted| ::
         sorted[i].id.SplitLane? && sorted[i].id in amounts
         && splits[i] == SplitFor(p, sorted[i], amounts[sorted[i].id])
  }

  /** next is what recompute makes of p: one split row per lane, in index order. */
  ghost predicate SplitsFrom(p: Payload, lanes: seq<Lane>, amounts: map<LaneId, int>, next: Payload) {
    && (forall l | l in lanes :: l.id.SplitLane? && l.id in amounts)
    && next == p.(category := None, splits := next.splits)
    && exists sorted: seq<Lane> :: RowsFor(p, lanes, amounts, sorted, next.splits)
  }

  lemma {:induction false} SumTimesTen(a: seq<int>, b: seq<int>)
    requires |a| == |b| && forall i | 0 <= i < |a| :: b[i] == 10 * a[i]
    ensures Sum(b) == 10 * Sum(a)
  {
    SumScaled(a, a, b, 10, 0);
  }

  lemma RowsSum(p: Payload, lanes: seq<Lane>, amounts: map<LaneId, int>, sorted: seq<Lane>, splits: seq<Split>)
    requires forall l | l in lanes :: l.id in amounts
    requires RowsFor(p, lanes, amounts, sorted, splits)
    ensures |splits| == |lanes|
    ensures Sum(SplitAmounts(splits)) == 10 * Sum(AmountsOf(lanes, amounts))
  {
    hide IsAscending, Sum;
    SameElements(sorted, lanes);
    SumOfPermuted(sorted, lanes, amounts);
    SumTimesTen(AmountsOf(sorted, amounts), SplitAmounts(splits));
  }

  lemma SplitsSum(p: Payload, lanes: seq<Lane>, amounts: map<LaneId, int>, next: Payload)
    requires SplitsFrom(p, lanes, amounts, next)
    ensures |next.splits| == |lanes|
    ensures SplitSum(next) == 10 * Sum(AmountsOf(lanes, amounts))
  {
    hide RowsFor, Sum;
    var sorted: seq<Lane> :| RowsFor(p, lanes, amounts, sorted, next.splits);
    RowsSum(p, lanes, amounts, sorted, next.splits);
  }

  // ---------- the method ----------

  /** The lane_totals dictionary, floored at zero. */
  method LaneTotals(ws: Workspace, lanes: seq<Lane>) returns (totals: map<LaneId, int>)
    ensures totals.Keys == set l | l in lanes :: l.id
    ensures forall id | id in totals :: totals[id] == LaneWeight(ws, id)
  {
    totals := map l | l in lanes :: l.id := 0;
    for i := 0 to |ws.assignments|
      invariant totals.Keys == set l | l in lanes :: l.id
      invariant forall id | id in totals :: totals[id] == LaneTotal(ws.items, ws.assignments[..i], id)
    {
      var a := ws.assignments[i];
      assert ws.assignments[..i + 1][..i] == ws.assignments[..i];
      if a.lane in totals {
        totals := totals[a.lane := totals[a.lane] + ItemAmount(ws.items, a.item)];
      }
    }
    assert ws.assignments[..|ws.assignments|] == ws.assignments;
    totals := map id | id in totals :: Max(totals[id], 0);
  }

  /** The keep_manual_amounts and proportional branches: cents per lane, with the pin warnings. */
  method DivideTotal(ws: Workspace, lanes: seq<Lane>, total: int, keepManual: bool)
    returns (amounts: map<LaneId, int>, warnings: seq<Warning>)
    requires DistinctIds(lanes)
    ensures Gives(ws, lanes, total, keepManual, amounts)
    ensures warnings == PinWarnings(lanes, total, keepManual)
  {
    var totals := LaneTotals(ws, lanes);
    warnings := [];
    if keepManual {
      hide LaneTotal, AllocatesCents, ToCents, Weights, AmountsOf, DistinctIds, PinnedSum, Unpinned;
      var pinnedSum, unpinned, pins := SortPins(lanes);
      var remainder := total - pinnedSum;
      if remainder < 0 {
        warnings := [PinsExceedTotal];
        remainder := 0;
      }
      if unpinned == [] && remainder > 0 {
        warnings := warnings + [Unallocated(remainder)];
      }
      UnpinnedDistinct(lanes);
      amounts := Spread(ws, unpinned, totals, remainder, pins);
      forall l | l in lanes && l.pinned.Some?
        ensures l.id in amounts && amounts[l.id] == ToCents(l.pinned.value)
      {
        PinnedIsNotUnpinned(lanes, l);
      }
    } else {
      amounts := Spread(ws, lanes, totals, total, map[]);
    }
  }

  /** The loop over the lanes that sets pinned amounts aside. */
  method SortPins(lanes: seq<Lane>) returns (pinnedSum: int, unpinned: seq<Lane>, pins: map<LaneId, int>)
    requires DistinctIds(lanes)
    ensures pinnedSum == PinnedSum(lanes) && unpinned == Unpinned(lanes)
    ensures forall l | l in lanes && l.pinned.Some? :: l.id in pins && pins[l.id] == ToCents(l.pinned.value)
  {
    hide ToCents, PinnedSum, Unpinned;
    pinnedSum, unpinned, pins := 0, [], map[];
    NoPins();
    for i := 0 to |lanes|
      invariant pinnedSum == PinnedSum(lanes[..i]) && unpinned == Unpinned(lanes[..i])
      invariant forall k | 0 <= k < i && lanes[k].pinned.Some? ::
                  lanes[k].id in pins && pins[lanes[k].id] == ToCents(lanes[k].pinned.value)
    {
      assert lanes[..i + 1] == lanes[..i] + [lanes[i]];
      PinsSnoc(lanes[..i], lanes[i]);
      match lanes[i].pinned {
        case None => unpinned := unpinned + [lanes[i]];
        case Some(pin) =>
          pins := pins[lanes[i].id := ToCents(pin)];
          pinnedSum := pinnedSum + ToCents(pin);
      }
    }
    assert lanes[..|lanes|] == lanes;
  }

  lemma NoPins()
    ensures PinnedSum([]) == 0 && Unpinned([]) == []
  {
  }

  /** Allocates a target over some lanes and records their amounts; other lanes keep theirs. */
  method Spread(ws: Workspace, lanes: seq<Lane>, totals: map<LaneId, int>, target: int, before: map<LaneId, int>)
    returns (amounts: map<LaneId, int>)
    requires DistinctIds(lanes)
    requires forall l | l in lanes :: l.id in totals && totals[l.id] == LaneWeight(ws, l.id)
    ensures forall l | l in lanes :: l.id in amounts
    ensures AllocatesCents(target, Weights(ws, lanes), AmountsOf(lanes, amounts))
    ensures forall id | id in before && (forall l | l in lanes :: l.id != id) ::
              id in amounts && amounts[id] == before[id]
  {
    var weights := seq(|lanes|, i requires 0 <= i < |lanes| => assert lanes[i] in lanes; totals[lanes[i].id]);
    assert weights == Weights(ws, lanes) by {
      forall i | 0 <= i < |lanes| ensures weights[i] == Weights(ws, lanes)[i] {
        assert lanes[i] in lanes;
      }
    }
    var distributed := LargestRemainderAllocation(target, weights);
    amounts := before;
    for i := 0 to |lanes|
      invariant forall k | 0 <= k < i :: lanes[k].id in amounts && amounts[lanes[k].id] == distributed[k]
      invariant forall id | id in before && (forall l | l in lanes :: l.id != id) ::
                  id in amounts && amounts[id] == before[id]
    {
      assert lanes[i] in lanes;
      amounts := amounts[lanes[i].id := distributed[i]];
    }
    assert AmountsOf(lanes, amounts) == distributed;
  }

  lemma {:induction false} UnpinnedDistinct(lanes: seq<Lane>)
    requires DistinctIds(lanes)
    ensures DistinctIds(Unpinned(lanes))
  {
    if lanes != [] {
      var n := |lanes| - 1;
      UnpinnedDistinct(lanes[..n]);
      var u := Unpinned(lanes[..n]);
      forall i | 0 <= i < |u| ensures u[i].id != lanes[n].id {
        assert u[i] in lanes[..n];
      }
    }
  }

  lemma PinnedIsNotUnpinned(lanes: seq<Lane>, l: Lane)
    requires DistinctIds(lanes) && l in lanes && l.pinned.Some?
    ensures forall u | u in Unpinned(lanes) :: u.id != l.id
  {
    forall u | u in Unpinned(lanes) ensures u.id != l.id {
      var i :| 0 <= i < |lanes| && lanes[i] == l;
      var j :| 0 <= j < |lanes| && lanes[j] == u;
    }
  }

  lemma {:induction false} AssignableDistinct(lanes: seq<Lane>)
    requires DistinctIds(lanes)
    ensures DistinctIds(Assignable(lanes))
  {
    if lanes != [] {
      var n := |lanes| - 1;
      AssignableDistinct(lanes[..n]);
      var u := Assignable(lanes[..n]);
      forall i | 0 <= i < |u| ensures u[i].id != lanes[n].id {
        assert u[i] in lanes[..n];
      }
    }
  }

  function SplitLanes(lanes: seq<Lane>): (r: seq<Lane>)
    ensures forall l | l in r :: l in lanes && l.id.SplitLane?
    ensures (forall l | l in lanes :: l.id.SplitLane?) ==> r == lanes
  {
    if lanes == [] then []
    else
      var init, last := lanes[..|lanes| - 1], lanes[|lanes| - 1];
      assert lanes == init + [last];
      SplitLanes(init) + if last.id.SplitLane? then [last] else []
  }

  lemma SameElements(a: seq<Lane>, b: seq<Lane>)
    requires multiset(a) == multiset(b)
    ensures forall l | l in a :: l in b
  {
    forall l | l in a ensures l in b {
      assert l in multiset(a) && l in multiset(b);
    }
  }

  /** next_splits: the lanes in index order, each with its category, amount and remembered memo. */
  method WriteSplits(p: Payload, lanes: seq<Lane>, amounts: map<LaneId, int>) returns (next: Payload)
    requires forall l | l in lanes :: l.id.SplitLane? && l.id in amounts
    ensures SplitsFrom(p, lanes, amounts, next)
  {
    var sorted := SortByIndex(lanes);
    SameElements(sorted, lanes);
    var splits: seq<Split> := [];
    for i := 0 to |sorted|
      invariant |splits| == i
      invariant forall k | 0 <= k < i ::
                  sorted[k].id.SplitLane? && sorted[k].id in amounts
                  && splits[k] == SplitFor(p, sorted[k], amounts[sorted[k].id])
    {
      assert sorted[i] in lanes;
      splits := splits + [SplitFor(p, sorted[i], amounts[sorted[i].id])];
    }
    next := p.(category := None, splits := splits);
    assert RowsFor(p, lanes, amounts, sorted, next.splits);
  }

  lemma {:induction false} OnlyMain(lanes: seq<Lane>)
    requires DistinctIds(lanes) && (forall l | l in lanes :: l.id != Unassigned)
    requires SplitLanes(lanes) == []
    ensures |lanes| <= 1 && forall l | l in lanes :: l.id == Main
  {
    if lanes != [] {
      var n := |lanes| - 1;
      assert lanes[n] in lanes && forall l | l in lanes[..n] :: l in lanes;
      OnlyMain(lanes[..n]);
    }
  }

  /**
   recompute_payload_from_workspace. Lane ids are distinct, as the reconciled workspaces
   it is given have them. The warnings are those added to the workspace's own.
   */
  method RecomputePayload(p: Payload, ws: Workspace, keepManual: bool)
    returns (next: Payload, warnings: seq<Warning>, amounts: map<LaneId, int>)
    requires DistinctIds(ws.lanes)
    ensures var lanes := Assignable(ws.lanes);
            if lanes == [] then next == p && warnings == [NoLanes]
            else
              && warnings == PinWarnings(lanes, ToCents(p.total), keepManual)
              && Gives(ws, lanes, ToCents(p.total), keepManual, amounts)
              && if SplitLanes(lanes) != [] then SplitsFrom(p, SplitLanes(lanes), amounts, next)
                 else lanes[0].id == Main && next == p.(category := Some(CategoryOf(lanes[0])), splits := [])
  {
    hide LaneTotal, PinnedSum, PinWarnings, AllocatesCents, Weights, RowsFor, SplitsFrom;
    var lanes := Assignable(ws.lanes);
    if lanes == [] {
      return p, [NoLanes], map[];
    }
    AssignableDistinct(ws.lanes);
    amounts, warnings := DivideTotal(ws, lanes, ToCents(p.total), keepManual);
    AllGiven(ws, lanes, ToCents(p.total), keepManual, amounts);
    var splitLanes := SplitLanes(lanes);
    if splitLanes != [] {
      next := WriteSplits(p, splitLanes, amounts);
    } else {
      OnlyMain(lanes);
      next := p.(category := Some(CategoryOf(lanes[0])), splits := []);
    }
  }

  lemma AllGiven(ws: Workspace, lanes: seq<Lane>, total: int, keepManual: bool, amounts: map<LaneId, int>)
    requires Gives(ws, lanes, total, keepManual, amounts)
    ensures forall l | l in lanes :: l.id in amounts
  {
  }

  // ---------- composition with the validator and the builder ----------

  /**
   With split lanes only and a total that is not negative, recompute without a pin warning
   is exact: the splits sum to the total in cents. With a pin warning they do not.
   */
  lemma RecomputedSplitsAreExact(p: Payload, ws: Workspace, lanes: seq<Lane>, keepManual: bool,
                                 amounts: map<LaneId, int>, next: Payload)
    requires lanes != [] && p.total >= 0
    requires Gives(ws, lanes, ToCents(p.total), keepManual, amounts) && SplitsFrom(p, lanes, amounts, next)
    ensures PinWarnings(lanes, ToCents(p.total), keepManual) == [] <==> SplitSum(next) == 10 * ToCents(p.total)
  {
    ExactOrWarned(ws, lanes, ToCents(p.total), keepManual, amounts);
    SplitsSum(p, lanes, amounts, next);
  }

  /** The lanes carry usable categories and no negative pins. */
  ghost predicate LanesUsable(lanes: seq<Lane>) {
    forall l | l in lanes :: CategoryOf(l) != "" && (l.pinned.Some? ==> ToCents(l.pinned.value) >= 0)
  }

  lemma LaneAmountsNonNegative(ws: Workspace, lanes: seq<Lane>, total: int, keepManual: bool, amounts: map<LaneId, int>)
    requires total >= 0 && LanesUsable(lanes) && Gives(ws, lanes, total, keepManual, amounts)
    ensures forall l | l in lanes :: amounts[l.id] >= 0
  {
    forall l | l in lanes ensures amounts[l.id] >= 0 {
      if keepManual && l.pinned.None? {
        var u := Unpinned(lanes);
        AllocatedSum(Max(total - PinnedSum(lanes), 0), Weights(ws, u), AmountsOf(u, amounts));
        var i :| 0 <= i < |u| && u[i] == l;
        assert AmountsOf(u, amounts)[i] == amounts[l.id];
      } else if !keepManual {
        AllocatedSum(total, Weights(ws, lanes), AmountsOf(lanes, amounts));
        var i :| 0 <= i < |lanes| && lanes[i] == l;
        assert AmountsOf(lanes, amounts)[i] == amounts[l.id];
      }
    }
  }

  lemma RecomputedRowsOk(p: Payload, ws: Workspace, lanes: seq<Lane>, keepManual: bool,
                         amounts: map<LaneId, int>, next: Payload)
    requires p.total >= 0 && LanesUsable(lanes)
    requires Gives(ws, lanes, ToCents(p.total), keepManual, amounts) && SplitsFrom(p, lanes, amounts, next)
    ensures forall s | s in next.splits :: s.amount >= 0 && s.category != ""
  {
    LaneAmountsNonNegative(ws, lanes, ToCents(p.total), keepManual, amounts);
    var sorted: seq<Lane> :| RowsFor(p, lanes, amounts, sorted, next.splits);
    forall s | s in next.splits ensures s.amount >= 0 && s.category != "" {
      var i :| 0 <= i < |next.splits| && next.splits[i] == s;
      assert sorted[i] in multiset(sorted) && sorted[i] in multiset(lanes) && sorted[i] in lanes;
    }
  }

  /**
   For a positive total and usable lanes, a recompute without warnings passes the money
   validator exactly when the total is a whole number of cents.
   */
  lemma RecomputeThenValidate(p: Payload, ws: Workspace, lanes: seq<Lane>, keepManual: bool,
                              amounts: map<LaneId, int>, next: Payload)
    requires lanes != [] && p.total > 0 && LanesUsable(lanes)
    requires Gives(ws, lanes, ToCents(p.total), keepManual, amounts) && SplitsFrom(p, lanes, amounts, next)
    requires PinWarnings(lanes, ToCents(p.total), keepManual) == []
    ensures MoneyOk(next) <==> p.total % 10 == 0
  {
    hide Gives, PinWarnings, RowsFor, LanesUsable, AmountsOf;
    RecomputedSplitsAreExact(p, ws, lanes, keepManual, amounts, next);
    RecomputedRowsOk(p, ws, lanes, keepManual, amounts, next);
    SplitsSum(p, lanes, amounts, next);
    CentsAreExact(p.total);
  }

  /** One split lane without pins and no items. */
  function OneLane(category: string): Lane { Lane(SplitLane(0), Some(category), None) }

  /**
   The half cent is real: 10.005 over one split lane without pins. Nothing is warned of, and the
   lane gets 10.01, which the validator refuses.
   */
  lemma HalfCentIsRefused(p: Payload, category: string)
    requires p.total == 10005 && p.splits == [] && p.category == None
    ensures var lane := OneLane(category);
            var ws := Workspace([], [lane], []);
            var amounts := map[SplitLane(0) := 1001];
            var next := p.(splits := [Split(category, 10010, "")]);
            && DistinctIds(ws.lanes) && SplitLanes(Assignable(ws.lanes)) == Assignable(ws.lanes) == [lane]
            && Gives(ws, [lane], ToCents(p.total), false, amounts)
            && PinWarnings([lane], ToCents(p.total), false) == []
            && SplitsFrom(p, [lane], amounts, next)
            && !MoneyOk(next)
  {
    var lane := OneLane(category);
    var amounts := map[SplitLane(0) := 1001];
    assert ToCents(p.total) == 1001;
    hide ToCents, Gives, SplitsFrom, Assignable, SplitLanes, MoneyOk, PinnedSum;
    OneSplitLane(lane);
    OneLaneGetsAll(Workspace([], [lane], []), lane, 1001, amounts);
    OneRow(p, lane, 1001, amounts);
    assert SplitFor(p, lane, 1001) == Split(category, 10010, "");
  }

  lemma OneSplitLane(lane: Lane)
    requires lane.id.SplitLane?
    ensures Assignable([lane]) == [lane] && SplitLanes([lane]) == [lane]
  {
    assert [lane][..0] == [];
  }

  /** The single row of a single lane; a payload whose row is not its total is refused. */
  lemma OneRow(p: Payload, lane: Lane, cents: int, amounts: map<LaneId, int>)
    requires lane.id.SplitLane? && lane.id in amounts && amounts[lane.id] == cents && p.category == None
    ensures var next := p.(splits := [SplitFor(p, lane, cents)]);
            && SplitsFrom(p, [lane], amounts, next)
            && (MoneyOk(next) ==> p.total == 10 * cents)
  {
    var next := p.(splits := [SplitFor(p, lane, cents)]);
    assert RowsFor(p, [lane], amounts, [lane], next.splits);
    assert SplitAmounts(next.splits) == [10 * cents] && [10 * cents][..0] == [];
    assert Sum([10 * cents]) == 10 * cents;
  }

  lemma OneLaneGetsAll(ws: Workspace, lane: Lane, target: nat, amounts: map<LaneId, int>)
    requires ws.assignments == [] && target > 0 && lane.id in amounts && amounts[lane.id] == target
    ensures Gives(ws, [lane], target, false, amounts)
  {
    assert forall l | l in [lane] :: l == lane;
    assert Weights(ws, [lane]) == [0];
    var weights := Magnitudes([0]);
    assert weights == [0] && weights[..0] == [];
    assert Sum(weights) == 0;
    assert AmountsOf([lane], amounts) == [target];
    EqualShares(target, 1, target, [target]);
  }

  lemma CentsAreExact(total: nat)
    ensures 10 * ToCents(total) == total <==> total % 10 == 0
  {
  }

  /** And then the builder accepts it: exact, and every sub-amount signed like the total. */
  lemma RecomputeThenBuild(p: Payload, ws: Workspace, lanes: seq<Lane>, keepManual: bool,
                           amounts: map<LaneId, int>, next: Payload, refs: References)
    requires lanes != [] && p.total > 0 && p.total % 10 == 0 && LanesUsable(lanes)
    requires Gives(ws, lanes, ToCents(p.total), keepManual, amounts) && SplitsFrom(p, lanes, amounts, next)
    requires PinWarnings(lanes, ToCents(p.total), keepManual) == []
    requires AccountOk(next, refs) && CategoriesOk(next, refs)
    ensures Buildable(next, refs)
    ensures var t := Built(next, refs);
            && t.amount == Signed(p.total, p.refund)
            && Sum(SubAmounts(t.subs)) == t.amount
            && forall s | s in t.subs :: if p.refund then s.amount >= 0 else s.amount <= 0
  {
    RecomputeThenValidate(p, ws, lanes, keepManual, amounts, next);
    SplitsSum(p, lanes, amounts, next);
    ValidMoneyBuilds(next, refs);
  }

  // ---------- learned arrangements ----------

  datatype ArrangedSplit = ArrangedSplit(category: string, weight: Option<int>, memo: string)

  datatype Arrangement = Arrangement(category: string, splits: seq<ArrangedSplit>)

  /**
   materialize_arrangement: unknown or empty categories make an arrangement unusable; a split
   arrangement is re-divided to the exact milliunit.
   */
  method MaterializeArrangement(base: Payload, a: Arrangement, allowed: set<string>)
    returns (r: Result<Option<Payload>, string>)
    ensures r.Err? <==> |a.splits| >= 2 && base.total < 0 && forall s | s in a.splits :: s.category in allowed - {""}
    ensures r.Ok? ==> (r.value.Some? <==>
                         if |a.splits| >= 2 then forall s | s in a.splits :: s.category in allowed - {""}
                         else a.category in allowed - {""})
    ensures r.Ok? && r.value.Some? && |a.splits| < 2 ==>
              r.value.value == base.(category := Some(a.category), splits := [])
    ensures r.Ok? && r.value.Some? && |a.splits| >= 2 ==>
              var p := r.value.value;
              && p == base.(category := None, splits := p.splits)
              && |p.splits| == |a.splits| && SplitSum(p) == base.total
              && (forall i | 0 <= i < |p.splits| ::
                    p.splits[i].category == a.splits[i].category && p.splits[i].memo == a.splits[i].memo)
              && LargestRemainder(base.total, Effective(CleanWeights(WeightsOf(a.splits))), SplitAmounts(p.splits))
  {
    if |a.splits| >= 2 {
      if exists s | s in a.splits :: s.category == "" || s.category !in allowed {
        return Ok(None);
      }
      var amounts := DistributeMilliunits(base.total, WeightsOf(a.splits));
      if amounts.Err? {
        return Err(amounts.error);
      }
      var splits := seq(|a.splits|, i requires 0 <= i < |a.splits| && |amounts.value| == |a.splits| =>
        Split(a.splits[i].category, amounts.value[i], a.splits[i].memo));
      assert SplitAmounts(splits) == amounts.value;
      return Ok(Some(base.(category := None, splits := splits)));
    }
    if a.category != "" && a.category in allowed {
      return Ok(Some(base.(category := Some(a.category), splits := [])));
    }
    r := Ok(None);
  }

  function WeightsOf(splits: seq<ArrangedSplit>): (w: seq<Option<int>>)
    ensures |w| == |splits|
  {
    seq(|splits|, i requires 0 <= i < |splits| => splits[i].weight)
  }

  /** A materialized arrangement over a positive total passes the money validator. */
  lemma MaterializedPasses(p: Payload, weights: seq<nat>)
    requires p.total > 0 && p.splits != [] && Sum(weights) > 0
    requires LargestRemainder(p.total, weights, SplitAmounts(p.splits))
    requires forall s | s in p.splits :: s.category != ""
    ensures MoneyOk(p)
  {
    forall s | s in p.splits ensures s.amount >= 0 {
      var i :| 0 <= i < |p.splits| && p.splits[i] == s;
      ShareIsFloorOrCeiling(p.total, weights, SplitAmounts(p.splits), i);
    }
  }

  /** The splits of a materialized arrangement are in proportion to its weights, those that are there and positive. */
  lemma MaterializedProportions(p: Payload, a: Arrangement, counted: seq<int>)
    requires a.splits != [] && p.total >= 0
    requires LargestRemainder(p.total, Effective(CleanWeights(WeightsOf(a.splits))), SplitAmounts(p.splits))
    requires |counted| == |a.splits| && forall i | 0 <= i < |counted| :: CountsFor(a.splits[i].weight, counted[i])
    ensures Sum(counted) > 0 ==> Proportional(p.total, counted, SplitAmounts(p.splits))
    ensures Sum(counted) == 0 ==> Even(p.total, SplitAmounts(p.splits))
  {
    MilliunitsAreProportional(p.total, WeightsOf(a.splits), counted, SplitAmounts(p.splits));
  }
}
