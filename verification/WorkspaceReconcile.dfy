/**
 Keeping an allocation workspace in step with its draft: reconcile_allocation_workspace of
 services/allocation_workspace.py, and reconcileWorkspaceToDraft and moveWorkspaceItems of
 the frontend's allocation-workspace.ts. Amounts are milliunits.
 */
module WorkspaceReconcile {
  import opened Prelude
  import opened MoneyPath
  import opened Recompute

  datatype DraftSplit = DraftSplit(category: Option<string>, amount: Option<int>)

  datatype Draft = Draft(category: Option<string>, total: int, splits: seq<DraftSplit>)

  /** A stored workspace. */
  datatype Saved = Saved(ws: Workspace, twinVersion: nat, warnings: seq<string>)

  const STALE := "Receipt twin line items changed; allocation workspace may be stale."

  // ---------- lanes ----------

  /** One lane per split, or the main lane, and always the unassigned lane last. */
  function ExpectedLanes(d: Draft): (lanes: seq<Lane>)
    ensures |lanes| == (if d.splits == [] then 1 else |d.splits|) + 1
  {
    var own :=
      if d.splits == [] then [Lane(Main, d.category, Some(d.total))]
      else seq(|d.splits|, i requires 0 <= i < |d.splits| =>
             Lane(SplitLane(i), d.splits[i].category, d.splits[i].amount));
    own + [Lane(Unassigned, None, None)]
  }

  predicate Expected(d: Draft, id: LaneId) {
    match id
    case Main => d.splits == []
    case SplitLane(i) => i < |d.splits|
    case Unassigned => true
  }

  lemma ExpectedLanesAre(d: Draft)
    ensures forall i | 0 <= i < |ExpectedLanes(d)| :: Expected(d, ExpectedLanes(d)[i].id)
    ensures forall id | Expected(d, id) :: exists i :: 0 <= i < |ExpectedLanes(d)| && ExpectedLanes(d)[i].id == id
    ensures DistinctIds(ExpectedLanes(d))
  {
    var lanes := ExpectedLanes(d);
    forall id | Expected(d, id) ensures exists i :: 0 <= i < |lanes| && lanes[i].id == id {
      var at := match id case Main => 0 case SplitLane(i) => i case Unassigned => |lanes| - 1;
      assert lanes[at].id == id;
    }
  }

  /** The lane with an id, the last one if there are several. */
  function Lookup(lanes: seq<Lane>, id: LaneId): (r: Option<Lane>)
    ensures r.Some? ==> r.value in lanes && r.value.id == id
    ensures r.None? ==> forall l | l in lanes :: l.id != id
  {
    if lanes == [] then None
    else
      var init, last := lanes[..|lanes| - 1], lanes[|lanes| - 1];
      assert lanes == init + [last];
      if last.id == id then Some(last) else Lookup(init, id)
  }

  /** A pin survives, except on unassigned, and except on the main lane once it differs from the total. */
  function PreservedPin(d: Draft, existing: Lane): Option<int> {
    if existing.id == Unassigned then None
    else if existing.id == Main && existing.pinned.Some? && ToCents(existing.pinned.value) != ToCents(d.total) then None
    else existing.pinned
  }

  function MergedLane(d: Draft, existing: seq<Lane>, lane: Lane): Lane {
    match Lookup(existing, lane.id)
    case None => lane
    case Some(found) => lane.(pinned := PreservedPin(d, found))
  }

  function MergedLanes(d: Draft, existing: seq<Lane>): (lanes: seq<Lane>)
    ensures |lanes| == |ExpectedLanes(d)|
  {
    var expected := ExpectedLanes(d);
    seq(|expected|, i requires 0 <= i < |expected| => MergedLane(d, existing, expected[i]))
  }

  // ---------- assignments, as the frontend writes them ----------

  predicate IsPrimary(id: LaneId) { id == Main || id == SplitLane(0) }

  function PrimaryLane(d: Draft): LaneId { if d.splits == [] then Main else SplitLane(0) }

  /** Expected lanes stay; a vanished primary lane leads to the new one, any other to unassigned. */
  function Remap(d: Draft, id: LaneId): (r: LaneId)
    ensures Expected(d, r)
  {
    if Expected(d, id) then id else if IsPrimary(id) then PrimaryLane(d) else Unassigned
  }

  predicate IsItem(items: seq<Item>, id: string) { exists i | 0 <= i < |items| :: items[i].id == id }

  predicate IsAssigned(assignments: seq<Assignment>, id: string) {
    exists i | 0 <= i < |assignments| :: assignments[i].item == id
  }

  /** filter: the assignments of items that exist. */
  function OfItems(assignments: seq<Assignment>, items: seq<Item>): seq<Assignment> {
    if assignments == [] then []
    else
      var last := assignments[|assignments| - 1];
      OfItems(assignments[..|assignments| - 1], items) + if IsItem(items, last.item) then [last] else []
  }

  /** map: every lane remapped. */
  function Remapped(d: Draft, assignments: seq<Assignment>): (r: seq<Assignment>)
    ensures |r| == |assignments|
  {
    seq(|assignments|, i requires 0 <= i < |assignments| =>
      Assignment(assignments[i].item, Remap(d, assignments[i].lane)))
  }

  /** The items without an assignment, sent to unassigned. */
  function Leftovers(items: seq<Item>, placed: seq<Assignment>): seq<Assignment> {
    if items == [] then []
    else
      var last := items[|items| - 1];
      Leftovers(items[..|items| - 1], placed)
      + if IsAssigned(placed, last.id) then [] else [Assignment(last.id, Unassigned)]
  }

  /** The assignments of reconcileWorkspaceToDraft. */
  function Reassigned(d: Draft, ws: Workspace): seq<Assignment> {
    var kept := Remapped(d, OfItems(ws.assignments, ws.items));
    kept + Leftovers(ws.items, kept)
  }

  // ---------- the backend's loops compute the same ----------

  function Reconciled(d: Draft, saved: Saved, twinVersion: nat): Saved {
    Saved(Workspace(saved.ws.items, MergedLanes(d, saved.ws.lanes), Reassigned(d, saved.ws)), twinVersion,
          if twinVersion != saved.twinVersion then saved.warnings + [STALE] else saved.warnings)
  }

  /** The assignment loops of reconcile_allocation_workspace. */
  method Reassign(d: Draft, ws: Workspace) returns (assignments: seq<Assignment>)
    ensures assignments == Reassigned(d, ws)
  {
    assignments := [];
    for i := 0 to |ws.assignments|
      invariant assignments == Remapped(d, OfItems(ws.assignments[..i], ws.items))
    {
      var a := ws.assignments[i];
      assert ws.assignments[..i + 1][..i] == ws.assignments[..i];
      if IsItem(ws.items, a.item) {
        var lane := Remap(d, a.lane);
        if lane == a.lane {
          assignments := assignments + [a];
        } else {
          assignments := assignments + [Assignment(a.item, lane)];
        }
      }
    }
    assert ws.assignments[..|ws.assignments|] == ws.assignments;
    var kept := assignments;
    for i := 0 to |ws.items|
      invariant assignments == kept + Leftovers(ws.items[..i], kept)
    {
      assert ws.items[..i + 1][..i] == ws.items[..i];
      if !IsAssigned(kept, ws.items[i].id) {
        assignments := assignments + [Assignment(ws.items[i].id, Unassigned)];
      }
    }
    assert ws.items[..|ws.items|] == ws.items;
  }

  /** reconcile_allocation_workspace for a workspace that exists and parses. */
  method ReconcileWorkspace(d: Draft, saved: Saved, twinVersion: nat) returns (r: Saved)
    ensures r == Reconciled(d, saved, twinVersion)
  {
    var expected := ExpectedLanes(d);
    var merged: seq<Lane> := [];
    for i := 0 to |expected|
      invariant |merged| == i && forall k | 0 <= k < i :: merged[k] == MergedLane(d, saved.ws.lanes, expected[k])
    {
      var lane := expected[i];
      match Lookup(saved.ws.lanes, lane.id) {
        case None => merged := merged + [lane];
        case Some(existing) =>
          var pin := if lane.id != Unassigned then existing.pinned else None;
          if lane.id == Main && pin.Some? && ToCents(pin.value) != ToCents(d.total) {
            pin := None;
          }
          merged := merged + [Lane(lane.id, lane.category, pin)];
      }
    }
    var assignments := Reassign(d, saved.ws);
    var warnings := saved.warnings;
    if twinVersion != saved.twinVersion {
      warnings := warnings + [STALE];
    }
    r := Saved(Workspace(saved.ws.items, merged, assignments), twinVersion, warnings);
  }

  // ---------- what a reconciled workspace is ----------

  /** Assignments are of items and on expected lanes, and every item has one. */
  ghost predicate Fits(d: Draft, items: seq<Item>, assignments: seq<Assignment>) {
    && (forall i | 0 <= i < |assignments| :: IsItem(items, assignments[i].item) && Expected(d, assignments[i].lane))
    && (forall i | 0 <= i < |items| :: IsAssigned(assignments, items[i].id))
  }

  lemma {:induction false} OfItemsAreItems(assignments: seq<Assignment>, items: seq<Item>)
    ensures forall i | 0 <= i < |OfItems(assignments, items)| :: IsItem(items, OfItems(assignments, items)[i].item)
  {
    if assignments != [] {
      OfItemsAreItems(assignments[..|assignments| - 1], items);
    }
  }

  lemma {:induction false} LeftoversAre(items: seq<Item>, all: seq<Item>, placed: seq<Assignment>)
    requires forall i | 0 <= i < |items| :: IsItem(all, items[i].id)
    ensures forall i | 0 <= i < |Leftovers(items, placed)| ::
              IsItem(all, Leftovers(items, placed)[i].item) && Leftovers(items, placed)[i].lane == Unassigned
    ensures forall i | 0 <= i < |items| ::
              IsAssigned(placed, items[i].id) || IsAssigned(Leftovers(items, placed), items[i].id)
  {
    if items != [] {
      var n := |items| - 1;
      LeftoversAre(items[..n], all, placed);
      var before, after := Leftovers(items[..n], placed), Leftovers(items, placed);
      forall i | 0 <= i < n && IsAssigned(before, items[i].id) ensures IsAssigned(after, items[i].id) {
        var k :| 0 <= k < |before| && before[k].item == items[i].id;
        assert after[k].item == items[i].id;
      }
      if !IsAssigned(placed, items[n].id) {
        assert after[|before|].item == items[n].id;
      }
    }
  }

  /**
   Whatever the workspace was: after reconciling, every item is assigned and every assignment is on an
   expected lane.
   */
  lemma ReconciledFits(d: Draft, saved: Saved, twinVersion: nat)
    ensures Fits(d, saved.ws.items, Reconciled(d, saved, twinVersion).ws.assignments)
  {
    hide OfItems, Leftovers, MergedLanes, Remap, IsPrimary;
    var items := saved.ws.items;
    var of := OfItems(saved.ws.assignments, items);
    OfItemsAreItems(saved.ws.assignments, items);
    var kept := Remapped(d, of);
    LeftoversAre(items, items, kept);
    var left := Leftovers(items, kept);
    var all := kept + left;
    forall i | 0 <= i < |items| ensures IsAssigned(all, items[i].id) {
      if IsAssigned(kept, items[i].id) {
        var k :| 0 <= k < |kept| && kept[k].item == items[i].id;
        assert all[k].item == items[i].id;
      } else {
        var k :| 0 <= k < |left| && left[k].item == items[i].id;
        assert all[|kept| + k].item == items[i].id;
      }
    }
    assert forall i | 0 <= i < |kept| :: IsItem(items, of[i].item);
  }

  lemma {:induction false} AllOfItems(assignments: seq<Assignment>, items: seq<Item>)
    requires forall i | 0 <= i < |assignments| :: IsItem(items, assignments[i].item)
    ensures OfItems(assignments, items) == assignments
  {
    hide IsItem;
    if assignments != [] {
      var n := |assignments| - 1;
      AllOfItems(assignments[..n], items);
      assert IsItem(items, assignments[n].item);
      assert assignments == assignments[..n] + [assignments[n]];
    }
  }

  lemma {:induction false} NoLeftovers(items: seq<Item>, placed: seq<Assignment>)
    requires forall i | 0 <= i < |items| :: IsAssigned(placed, items[i].id)
    ensures Leftovers(items, placed) == []
  {
    if items != [] {
      NoLeftovers(items[..|items| - 1], placed);
    }
  }

  /** On assignments that fit some draft, reconciling to any draft only remaps lanes. */
  lemma OnlyRemaps(d: Draft, e: Draft, ws: Workspace)
    requires Fits(e, ws.items, ws.assignments)
    ensures Reassigned(d, ws) == Remapped(d, ws.assignments)
  {
    hide OfItems, Leftovers, Expected, IsItem, Remap;
    AllOfItems(ws.assignments, ws.items);
    var kept := Remapped(d, ws.assignments);
    forall i | 0 <= i < |ws.items| ensures IsAssigned(kept, ws.items[i].id) {
      assert IsAssigned(ws.assignments, ws.items[i].id);
      var k :| 0 <= k < |ws.assignments| && ws.assignments[k].item == ws.items[i].id;
      assert kept[k].item == ws.items[i].id;
    }
    NoLeftovers(ws.items, kept);
  }

  /** Of several lanes with an id the last one counts. */
  lemma {:induction false} LookupIsLast(lanes: seq<Lane>, i: nat)
    requires i < |lanes| && forall j | i < j < |lanes| :: lanes[j].id != lanes[i].id
    ensures Lookup(lanes, lanes[i].id) == Some(lanes[i])
  {
    if i < |lanes| - 1 {
      assert lanes[..|lanes| - 1][i] == lanes[i];
      LookupIsLast(lanes[..|lanes| - 1], i);
    }
  }

  lemma MergedAreDistinct(d: Draft, existing: seq<Lane>)
    ensures DistinctIds(MergedLanes(d, existing))
    ensures forall i | 0 <= i < |ExpectedLanes(d)| :: MergedLanes(d, existing)[i].id == ExpectedLanes(d)[i].id
  {
    ExpectedLanesAre(d);
  }

  /** Reconciling twice is reconciling once: assignments, lanes with their pins, and warnings. */
  lemma ReconcileTwice(d: Draft, saved: Saved, twinVersion: nat)
    ensures var once := Reconciled(d, saved, twinVersion); Reconciled(d, once, twinVersion) == once
  {
    var once := Reconciled(d, saved, twinVersion);
    ReconciledFits(d, saved, twinVersion);
    OnlyRemaps(d, d, once.ws);
    var lanes, again := once.ws.lanes, MergedLanes(d, once.ws.lanes);
    MergedAreDistinct(d, saved.ws.lanes);
    forall i | 0 <= i < |lanes| ensures again[i] == lanes[i] {
      LookupIsLast(lanes, i);
      PinIsStable(d, saved.ws.lanes, i);
    }
    assert again == lanes;
  }

  /** A merged lane keeps its pin when merged again. */
  lemma PinIsStable(d: Draft, existing: seq<Lane>, i: nat)
    requires i < |ExpectedLanes(d)|
    ensures var lane := MergedLanes(d, existing)[i]; PreservedPin(d, lane) == lane.pinned
  {
  }

  /** The lanes of a draft: the unassigned one last, before it one per split with its category, or the main one. */
  lemma LanesOfDraft(d: Draft, saved: Saved, twinVersion: nat)
    ensures var lanes := Reconciled(d, saved, twinVersion).ws.lanes;
            && lanes != [] && lanes[|lanes| - 1] == Lane(Unassigned, None, None)
            && (d.splits == [] ==> |lanes| == 2 && lanes[0].id == Main && lanes[0].category == d.category)
            && (d.splits != [] ==> |lanes| == |d.splits| + 1 && forall i | 0 <= i < |d.splits| ::
                                     lanes[i].id == SplitLane(i) && lanes[i].category == d.splits[i].category)
            && (saved.ws.lanes == [] ==>
                  && (d.splits == [] ==> lanes[0].pinned == Some(d.total))
                  && forall i | 0 <= i < |d.splits| :: lanes[i].pinned == d.splits[i].amount)
  {
  }

  /** A workspace is marked as stale once for every change of the twin, and keeps its other warnings. */
  lemma StaleOncePerChange(d: Draft, saved: Saved, twinVersion: nat)
    ensures var once := Reconciled(d, saved, twinVersion);
            && saved.warnings <= once.warnings
            && once.warnings[|saved.warnings|..] == (if twinVersion == saved.twinVersion then [] else [STALE])
            && Reconciled(d, once, twinVersion).warnings == once.warnings
  {
  }

  /**
   Reconciling keeps the pin of a split lane that stays, and that of the main lane while it is the
   total to the cent; otherwise the main lane has no pin. A new lane is pinned to the draft's amount.
   */
  lemma PinsSurvive(d: Draft, saved: Saved, twinVersion: nat, i: nat)
    requires i < |ExpectedLanes(d)| && DistinctIds(saved.ws.lanes)
    ensures var lane, draft := Reconciled(d, saved, twinVersion).ws.lanes[i], ExpectedLanes(d)[i];
            && lane.id == draft.id && lane.category == draft.category
            && (lane.id == Unassigned ==> lane.pinned == None)
            && (forall was | was in saved.ws.lanes && was.id == lane.id && lane.id.SplitLane? ::
                  lane.pinned == was.pinned)
            && (forall was | was in saved.ws.lanes && was.id == lane.id == Main ::
                  lane.pinned == if was.pinned.Some? && ToCents(was.pinned.value) == ToCents(d.total)
                                 then was.pinned else None)
            && ((forall was | was in saved.ws.lanes :: was.id != lane.id) ==> lane == draft)
  {
    var draft := ExpectedLanes(d)[i];
    forall was | was in saved.ws.lanes && was.id == draft.id ensures Lookup(saved.ws.lanes, draft.id) == Some(was) {
      var k :| 0 <= k < |saved.ws.lanes| && saved.ws.lanes[k] == was;
      LookupIsLast(saved.ws.lanes, k);
    }
  }

  // ---------- toggling between single and split ----------

  /** A workspace reconciled to a single-category draft comes back unchanged from any split draft. */
  lemma SingleSplitSingle(single: Draft, split: Draft, saved: Saved, v: nat, v': nat)
    requires single.splits == [] && split.splits != []
    requires Fits(single, saved.ws.items, saved.ws.assignments)
    ensures Reconciled(single, Reconciled(split, saved, v), v').ws.assignments == saved.ws.assignments
  {
    OnlyRemaps(split, single, saved.ws);
    ReconciledFits(split, saved, v);
    OnlyRemaps(single, split, Reconciled(split, saved, v).ws);
  }

  /** From split to single and back, each item is where it was or unassigned: only the first split survives. */
  lemma SplitSingleSplit(split: Draft, single: Draft, later: Draft, saved: Saved, v: nat, v': nat)
    requires split.splits != [] && single.splits == [] && later.splits != []
    requires Fits(split, saved.ws.items, saved.ws.assignments)
    ensures var before := saved.ws.assignments;
            var after := Reconciled(later, Reconciled(single, saved, v), v').ws.assignments;
            && |after| == |before|
            && forall i | 0 <= i < |before| ::
                 && after[i].item == before[i].item
                 && after[i].lane == if before[i].lane == SplitLane(0) then SplitLane(0) else Unassigned
  {
    OnlyRemaps(single, split, saved.ws);
    ReconciledFits(single, saved, v);
    OnlyRemaps(later, single, Reconciled(single, saved, v).ws);
  }

  // ---------- moving items ----------

  /** moveWorkspaceItems */
  function Moved(ws: Workspace, ids: set<string>, lane: LaneId): Workspace {
    ws.(assignments := seq(|ws.assignments|, i requires 0 <= i < |ws.assignments| =>
      if ws.assignments[i].item in ids then ws.assignments[i].(lane := lane) else ws.assignments[i]))
  }

  /** Moving items to an expected lane keeps the workspace fitting, so the next reconcile changes no assignment. */
  lemma MoveStaysReconciled(d: Draft, ws: Workspace, ids: set<string>, lane: LaneId)
    requires Fits(d, ws.items, ws.assignments) && Expected(d, lane)
    ensures Reassigned(d, Moved(ws, ids, lane)) == Moved(ws, ids, lane).assignments
    ensures forall i | 0 <= i < |ws.assignments| ::
              Reassigned(d, Moved(ws, ids, lane))[i]
              == if ws.assignments[i].item in ids then Assignment(ws.assignments[i].item, lane) else ws.assignments[i]
  {
    var moved := Moved(ws, ids, lane);
    forall i | 0 <= i < |ws.items| ensures IsAssigned(moved.assignments, ws.items[i].id) {
      var k :| 0 <= k < |ws.assignments| && ws.assignments[k].item == ws.items[i].id;
      assert moved.assignments[k].item == ws.items[i].id;
    }
    forall i | 0 <= i < |moved.assignments|
      ensures IsItem(ws.items, moved.assignments[i].item) && Expected(d, moved.assignments[i].lane)
    {
      assert IsItem(ws.items, ws.assignments[i].item);
    }
    OnlyRemaps(d, d, moved);
  }

  // ---------- reconcile, then recompute ----------

  /** What recompute asks of its lanes holds after reconciling; for a split draft all of them are split lanes. */
  lemma ReconciledLanesCanBeRecomputed(d: Draft, saved: Saved, twinVersion: nat)
    ensures var lanes := Reconciled(d, saved, twinVersion).ws.lanes;
            && DistinctIds(lanes) && Assignable(lanes) != []
            && (d.splits != [] ==>
                  SplitLanes(Assignable(lanes)) == Assignable(lanes) && |Assignable(lanes)| == |d.splits|)
  {
    hide Reassigned, PreservedPin, MergedLanes, MergedLane, ToCents, Assignable, SplitLanes;
    var lanes := Reconciled(d, saved, twinVersion).ws.lanes;
    MergedAreDistinct(d, saved.ws.lanes);
    var n := |lanes| - 1;
    hide DistinctIds;
    AllAssignable(lanes[..n]);
    LastIsUnassigned(lanes);
    if d.splits != [] {
      assert forall l | l in lanes[..n] :: l.id.SplitLane?;
    }
  }

  lemma LastIsUnassigned(lanes: seq<Lane>)
    requires lanes != [] && lanes[|lanes| - 1].id == Unassigned
    ensures Assignable(lanes) == Assignable(lanes[..|lanes| - 1])
  {
  }

  /** Reconcile, then recompute: one split row per split of the draft, exact unless a pin warning says otherwise. */
  lemma ReconciledRecomputeIsExact(p: Payload, d: Draft, saved: Saved, twinVersion: nat, keepManual: bool,
                                   amounts: map<LaneId, int>, next: Payload)
    requires d.splits != [] && p.total >= 0
    requires var ws := Reconciled(d, saved, twinVersion).ws;
             && Gives(ws, Assignable(ws.lanes), ToCents(p.total), keepManual, amounts)
             && SplitsFrom(p, SplitLanes(Assignable(ws.lanes)), amounts, next)
    ensures |next.splits| == |d.splits|
    ensures var lanes := Assignable(Reconciled(d, saved, twinVersion).ws.lanes);
            PinWarnings(lanes, ToCents(p.total), keepManual) == [] <==> SplitSum(next) == 10 * ToCents(p.total)
  {
    hide Gives, SplitsFrom, PinWarnings;
    var ws := Reconciled(d, saved, twinVersion).ws;
    ReconciledLanesCanBeRecomputed(d, saved, twinVersion);
    SplitsSum(p, Assignable(ws.lanes), amounts, next);
    RecomputedSplitsAreExact(p, ws, Assignable(ws.lanes), keepManual, amounts, next);
  }

  lemma {:induction false} AllAssignable(lanes: seq<Lane>)
    requires forall i | 0 <= i < |lanes| :: lanes[i].id != Unassigned
    ensures Assignable(lanes) == lanes
  {
    if lanes != [] {
      hide Assignable;
      AssignableSnoc(lanes);
      AllAssignable(lanes[..|lanes| - 1]);
    }
  }

  lemma AssignableSnoc(lanes: seq<Lane>)
    requires lanes != [] && lanes[|lanes| - 1].id != Unassigned
    ensures Assignable(lanes) == Assignable(lanes[..|lanes| - 1]) + [lanes[|lanes| - 1]]
  {
  }
}
