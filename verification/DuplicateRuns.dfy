/**
 Duplicate pointers over whole runs: when they form no cycle, and the races that make one.
 Each step is one stretch of database work up to its commit, on the table as it is then.
 */
module DuplicateRuns {
  import opened Prelude
  import opened DuplicateGraph

  datatype Step =
    | Ingest(receipt: ReceiptId)
    | SaveDraft(receipt: ReceiptId, valid: bool, changed: bool, parts: Parts, refund: bool)
    | Override(receipt: ReceiptId, parts: Parts)
    | RequestSync(receipt: ReceiptId, parts: Parts, refund: bool)
    | RequestLost(receipt: ReceiptId)
    | StartSync(receipt: ReceiptId, parts: Parts, refund: bool)
    | WorkerWrites(receipt: ReceiptId, status: Status)
    | ResetToSynced(receipt: ReceiptId, parts: Parts, refund: bool)
    | RefreshFromTwin(receipt: ReceiptId, refund: bool)
    | Restart(receipt: ReceiptId)
    | SoftDelete(receipt: ReceiptId)
    | Restore(receipt: ReceiptId)
    | HardDelete(receipt: ReceiptId)

  function NewRow(): Row { Row(Ingested, None, None, None, None, false, false) }

  /** An invalid draft drops everything the duplicate check knows. */
  function Unchecked(row: Row): Row {
    Cleared(row).(near := None, signature := None, overridden := None)
  }

  /** What saving a draft does to the row before the duplicate check. */
  function Reopened(row: Row, valid: bool, changed: bool, refund: bool): Row {
    row.(refund := refund,
         status := if changed && row.status in {Synced, ErrorSync} then NeedsReview
                   else if valid && row.status == ErrorExtract then NeedsReview
                   else row.status)
  }

  /** Deleting a row sets the pointers to it to null. */
  function Without(t: Table, r: ReceiptId): Table {
    map x | x in t && x != r :: if t[x].pointer == Some(r) then t[x].(pointer := None) else t[x]
  }

  /** A step that does not apply changes nothing. */
  ghost function Perform(t: Table, step: Step): Table {
    match step
    case Ingest(r) => if r in t then t else t[r := NewRow()]
    case SaveDraft(r, valid, changed, parts, refund) =>
      if r !in t then t
      else
        var t1 := t[r := Reopened(t[r], valid, changed, refund)];
        if valid then Checked(t1, r, parts, refund) else t1[r := Unchecked(t1[r])]
    case Override(r, parts) =>
      if r !in t then t
      else t[r := Cleared(t[r]).(overridden := if t[r].signature.Some? then t[r].signature else SignatureOf(parts))]
    case RequestSync(r, parts, refund) =>
      if r !in t || t[r].deleted then t
      else
        var t1 := Checked(t, r, parts, refund);
        if t1[r].pointer.Some? then t1 else t1[r := t1[r].(status := Syncing)]
    case RequestLost(r) =>
      // The enqueue failed after the request committed: whatever happened since, back to review.
      if r !in t then t else t[r := t[r].(status := NeedsReview)]
    case StartSync(r, parts, refund) => if r !in t then t else Checked(t, r, parts, refund)
    case WorkerWrites(r, status) =>
      if r !in t || status !in {Syncing, Synced, NeedsReview, ErrorSync} then t else t[r := t[r].(status := status)]
    case ResetToSynced(r, parts, refund) =>
      if r !in t || t[r].deleted || t[r].status == Syncing then t
      else
        var t1 := Checked(t, r, parts, refund);
        t1[r := t1[r].(pointer := None, status := Synced)]
    case RefreshFromTwin(r, refund) => if r !in t then t else t[r := Reopened(t[r], false, true, refund)]
    case Restart(r) => if r !in t || t[r].status != Syncing then t else t[r := t[r].(status := NeedsReview)]
    case SoftDelete(r) => if r !in t || t[r].status in {Synced, Syncing} then t else t[r := t[r].(deleted := true)]
    case Restore(r) => if r !in t then t else t[r := t[r].(deleted := false)]
    case HardDelete(r) =>
      if r in t && (t[r].deleted || (t[r].status == DuplicateReview && t[r].pointer.Some?)) then Without(t, r) else t
  }

  ghost function Run(t: Table, steps: seq<Step>): Table {
    if steps == [] then t else Perform(Run(t, steps[..|steps| - 1]), steps[|steps| - 1])
  }

  // ---------- the pointer graph ----------

  function PointerOf(t: Table, r: ReceiptId): Option<ReceiptId> {
    if r in t then t[r].pointer else None
  }

  /** The receipt n pointers on. */
  function Follow(t: Table, r: ReceiptId, n: nat): Option<ReceiptId>
    decreases n
  {
    if n == 0 then Some(r)
    else
      match PointerOf(t, r)
      case None => None
      case Some(next) => Follow(t, next, n - 1)
  }

  ghost predicate NoCycle(t: Table) {
    forall r, n: nat | n > 0 :: Follow(t, r, n) != Some(r)
  }

  /** after has no pointer that before has not, but for an edge from r to a receipt without one. */
  ghost predicate OneNewEdge(before: Table, after: Table, r: ReceiptId) {
    && (forall x | x != r :: PointerOf(after, x) == None || PointerOf(after, x) == PointerOf(before, x))
    && match PointerOf(after, r)
       case None => true
       case Some(target) => target != r && PointerOf(after, target) == None
  }

  lemma FollowNone(t: Table, r: ReceiptId, n: nat)
    requires PointerOf(t, r) == None && n > 0
    ensures Follow(t, r, n) == None
  {
  }

  /** A path in after that ends at a receipt with a pointer was there before. */
  lemma {:induction false} PathWasThere(before: Table, after: Table, r: ReceiptId, x: ReceiptId, n: nat, y: ReceiptId)
    requires OneNewEdge(before, after, r) && PointerOf(after, y).Some?
    requires Follow(after, x, n) == Some(y)
    ensures Follow(before, x, n) == Some(y)
    decreases n
  {
    if n > 0 {
      var next := PointerOf(after, x).value;
      if x != r {
        PathWasThere(before, after, r, next, n - 1, y);
      }
    }
  }

  lemma OneNewEdgeKeepsNoCycle(before: Table, after: Table, r: ReceiptId)
    requires NoCycle(before) && OneNewEdge(before, after, r)
    ensures NoCycle(after)
  {
    forall x, n: nat | n > 0 ensures Follow(after, x, n) != Some(x) {
      if Follow(after, x, n) == Some(x) {
        if PointerOf(after, x) == None {
          FollowNone(after, x, n);
        } else {
          PathWasThere(before, after, r, x, n, x);
        }
      }
    }
  }

  // ---------- the invariant ----------

  /** A pointer is set only under duplicate review. */
  ghost predicate PointersReviewed(t: Table) {
    forall r | r in t && t[r].pointer.Some? :: t[r].status == DuplicateReview
  }

  ghost predicate Inv(t: Table) {
    PointersReviewed(t) && NoCycle(t)
  }

  /** The check: a new pointer leads to a receipt without one, and the row is under review exactly with a pointer. */
  lemma CheckedEdge(t: Table, r: ReceiptId, p: Parts, refund: bool)
    requires r in t
    requires forall x | x in t && x != r && t[x].pointer.Some? :: t[x].status == DuplicateReview
    ensures var after := Checked(t, r, p, refund);
            && after.Keys == t.Keys
            && (forall x | x in t && x != r :: after[x] == t[x])
            && (after[r].pointer.Some? <==> after[r].status == DuplicateReview)
            && OneNewEdge(t, after, r)
            && (after[r].pointer.Some? ==> after[r].pointer.value in t && t[after[r].pointer.value].pointer.None?)
  {
  }

  lemma SmallerEdge(t: Table, after: Table)
    requires forall x :: PointerOf(after, x) == None || PointerOf(after, x) == PointerOf(t, x)
    ensures NoCycle(t) ==> NoCycle(after)
  {
    if NoCycle(t) {
      forall x, n: nat | n > 0 ensures Follow(after, x, n) != Some(x) {
        if Follow(after, x, n) == Some(x) {
          FewerPaths(t, after, x, n);
        }
      }
    }
  }

  lemma {:induction false} FewerPaths(t: Table, after: Table, x: ReceiptId, n: nat)
    requires forall x :: PointerOf(after, x) == None || PointerOf(after, x) == PointerOf(t, x)
    requires Follow(after, x, n).Some?
    ensures Follow(t, x, n) == Follow(after, x, n)
    decreases n
  {
    if n > 0 {
      FewerPaths(t, after, PointerOf(after, x).value, n - 1);
    }
  }

  /** The steps that write a status without looking at the row: a worker's, and a lost request's. */
  predicate WritesBlindly(step: Step) {
    step.RequestLost? || (step.WorkerWrites? && step.status in {Syncing, Synced, NeedsReview, ErrorSync})
  }

  /** A status is written blindly over a receipt that meanwhile got a pointer. */
  ghost predicate WritesOverPointer(t: Table, step: Step) {
    WritesBlindly(step) && step.receipt in t && t[step.receipt].pointer.Some?
  }

  lemma EdgeStep(t: Table, step: Step)
    requires Inv(t) && (step.SaveDraft? || step.RequestSync? || step.StartSync? || step.ResetToSynced?)
    ensures Inv(Perform(t, step))
  {
    hide NoCycle, Checked;
    var r := step.receipt;
    if Perform(t, step) != t {
      var t1 := if step.SaveDraft? then t[r := Reopened(t[r], step.valid, step.changed, step.refund)] else t;
      CheckedEdge(t1, r, step.parts, step.refund);
      var after := Perform(t, step);
      assert forall x :: PointerOf(t1, x) == PointerOf(t, x);
      assert forall x | x != r :: PointerOf(after, x) == PointerOf(t, x);
      assert OneNewEdge(t, after, r);
      OneNewEdgeKeepsNoCycle(t, after, r);
    }
  }

  lemma OtherStep(t: Table, step: Step)
    requires Inv(t) && !(step.SaveDraft? || step.RequestSync? || step.StartSync? || step.ResetToSynced?)
    requires !WritesOverPointer(t, step)
    ensures Inv(Perform(t, step))
  {
    hide NoCycle, Checked;
    SmallerEdge(t, Perform(t, step));
  }

  /** Exactly a blind write over a pointer breaks the rule that a pointer means duplicate review. */
  lemma StepKeepsReviewExactly(t: Table, step: Step)
    requires Inv(t)
    ensures PointersReviewed(Perform(t, step)) <==> !WritesOverPointer(t, step)
    ensures !WritesOverPointer(t, step) ==> NoCycle(Perform(t, step))
  {
    hide NoCycle, Checked;
    if WritesOverPointer(t, step) {
      assert step.receipt in Perform(t, step);
    } else if step.SaveDraft? || step.RequestSync? || step.StartSync? || step.ResetToSynced? {
      EdgeStep(t, step);
    } else {
      OtherStep(t, step);
    }
  }

  // ---------- every run ----------

  ghost predicate WritesOverPointerAt(steps: seq<Step>, i: nat)
    requires i < |steps|
  {
    WritesOverPointer(Run(map[], steps[..i]), steps[i])
  }

  /** Unless a status is written over a pointer, no run makes a cycle, and every pointer is under review. */
  lemma {:induction false} PointersNeverCycle(steps: seq<Step>)
    requires forall i | 0 <= i < |steps| :: !WritesOverPointerAt(steps, i)
    ensures NoCycle(Run(map[], steps)) && PointersReviewed(Run(map[], steps))
  {
    hide Perform, WritesOverPointer;
    if steps != [] {
      var n := |steps| - 1;
      var init := steps[..n];
      forall i | 0 <= i < n ensures !WritesOverPointerAt(init, i) {
        assert init[..i] == steps[..i] && !WritesOverPointerAt(steps, i);
      }
      PointersNeverCycle(init);
      assert !WritesOverPointerAt(steps, n);
      StepKeepsReviewExactly(Run(map[], init), steps[n]);
    }
  }

  ghost predicate ReviewedAt(steps: seq<Step>, k: nat)
    requires k <= |steps|
  {
    PointersReviewed(Run(map[], steps[..k]))
  }

  /** Pointers mean duplicate review all through a run exactly when no step of it writes over a pointer. */
  lemma {:induction false} ReviewIsKeptExactly(steps: seq<Step>)
    ensures (forall k: nat | k <= |steps| :: ReviewedAt(steps, k))
            <==> forall i: nat | i < |steps| :: !WritesOverPointerAt(steps, i)
  {
    hide Perform, WritesOverPointer, PointersReviewed;
    if steps == [] {
      PointersNeverCycle(steps);
      assert ReviewedAt(steps, 0) by {
        assert steps[..0] == steps;
      }
    } else {
      var n := |steps| - 1;
      var init := steps[..n];
      ReviewIsKeptExactly(init);
      forall k: nat | k <= n ensures ReviewedAt(init, k) == ReviewedAt(steps, k) {
        assert init[..k] == steps[..k];
      }
      forall i: nat | i < n ensures WritesOverPointerAt(init, i) == WritesOverPointerAt(steps, i) {
        assert init[..i] == steps[..i];
      }
      if forall i: nat | i < n :: !WritesOverPointerAt(init, i) {
        PointersNeverCycle(init);
        StepKeepsReviewExactly(Run(map[], init), steps[n]);
        assert steps[..n + 1] == steps;
        assert ReviewedAt(steps, n + 1) <==> !WritesOverPointerAt(steps, n);
      } else {
        var i: nat :| i < n && WritesOverPointerAt(init, i);
        assert WritesOverPointerAt(steps, i);
        var k: nat :| k <= n && !ReviewedAt(init, k);
        assert !ReviewedAt(steps, k);
      }
    }
  }

  /** So draft saves, overrides, sync requests and deletes make none, unless a lost request writes over a pointer. */
  lemma {:induction false} RequestsNeverCycle(steps: seq<Step>)
    requires forall i | 0 <= i < |steps| :: !steps[i].WorkerWrites?
    requires forall i | 0 <= i < |steps| && steps[i].RequestLost? :: !WritesOverPointerAt(steps, i)
    ensures NoCycle(Run(map[], steps)) && PointersReviewed(Run(map[], steps))
  {
    forall i | 0 <= i < |steps| ensures !WritesOverPointerAt(steps, i) {
      assert steps[i].RequestLost? ==> !WritesOverPointerAt(steps, i);
    }
    PointersNeverCycle(steps);
  }

  // ---------- a pointer set on an outdated table ----------

  /** Following pointers from c never reaches r. */
  ghost predicate NeverLeadsTo(t: Table, c: ReceiptId, r: ReceiptId) {
    forall n: nat :: Follow(t, c, n) != Some(r)
  }

  function Pointed(t: Table, r: ReceiptId, c: ReceiptId): Table
    requires r in t
  {
    t[r := t[r].(pointer := Some(c), status := DuplicateReview)]
  }

  lemma {:induction false} FollowAdds(t: Table, x: ReceiptId, m: nat, n: nat)
    ensures Follow(t, x, m + n) == match Follow(t, x, m) case None => None case Some(y) => Follow(t, y, n)
    decreases m
  {
    if m > 0 && PointerOf(t, x).Some? {
      FollowAdds(t, PointerOf(t, x).value, m - 1, n);
    }
  }

  /** Up to its first visit to r a path is the same whatever r points to. */
  lemma {:induction false} SameUpTo(t: Table, t': Table, r: ReceiptId, x: ReceiptId, n: nat) returns (m: nat)
    requires forall y | y != r :: PointerOf(t, y) == PointerOf(t', y)
    requires Follow(t, x, n) == Some(r)
    ensures m <= n && Follow(t', x, m) == Some(r)
    decreases n
  {
    if x == r {
      m := 0;
    } else {
      var k := SameUpTo(t, t', r, PointerOf(t, x).value, n - 1);
      m := k + 1;
    }
  }

  lemma {:induction false} SameWithout(t: Table, t': Table, r: ReceiptId, x: ReceiptId, n: nat)
    requires forall y | y != r :: PointerOf(t, y) == PointerOf(t', y)
    requires forall k: nat | k < n :: Follow(t, x, k) != Some(r)
    ensures Follow(t, x, n) == Follow(t', x, n)
    decreases n
  {
    if n > 0 {
      assert Follow(t, x, 0) != Some(r);
      if PointerOf(t, x).Some? {
        var next := PointerOf(t, x).value;
        forall k: nat | k < n - 1 ensures Follow(t, next, k) != Some(r) {
          var k' := k + 1;
          assert Follow(t, x, k') != Some(r);
        }
        SameWithout(t, t', r, next, n - 1);
      }
    }
  }

  /** A cycle through x that visits r goes round through r. */
  lemma CycleThrough(t: Table, x: ReceiptId, n: nat, k: nat, r: ReceiptId)
    requires k < n && Follow(t, x, n) == Some(x) && Follow(t, x, k) == Some(r)
    ensures Follow(t, r, n) == Some(r)
  {
    FollowAdds(t, x, k, n - k);
    FollowAdds(t, r, n - k, k);
  }

  /** Whatever its check had seen, setting r's pointer to c closes a cycle exactly when c leads to r by then. */
  lemma PointingClosesCycleExactly(t: Table, r: ReceiptId, c: ReceiptId)
    requires NoCycle(t) && r in t
    ensures NoCycle(Pointed(t, r, c)) <==> NeverLeadsTo(t, c, r)
  {
    var after := Pointed(t, r, c);
    if n: nat :| Follow(t, c, n) == Some(r) {
      var m := SameUpTo(t, after, r, c, n);
      var round := m + 1;
      assert Follow(after, r, round) == Some(r);
    } else {
      forall x, n: nat | n > 0 ensures Follow(after, x, n) != Some(x) {
        if Follow(after, x, n) == Some(x) {
          if k: nat :| k < n && Follow(after, x, k) == Some(r) {
            CycleThrough(after, x, n, k, r);
            assert Follow(after, c, n - 1) == Some(r);
            var m := SameUpTo(after, t, r, c, n - 1);
          } else {
            SameWithout(after, t, r, x, n);
          }
        }
      }
    }
  }

  lemma {:induction false} SamePointersSamePaths(t: Table, t': Table, x: ReceiptId, n: nat)
    requires forall y :: PointerOf(t, y) == PointerOf(t', y)
    ensures Follow(t, x, n) == Follow(t', x, n)
    decreases n
  {
    if n > 0 && PointerOf(t, x).Some? {
      SamePointersSamePaths(t, t', PointerOf(t, x).value, n - 1);
    }
  }

  lemma SamePointersSameCycles(t: Table, t': Table)
    requires forall y :: PointerOf(t, y) == PointerOf(t', y)
    ensures NoCycle(t) <==> NoCycle(t')
  {
    forall x, n: nat ensures Follow(t, x, n) == Follow(t', x, n) {
      SamePointersSamePaths(t, t', x, n);
    }
  }

  lemma PointersOfOthers(t: Table, step: Step)
    ensures var after, r := Perform(t, step), step.receipt;
            && (forall x | x != r :: PointerOf(after, x) == PointerOf(t, x)
                                     || (PointerOf(after, x).None? && PointerOf(after, r).None?))
            && (PointerOf(after, r).Some? ==> r in t)
  {
  }

  /** The pointer the step leaves its receipt with led back to it before. */
  ghost predicate PointsBack(t: Table, step: Step) {
    match PointerOf(Perform(t, step), step.receipt)
    case None => false
    case Some(c) => !NeverLeadsTo(t, c, step.receipt)
  }

  /**
   Every step, over a table without cycles, even one where pointers stand without the review
   status: there is a cycle afterwards exactly when the receipt's pointer leads back to it.
   */
  lemma StepKeepsNoCycleExactly(t: Table, step: Step)
    requires NoCycle(t)
    ensures NoCycle(Perform(t, step)) <==> !PointsBack(t, step)
  {
    hide Perform, NoCycle, NeverLeadsTo;
    var after, r := Perform(t, step), step.receipt;
    PointersOfOthers(t, step);
    match PointerOf(after, r) {
      case None => SmallerEdge(t, after);
      case Some(c) =>
        var pointed := Pointed(t, r, c);
        PointingClosesCycleExactly(t, r, c);
        assert PointerOf(Perform(t, step), step.receipt) == Some(c);
        assert forall y :: PointerOf(after, y) == PointerOf(pointed, y);
        SamePointersSameCycles(after, pointed);
    }
  }

  ghost predicate AcyclicAt(steps: seq<Step>, k: nat)
    requires k <= |steps|
  {
    NoCycle(Run(map[], steps[..k]))
  }

  ghost predicate PointsBackAt(steps: seq<Step>, i: nat)
    requires i < |steps|
  {
    PointsBack(Run(map[], steps[..i]), steps[i])
  }

  /** No cycle all through a run exactly when no step of it points back. */
  lemma {:induction false} RunsCycleExactly(steps: seq<Step>)
    ensures (forall k: nat | k <= |steps| :: AcyclicAt(steps, k))
            <==> forall i: nat | i < |steps| :: !PointsBackAt(steps, i)
  {
    hide Perform, PointsBack, NoCycle;
    if steps == [] {
      PointersNeverCycle(steps);
      assert steps[..0] == steps;
    } else {
      var n := |steps| - 1;
      var init := steps[..n];
      RunsCycleExactly(init);
      forall k: nat | k <= n ensures AcyclicAt(init, k) == AcyclicAt(steps, k) {
        assert init[..k] == steps[..k];
      }
      forall i: nat | i < n ensures PointsBackAt(init, i) == PointsBackAt(steps, i) {
        assert init[..i] == steps[..i];
      }
      if forall i: nat | i < n :: !PointsBackAt(init, i) {
        assert init[..n] == init && AcyclicAt(init, n);
        StepKeepsNoCycleExactly(Run(map[], init), steps[n]);
        assert steps[..n + 1] == steps;
        assert AcyclicAt(steps, n + 1) <==> !PointsBackAt(steps, n);
      } else {
        var i: nat :| i < n && PointsBackAt(init, i);
        assert PointsBackAt(steps, i);
        var k: nat :| k <= n && !AcyclicAt(init, k);
        assert !AcyclicAt(steps, k);
      }
    }
  }

  // ---------- the races ----------

  const A := ReceiptId(0)
  const B := ReceiptId(1)

  /**
   While B is syncing, its draft becomes a duplicate of A; then B's status is written blindly,
   and A's next save points to B.
   */
  function Race(p: Parts, q: Parts, write: Step): seq<Step> {
    [Ingest(A), Ingest(B), SaveDraft(A, true, true, p, false), RequestSync(B, q, false),
     SaveDraft(B, true, true, p, false), write, SaveDraft(A, true, true, p, false)]
  }

  lemma RunSnoc(steps: seq<Step>, step: Step)
    ensures Run(map[], steps + [step]) == Perform(Run(map[], steps), step)
  {
    assert (steps + [step])[..|steps|] == steps;
  }

  /** Two different complete payloads and any blind write are enough: the race ends in a cycle of two. */
  lemma RaceMakesACycle(p: Parts, q: Parts, write: Step)
    requires SignatureOf(p).Some? && SignatureOf(q).Some? && SignatureOf(p) != SignatureOf(q)
    requires WritesBlindly(write) && write.receipt == B
    ensures var t := Run(map[], Race(p, q, write));
            Follow(t, A, 2) == Some(A) && !NoCycle(t)
  {
    hide Run, Checked, NoCycle, Follow;
    var s := SignatureOf(p);
    var a := NewRow().(near := p.near, signature := s);
    var b := NewRow().(near := q.near, signature := SignatureOf(q), status := Syncing);
    var steps := Race(p, q, write);
    RaceSetUp(p, q, write);
    var t4 := map[A := a, B := b];
    RaceStep(p, q, write, 4);
    var b1 := b.(near := p.near, signature := s, pointer := Some(A), status := DuplicateReview);
    assert Run(map[], steps[..5]) == map[A := a, B := b1] by {
      SavePoints(t4, B, p, A);
    }
    RaceStep(p, q, write, 5);
    var written := if write.RequestLost? then NeedsReview else write.status;
    var t6 := map[A := a, B := b1.(status := written)];
    assert Run(map[], steps[..6]) == t6;
    RaceStep(p, q, write, 6);
    assert steps[..7] == steps;
    SavePoints(t6, A, p, B);
    TwoCycle(Run(map[], steps));
  }

  /** Saving a purchase draft over a row with nothing to reopen points it to its target. */
  lemma SavePoints(t: Table, r: ReceiptId, p: Parts, c: ReceiptId)
    requires r in t && !t[r].refund && t[r].status !in {Synced, ErrorSync, ErrorExtract}
    requires SignatureOf(p).Some? && t[r].overridden.None? && IsTarget(t, r, SignatureOf(p).value, false, c)
    ensures Perform(t, SaveDraft(r, true, true, p, false))
            == t[r := t[r].(near := p.near, signature := SignatureOf(p), pointer := Some(c), status := DuplicateReview)]
  {
    assert t[r := Reopened(t[r], true, true, false)] == t;
    CheckedPoints(t, r, p, false, c);
  }

  /** A request whose enqueue fails is enough: draft saves and one sync request, and no worker. */
  lemma LostRequestMakesACycle(p: Parts, q: Parts)
    requires SignatureOf(p).Some? && SignatureOf(q).Some? && SignatureOf(p) != SignatureOf(q)
    ensures !NoCycle(Run(map[], Race(p, q, RequestLost(B))))
  {
    RaceMakesACycle(p, q, RequestLost(B));
  }

  /** Two equal drafts checked on the same table and then both stored point at each other. */
  lemma SavesAtOnceMakeACycle(t: Table, p: Parts)
    requires A in t && B in t && SignatureOf(p).Some?
    requires t[A].overridden.None? && IsTarget(t, A, SignatureOf(p).value, false, B)
    requires t[B].overridden.None? && IsTarget(t, B, SignatureOf(p).value, false, A)
    ensures var a, b := Checked(t, A, p, false)[A], Checked(t, B, p, false)[B];
            !NoCycle(t[A := a][B := b])
  {
    CheckedPoints(t, A, p, false, B);
    CheckedPoints(t, B, p, false, A);
    var a, b := Checked(t, A, p, false)[A], Checked(t, B, p, false)[B];
    TwoCycle(t[A := a][B := b]);
  }

  lemma TwoCycle(t: Table)
    requires PointerOf(t, A) == Some(B) && PointerOf(t, B) == Some(A)
    ensures Follow(t, A, 2) == Some(A) && !NoCycle(t)
  {
    assert Follow(t, B, 1) == Some(A);
    assert Follow(t, A, 2) == Some(A);
  }

  lemma RaceStep(p: Parts, q: Parts, write: Step, i: nat)
    requires i < 7
    ensures Run(map[], Race(p, q, write)[..i + 1]) == Perform(Run(map[], Race(p, q, write)[..i]), Race(p, q, write)[i])
  {
    hide Perform;
    RunSnoc(Race(p, q, write)[..i], Race(p, q, write)[i]);
    assert Race(p, q, write)[..i] + [Race(p, q, write)[i]] == Race(p, q, write)[..i + 1];
  }

  /** The first four steps: A is checked, B is syncing with another signature. */
  lemma RaceSetUp(p: Parts, q: Parts, write: Step)
    requires SignatureOf(p).Some? && SignatureOf(q).Some? && SignatureOf(p) != SignatureOf(q)
    ensures Run(map[], Race(p, q, write)[..4])
            == map[A := NewRow().(near := p.near, signature := SignatureOf(p)),
                   B := NewRow().(near := q.near, signature := SignatureOf(q), status := Syncing)]
  {
    hide Run, Checked;
    var steps := Race(p, q, write);
    assert steps[..0] == [];
    RunNothing();
    RaceStep(p, q, write, 0);
    RaceStep(p, q, write, 1);
    var t2 := map[A := NewRow(), B := NewRow()];
    assert Run(map[], steps[..2]) == t2;
    RaceStep(p, q, write, 2);
    var t3 := map[A := NewRow().(near := p.near, signature := SignatureOf(p)), B := NewRow()];
    assert Run(map[], steps[..3]) == t3 by {
      assert t2[A := Reopened(t2[A], true, true, false)] == t2;
      CheckedClears(t2, A, p, false);
    }
    RaceStep(p, q, write, 3);
    CheckedClears(t3, B, q, false);
  }

  lemma RunNothing()
    ensures Run(map[], []) == map[]
  {
  }

  // ---------- what the user's steps mean ----------

  /** Every pointer leads to a receipt that is there. */
  ghost predicate PointersLead(t: Table) {
    forall r | r in t && t[r].pointer.Some? :: t[r].pointer.value in t
  }

  lemma StepKeepsPointersLeading(t: Table, step: Step)
    requires PointersLead(t)
    ensures PointersLead(Perform(t, step))
  {
    if step.SaveDraft? || step.RequestSync? || step.StartSync? || step.ResetToSynced? {
      if step.receipt in t {
        var r := step.receipt;
        var t1 := if step.SaveDraft? then t[r := Reopened(t[r], step.valid, step.changed, step.refund)] else t;
        CheckedLeads(t1, r, step.parts, step.refund);
        hide Checked;
      }
    } else {
      hide Checked;
    }
  }

  lemma CheckedLeads(t: Table, r: ReceiptId, p: Parts, refund: bool)
    requires r in t && forall x | x in t && x != r && t[x].pointer.Some? :: t[x].pointer.value in t
    ensures PointersLead(Checked(t, r, p, refund)) && Checked(t, r, p, refund).Keys == t.Keys
  {
    CheckedIs(t, r, p, refund);
  }

  /** In every run, deletes included, no pointer dangles. */
  lemma {:induction false} PointersNeverDangle(steps: seq<Step>)
    ensures PointersLead(Run(map[], steps))
  {
    hide Perform;
    if steps != [] {
      PointersNeverDangle(steps[..|steps| - 1]);
      StepKeepsPointersLeading(Run(map[], steps[..|steps| - 1]), steps[|steps| - 1]);
    }
  }

  lemma OthersKeepTheOverride(t: Table, step: Step, r: ReceiptId)
    requires step.receipt != r && r in t
    ensures var after := Perform(t, step);
            r in after && after[r].overridden == t[r].overridden && after[r].signature == t[r].signature
  {
  }

  lemma {:induction false} OverrideStays(t: Table, steps: seq<Step>, r: ReceiptId)
    requires r in t && forall i | 0 <= i < |steps| :: steps[i].receipt != r
    ensures var after := Run(t, steps); r in after && after[r].overridden == t[r].overridden
  {
    hide Perform;
    if steps != [] {
      OverrideStays(t, steps[..|steps| - 1], r);
      OthersKeepTheOverride(Run(t, steps[..|steps| - 1]), steps[|steps| - 1], r);
    }
  }

  /**
   An override lasts: whatever happens to other receipts, checking the receipt with the overridden
   payload sets no pointer, and checking it with another complete one forgets the override.
   */
  lemma OverrideLasts(t: Table, r: ReceiptId, p: Parts, steps: seq<Step>, q: Parts, refund: bool)
    requires r in t && SignatureOf(p).Some? && t[r].signature in {None, SignatureOf(p)}
    requires forall i | 0 <= i < |steps| :: steps[i].receipt != r
    ensures var later := Run(Perform(t, Override(r, p)), steps);
            && r in later
            && Checked(later, r, p, refund)[r].pointer == None
            && Checked(later, r, p, refund)[r].status != DuplicateReview
            && (SignatureOf(q).Some? && SignatureOf(q) != SignatureOf(p) ==>
                  Checked(later, r, q, refund)[r].overridden == None)
  {
    hide Run;
    var overridden := Perform(t, Override(r, p));
    assert overridden[r].overridden == SignatureOf(p);
    OverrideStays(overridden, steps, r);
    var later := Run(overridden, steps);
    CheckedIs(later, r, p, refund);
    CheckedIs(later, r, q, refund);
  }

  /** A changed draft reopens a settled receipt, and a valid one a failed extraction; an invalid one is no duplicate. */
  lemma DraftReopens(t: Table, r: ReceiptId, valid: bool, changed: bool, p: Parts, refund: bool)
    requires r in t
    ensures var after := Perform(t, SaveDraft(r, valid, changed, p, refund))[r];
            && after.refund == refund
            && (changed ==> after.status !in {Synced, ErrorSync})
            && (valid ==> after.status != ErrorExtract)
            && (!valid ==> after.pointer == None && after.status != DuplicateReview && after.signature == None
                           && after.near == None && after.overridden == None)
            && (!changed && t[r].status in {Synced, ErrorSync} ==> after.status in {t[r].status, DuplicateReview})
            && (t[r].status == Syncing ==> after.status in {Syncing, DuplicateReview})
  {
    var t1 := t[r := Reopened(t[r], valid, changed, refund)];
    CheckedIs(t1, r, p, refund);
    hide Checked;
  }

  /** A sync is claimed exactly for a live receipt without a duplicate to review; otherwise nothing is syncing. */
  lemma RequestClaims(t: Table, r: ReceiptId, p: Parts, refund: bool)
    requires r in t && t[r].status != Syncing
    ensures var after := Perform(t, RequestSync(r, p, refund))[r];
            var twins := set c | c in t && IsTwin(t, r, p, refund, c);
            var overrides := p.near.Some? && p.time.Some?
                             && t[r].overridden == Some(Signature(p.near.value, p.time.value));
            after.status == Syncing <==> !t[r].deleted && (twins == {} || overrides)
  {
    CheckedIs(t, r, p, refund);
    hide Checked;
  }

  /** What the remaining steps do to their receipt; no other receipt changes, but for pointers to a deleted one. */
  lemma OtherStepsMean(t: Table, r: ReceiptId)
    requires r in t
    ensures Perform(t, SoftDelete(r))
            == if t[r].status in {Synced, Syncing} then t else t[r := t[r].(deleted := true)]
    ensures Perform(t, Restore(r)) == t[r := t[r].(deleted := false)]
    ensures Perform(t, Restart(r)) == if t[r].status == Syncing then t[r := t[r].(status := NeedsReview)] else t
    ensures var after := Perform(t, HardDelete(r));
            if t[r].deleted || (t[r].status == DuplicateReview && t[r].pointer.Some?)
            then after.Keys == t.Keys - {r}
                 && forall x | x in after ::
                      after[x] == if t[x].pointer == Some(r) then t[x].(pointer := None) else t[x]
            else after == t
  {
    hide Checked;
  }

  /** Restoring the synced status drops the pointer with it, and is refused while a sync runs. */
  lemma ResetMeans(t: Table, r: ReceiptId, p: Parts, refund: bool)
    requires r in t
    ensures var after := Perform(t, ResetToSynced(r, p, refund));
            if t[r].deleted || t[r].status == Syncing then after == t
            else after.Keys == t.Keys && after[r].status == Synced && after[r].pointer == None
                 && forall x | x in t && x != r :: after[x] == t[x]
  {
    CheckedIs(t, r, p, refund);
  }
}
