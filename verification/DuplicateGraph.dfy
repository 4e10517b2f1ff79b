/**
 The duplicate-of pointers between receipts: apply_semantic_duplicate_state of
 services/duplicates.py and the status steps of api/receipts.py around it. Receipt ids
 number the receipts in the order (ingested_at, id). Extraction and reconciliation status
 writes are not part of these steps.
 */
module DuplicateGraph {
  import opened Prelude

  datatype ReceiptId = ReceiptId(n: nat)

  datatype Status = Ingested | Extracting | NeedsReview | DuplicateReview | Syncing | Synced | ErrorExtract | ErrorSync

  /** Payee, date and total as one key, and the time of day; each may be missing. */
  datatype Parts = Parts(near: Option<string>, time: Option<string>)

  datatype Signature = Signature(near: string, time: string)

  function SignatureOf(p: Parts): Option<Signature> {
    if p.near.Some? && p.time.Some? then Some(Signature(p.near.value, p.time.value)) else None
  }

  /** refund is the kind of the latest validation. */
  datatype Row = Row(status: Status, pointer: Option<ReceiptId>, near: Option<string>, signature: Option<Signature>,
                     overridden: Option<Signature>, refund: bool, deleted: bool)

  type Table = map<ReceiptId, Row>

  // ---------- the duplicate check ----------

  /** A live receipt with the same signature that is not itself under duplicate review. */
  predicate Candidate(t: Table, r: ReceiptId, s: Signature, c: ReceiptId) {
    c in t && c != r && t[c].signature == Some(s) && !t[c].deleted && t[c].status != DuplicateReview
  }

  /** The target of a duplicate: the first candidate of the same kind. */
  ghost predicate IsTarget(t: Table, r: ReceiptId, s: Signature, refund: bool, c: ReceiptId) {
    && Candidate(t, r, s, c) && t[c].refund == refund
    && forall d | Candidate(t, r, s, d) && t[d].refund == refund :: c.n <= d.n
  }

  function Cleared(row: Row): Row {
    row.(pointer := None, status := if row.status == DuplicateReview then NeedsReview else row.status)
  }

  /** The row with the parts of its payload, and an override of another signature dropped. */
  function WithParts(row: Row, p: Parts): Row {
    var s := SignatureOf(p);
    row.(near := p.near, signature := s,
         overridden := if s.Some? && row.overridden != s then None else row.overridden)
  }

  /** What the check makes of the table. */
  ghost function Checked(t: Table, r: ReceiptId, p: Parts, refund: bool): Table
    requires r in t
  {
    var row := WithParts(t[r], p);
    var s := SignatureOf(p);
    if s.None? || row.overridden == s then t[r := Cleared(row)]
    else if exists c :: IsTarget(t, r, s.value, refund, c) then
      var c :| IsTarget(t, r, s.value, refund, c);
      t[r := row.(pointer := Some(c), status := DuplicateReview)]
    else t[r := Cleared(row)]
  }

  /** The check does not depend on how the target is picked: there is only one. */
  lemma CheckedPoints(t: Table, r: ReceiptId, p: Parts, refund: bool, c: ReceiptId)
    requires r in t && SignatureOf(p).Some? && t[r].overridden != SignatureOf(p)
    requires IsTarget(t, r, SignatureOf(p).value, refund, c)
    ensures Checked(t, r, p, refund) == t[r := WithParts(t[r], p).(pointer := Some(c), status := DuplicateReview)]
  {
  }

  lemma CheckedClears(t: Table, r: ReceiptId, p: Parts, refund: bool)
    requires r in t
    requires var s := SignatureOf(p);
             s.None? || t[r].overridden == s || !exists c :: IsTarget(t, r, s.value, refund, c)
    ensures Checked(t, r, p, refund) == t[r := Cleared(WithParts(t[r], p))]
  {
  }

  /** A live receipt that is not under review, of the same signature and kind: what a duplicate is. */
  ghost predicate IsTwin(t: Table, r: ReceiptId, p: Parts, refund: bool, c: ReceiptId) {
    && c in t && c != r && !t[c].deleted && t[c].status != DuplicateReview
    && p.near.Some? && p.time.Some? && t[c].signature == Some(Signature(p.near.value, p.time.value))
    && t[c].refund == refund
  }

  /** A set of receipts has a first one. */
  lemma {:induction false} FirstOf(s: set<ReceiptId>) returns (c: ReceiptId)
    requires s != {}
    ensures c in s && forall d | d in s :: c.n <= d.n
    decreases s
  {
    c := AnElement(s);
    var rest := s - {c};
    if rest != {} {
      var d := FirstOf(rest);
      c := if d.n < c.n then d else c;
    }
    assert forall d | d in s :: d in rest || d in s - rest;
  }

  /**
   What the check does to a receipt: it is put under review and points to its first twin exactly when
   it has one and the user has not overridden this signature. Otherwise the pointer goes, and only the
   review status is taken back.
   */
  lemma CheckedIs(t: Table, r: ReceiptId, p: Parts, refund: bool)
    requires r in t
    ensures var after := Checked(t, r, p, refund)[r];
            var overrides := p.near.Some? && p.time.Some?
                             && t[r].overridden == Some(Signature(p.near.value, p.time.value));
            var twins := set c | c in t && IsTwin(t, r, p, refund, c);
            && (if twins != {} && !overrides
                then after.status == DuplicateReview && after.pointer.Some? && after.pointer.value in twins
                     && forall c | c in twins :: after.pointer.value.n <= c.n
                else after.pointer.None?
                     && after.status == if t[r].status == DuplicateReview then NeedsReview else t[r].status)
            && after.near == p.near && after.signature == SignatureOf(p)
            && after.deleted == t[r].deleted && after.refund == t[r].refund
            && after.overridden == if p.near.Some? && p.time.Some? && !overrides then None else t[r].overridden
  {
    var twins := set c | c in t && IsTwin(t, r, p, refund, c);
    if SignatureOf(p).Some? {
      var s := SignatureOf(p).value;
      assert forall c :: c in twins <==> Candidate(t, r, s, c) && t[c].refund == refund;
      if twins != {} {
        var c := FirstOf(twins);
        assert IsTarget(t, r, s, refund, c);
      }
    } else {
      assert twins == {};
    }
  }

  /** A live receipt, not under review, with the signature; without a signature, with payee, date and total. */
  predicate Matches(t: Table, r: ReceiptId, p: Parts, c: ReceiptId) {
    && c in t && c != r && !t[c].deleted && t[c].status != DuplicateReview
    && match SignatureOf(p)
       case Some(s) => t[c].signature == Some(s)
       case None => p.near.Some? && t[c].near == p.near
  }

  /** What the check reports: the target, the number of matches, and whether they are only near ones. */
  datatype CheckResult = CheckResult(duplicateOf: Option<ReceiptId>, matchCount: nat, nearMatch: bool)

  /** The matches that count: none under an override of the same signature. */
  function MatchesOf(t: Table, r: ReceiptId, p: Parts): set<ReceiptId>
    requires r in t
  {
    if SignatureOf(p).Some? && t[r].overridden == SignatureOf(p) then {} else set c | c in t && Matches(t, r, p, c)
  }

  /** The matches: the twins of either kind; without a time of day those of the same payee, date and total. */
  lemma MatchesOfAre(t: Table, r: ReceiptId, p: Parts, c: ReceiptId)
    requires r in t
    ensures c in MatchesOf(t, r, p) <==>
              && c in t && c != r && !t[c].deleted && t[c].status != DuplicateReview && p.near.Some?
              && (if p.time.None? then t[c].near == p.near
                  else (IsTwin(t, r, p, true, c) || IsTwin(t, r, p, false, c))
                       && t[r].overridden != Some(Signature(p.near.value, p.time.value)))
  {
  }

  /** The receipts table, listed in ingestion order. */
  class ReceiptTable {
    var rows: Table
    var order: seq<ReceiptId>

    ghost predicate Valid()
      reads this
    {
      && (forall i | 0 <= i < |order| :: order[i] in rows)
      && (forall r | r in rows :: Listed(order, r))
      && IsAscending(order)
    }

    constructor ()
      ensures Valid() && rows == map[]
    {
      rows, order := map[], [];
    }

    /** apply_semantic_duplicate_state, with what it reports; the wording of the notes is left out. */
    method ApplySemanticDuplicateState(r: ReceiptId, p: Parts, refund: bool) returns (check: CheckResult)
      requires Valid() && r in rows
      modifies this`rows
      ensures Valid() && rows == Checked(old(rows), r, p, refund)
      ensures r in rows && check.duplicateOf == rows[r].pointer
      ensures check.duplicateOf.Some? <==> rows[r].status == DuplicateReview
      ensures check.matchCount == |MatchesOf(old(rows), r, p)|
      ensures check.nearMatch <==> check.duplicateOf.None? && MatchesOf(old(rows), r, p) != {}
    {
      hide Checked, IsTarget, Matches, Candidate, IsAscending;
      var signature := SignatureOf(p);
      var row := WithParts(rows[r], p);
      if signature.Some? && rows[r].overridden == signature {
        CheckedClears(rows, r, p, refund);
        rows := rows[r := Cleared(row)];
        return CheckResult(None, 0, false);
      }
      var pool := Candidates(r, p);
      PoolIsMatches(rows, r, p, pool);
      if signature.None? || pool == [] {
        NoCandidates(rows, r, p, refund, pool);
        CheckedClears(rows, r, p, refund);
        rows := rows[r := Cleared(row)];
        return CheckResult(None, |pool|, pool != []);
      }
      MatchesAreCandidates(rows, r, p);
      forall k | 0 <= k < |pool| ensures pool[k] in rows {
        assert Listed(pool, pool[k]);
        CandidatesAreRows(rows, r, signature.value, pool[k]);
      }
      var sameKind := SameKind(pool, refund);
      FirstIsTarget(rows, r, signature.value, refund, pool, sameKind);
      if sameKind == [] {
        CheckedClears(rows, r, p, refund);
        rows := rows[r := Cleared(row)];
        return CheckResult(None, |pool|, true);
      }
      CheckedPoints(rows, r, p, refund, sameKind[0]);
      rows := rows[r := row.(pointer := Some(sameKind[0]), status := DuplicateReview)];
      check := CheckResult(Some(sameKind[0]), |pool|, false);
    }

    /** The matches that are not under duplicate review, first ingested first. */
    method Candidates(r: ReceiptId, p: Parts) returns (pool: seq<ReceiptId>)
      requires Valid()
      ensures forall c :: Listed(pool, c) <==> Matches(rows, r, p, c)
      ensures IsAscending(pool)
    {
      hide Matches;
      pool := [];
      for i := 0 to |order|
        invariant forall c :: Listed(pool, c) <==> Listed(order[..i], c) && Matches(rows, r, p, c)
        invariant IsAscending(pool)
      {
        ListedSnoc(order[..i], order[i]);
        assert order[..i + 1] == order[..i] + [order[i]];
        if Matches(rows, r, p, order[i]) {
          StaysAscending(pool, order, i);
          ListedSnoc(pool, order[i]);
          pool := pool + [order[i]];
        }
      }
      assert order[..|order|] == order;
      AllListed(rows, order, r, p);
    }

    /** Those of one kind. */
    method SameKind(pool: seq<ReceiptId>, refund: bool) returns (kept: seq<ReceiptId>)
      requires forall k | 0 <= k < |pool| :: pool[k] in rows
      requires IsAscending(pool)
      ensures forall c :: Listed(kept, c) <==> Listed(pool, c) && c in rows && rows[c].refund == refund
      ensures IsAscending(kept)
    {
      kept := [];
      for i := 0 to |pool|
        invariant forall c :: Listed(kept, c) <==> Listed(pool[..i], c) && c in rows && rows[c].refund == refund
        invariant IsAscending(kept)
      {
        ListedSnoc(pool[..i], pool[i]);
        assert pool[..i + 1] == pool[..i] + [pool[i]];
        if rows[pool[i]].refund == refund {
          StaysAscending(kept, pool, i);
          ListedSnoc(kept, pool[i]);
          kept := kept + [pool[i]];
        }
      }
      assert pool[..|pool|] == pool;
    }
  }

  ghost predicate IsAscending(order: seq<ReceiptId>) {
    forall i, j | 0 <= i < j < |order| :: order[i].n < order[j].n
  }

  lemma ListedSnoc(order: seq<ReceiptId>, x: ReceiptId)
    ensures forall c :: Listed(order + [x], c) <==> Listed(order, c) || c == x
  {
    var longer := order + [x];
    forall c ensures Listed(longer, c) <==> Listed(order, c) || c == x {
      if Listed(order, c) {
        var i :| 0 <= i < |order| && order[i] == c;
        assert longer[i] == c;
      }
      assert longer[|order|] == x;
    }
  }

  lemma StaysAscending(kept: seq<ReceiptId>, order: seq<ReceiptId>, i: nat)
    requires IsAscending(kept) && IsAscending(order) && i < |order|
    requires forall c | Listed(kept, c) :: Listed(order[..i], c)
    ensures IsAscending(kept + [order[i]])
  {
    forall k | 0 <= k < |kept| ensures kept[k].n < order[i].n {
      assert Listed(kept, kept[k]);
      var j :| 0 <= j < i && order[..i][j] == kept[k];
      assert order[j] == kept[k];
    }
  }

  lemma FirstIsTarget(rows: Table, r: ReceiptId, s: Signature, refund: bool, pool: seq<ReceiptId>, kept: seq<ReceiptId>)
    requires forall c :: Listed(pool, c) <==> Candidate(rows, r, s, c)
    requires forall c :: Listed(kept, c) <==> Listed(pool, c) && c in rows && rows[c].refund == refund
    requires IsAscending(kept)
    ensures kept != [] ==> IsTarget(rows, r, s, refund, kept[0])
    ensures kept == [] ==> !exists c :: IsTarget(rows, r, s, refund, c)
  {
    if kept == [] {
      forall c ensures !IsTarget(rows, r, s, refund, c) {
        assert !Listed(kept, c);
      }
    } else {
      assert Listed(kept, kept[0]);
      forall d | Candidate(rows, r, s, d) && rows[d].refund == refund ensures kept[0].n <= d.n {
        assert Listed(kept, d);
      }
    }
  }

  lemma NoCandidates(rows: Table, r: ReceiptId, p: Parts, refund: bool, pool: seq<ReceiptId>)
    requires forall c :: Listed(pool, c) <==> Matches(rows, r, p, c)
    ensures pool == [] && SignatureOf(p).Some? ==> !exists c :: IsTarget(rows, r, SignatureOf(p).value, refund, c)
  {
    if pool == [] && SignatureOf(p).Some? {
      forall c ensures !IsTarget(rows, r, SignatureOf(p).value, refund, c) {
        assert !Listed(pool, c);
      }
    }
  }

  lemma CandidatesAreRows(rows: Table, r: ReceiptId, s: Signature, c: ReceiptId)
    requires Candidate(rows, r, s, c)
    ensures c in rows
  {
  }

  lemma MatchesAreCandidates(rows: Table, r: ReceiptId, p: Parts)
    requires SignatureOf(p).Some?
    ensures forall c :: Matches(rows, r, p, c) <==> Candidate(rows, r, SignatureOf(p).value, c)
  {
  }

  lemma PoolIsMatches(rows: Table, r: ReceiptId, p: Parts, pool: seq<ReceiptId>)
    requires r in rows && !(SignatureOf(p).Some? && rows[r].overridden == SignatureOf(p))
    requires IsAscending(pool) && forall c :: Listed(pool, c) <==> Matches(rows, r, p, c)
    ensures |MatchesOf(rows, r, p)| == |pool|
    ensures MatchesOf(rows, r, p) == {} <==> pool == []
  {
    forall c ensures c in MatchesOf(rows, r, p) <==> Listed(pool, c) {
      assert Listed(pool, c) <==> Matches(rows, r, p, c);
    }
    ListedSize(pool, MatchesOf(rows, r, p));
  }

  lemma {:induction false} ListedSize(order: seq<ReceiptId>, s: set<ReceiptId>)
    requires IsAscending(order) && forall c :: Listed(order, c) <==> c in s
    ensures |s| == |order|
  {
    if order == [] {
      assert forall c :: c in s ==> Listed(order, c);
      assert s == {};
    } else {
      var init, last := order[..|order| - 1], order[|order| - 1];
      assert order == init + [last];
      ListedSnoc(init, last);
      assert !Listed(init, last);
      ListedSize(init, s - {last});
    }
  }

  lemma AllListed(rows: Table, order: seq<ReceiptId>, r: ReceiptId, p: Parts)
    requires forall c | c in rows :: Listed(order, c)
    ensures forall c | Matches(rows, r, p, c) :: Listed(order, c)
  {
  }

  ghost predicate Listed(order: seq<ReceiptId>, r: ReceiptId) {
    exists i :: 0 <= i < |order| && order[i] == r
  }
}
