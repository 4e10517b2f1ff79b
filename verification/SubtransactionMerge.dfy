/**
 Updating the splits of an existing YNAB transaction: _build_update_transaction_payload and
 the structure check of services/ynab.py, against a remote that applies split rows by id.
 */
module SubtransactionMerge {
  import opened Prelude
  import opened MoneyPath
  import opened PullPush

  /** One row of the update: new values under an id or none, or the deletion of an id. */
  datatype Row = Put(id: Option<string>, sub: Sub) | Delete(id: Option<string>)

  // ---------- the merge ----------

  function IdAt(existing: seq<YnabSub>, i: nat): Option<string> {
    if i < |existing| then existing[i].id else None
  }

  /** Row i carries desired split i under the id of existing split i. */
  function Puts(existing: seq<YnabSub>, desired: seq<Sub>): (rows: seq<Row>)
    ensures |rows| == |desired|
  {
    seq(|desired|, i requires 0 <= i < |desired| => Put(IdAt(existing, i), desired[i]))
  }

  /** Deletions for the surplus existing splits that can be named. */
  function Deletes(surplus: seq<YnabSub>): seq<Row> {
    if surplus == [] then []
    else
      var last := surplus[|surplus| - 1];
      Deletes(surplus[..|surplus| - 1]) + if last.id.Some? then [Delete(last.id)] else []
  }

  function Merged(existing: seq<YnabSub>, desired: seq<Sub>): seq<Row> {
    Puts(existing, desired) + if |desired| < |existing| then Deletes(existing[|desired|..]) else []
  }

  /** The two loops that grow merged_subtransactions; existing holds the active splits. */
  method MergeSubtransactions(existing: seq<YnabSub>, desired: seq<Sub>) returns (rows: seq<Row>)
    ensures rows == Merged(existing, desired)
  {
    rows := [];
    for i := 0 to |desired|
      invariant rows == Puts(existing, desired)[..i]
    {
      var id := None;
      if i < |existing| && existing[i].id.Some? {
        id := existing[i].id;
      }
      rows := rows + [Put(id, desired[i])];
    }
    if |desired| < |existing| {
      var surplus := existing[|desired|..];
      for i := 0 to |surplus|
        invariant rows == Puts(existing, desired) + Deletes(surplus[..i])
      {
        assert surplus[..i + 1][..i] == surplus[..i];
        if surplus[i].id.Some? {
          rows := rows + [Delete(surplus[i].id)];
        }
      }
      assert surplus[..|surplus|] == surplus;
    }
  }

  /** The rows of a split payload; an empty list clears the splits for a single category; None leaves them out. */
  function RowsSent(existing: seq<YnabSub>, want: Txn): Option<seq<Row>> {
    if want.subs != [] then Some(Merged(existing, want.subs))
    else if existing != [] then Some([])
    else None
  }

  /** _build_update_transaction_payload: the split rows it sends. */
  method BuildUpdate(t: YnabTxn, want: Txn) returns (rows: Option<seq<Row>>)
    ensures rows == RowsSent(Active(t.subs), want)
  {
    var existing := Active(t.subs);
    if want.subs == [] {
      if existing != [] {
        return Some([]);
      }
      return None;
    }
    var merged := MergeSubtransactions(existing, want.subs);
    rows := Some(merged);
  }

  // ---------- what YNAB makes of the rows ----------

  /** The row that names an id, the first if there are several. */
  function RowFor(rows: seq<Row>, id: Option<string>): (r: Option<Row>)
    ensures r.Some? ==> r.value in rows && r.value.id == id
  {
    if id.None? || rows == [] then None
    else if rows[0].id == id then Some(rows[0])
    else RowFor(rows[1..], id)
  }

  function Apply(s: YnabSub, row: Option<Row>): YnabSub {
    match row
    case None => s
    case Some(Put(_, sub)) => YnabSub(s.id, sub.amount, sub.category, sub.memo, false)
    case Some(Delete(_)) => s.(deleted := true)
  }

  /** Splits named by a row take its values; the others stay. */
  function Patched(subs: seq<YnabSub>, rows: seq<Row>): (r: seq<YnabSub>)
    ensures |r| == |subs|
  {
    seq(|subs|, i requires 0 <= i < |subs| => Apply(subs[i], RowFor(rows, subs[i].id)))
  }

  /** Rows without an id become new splits. */
  function Added(rows: seq<Row>): seq<YnabSub> {
    if rows == [] then []
    else
      var last := rows[|rows| - 1];
      Added(rows[..|rows| - 1])
      + if last.Put? && last.id.None?
        then [YnabSub(None, last.sub.amount, last.sub.category, last.sub.memo, false)] else []
  }

  function Updated(subs: seq<YnabSub>, rows: seq<Row>): seq<YnabSub> {
    Patched(subs, rows) + Added(rows)
  }

  /** A category that is sent replaces the old one, an empty list of rows deletes every split. */
  function AfterUpdate(t: YnabTxn, want: Txn): YnabTxn {
    var rows := RowsSent(Active(t.subs), want);
    YnabTxn(
      want.amount,
      if want.category.Some? then want.category.value else t.category,
      if rows.None? then t.subs
      else if rows.value == [] then Cleared(t.subs)
      else Updated(t.subs, rows.value))
  }

  function Cleared(subs: seq<YnabSub>): (r: seq<YnabSub>)
    ensures |r| == |subs|
    ensures forall i | 0 <= i < |subs| :: r[i] == subs[i].(deleted := true)
  {
    seq(|subs|, i requires 0 <= i < |subs| => subs[i].(deleted := true))
  }

  /** _normalized_subtransaction_signature: the active splits with their memos. */
  function Signature(subs: seq<YnabSub>): multiset<Sub> {
    if subs == [] then multiset{} else Signature(subs[..|subs| - 1]) + Entry(subs[|subs| - 1])
  }

  function Entry(s: YnabSub): multiset<Sub> {
    if s.deleted then multiset{} else multiset{Sub(s.amount, s.category, s.memo)}
  }

  /** _transaction_structure_matches_payload. */
  predicate StructureMatches(t: YnabTxn, want: Txn) {
    if want.subs != [] then Signature(t.subs) == multiset(want.subs)
    else Active(t.subs) == [] && t.category == (if want.category.Some? then want.category.value else "")
  }

  // ---------- the theorem ----------

  /** Ids that are there are different. */
  ghost predicate DistinctIds(subs: seq<YnabSub>) {
    forall i, j | 0 <= i < j < |subs| && subs[i].id.Some? :: subs[i].id != subs[j].id
  }

  /** The active splits no row can name. */
  function Nameless(subs: seq<YnabSub>): seq<YnabSub> {
    if subs == [] then []
    else
      var last := subs[|subs| - 1];
      Nameless(subs[..|subs| - 1]) + if last.id.None? && !last.deleted then [last] else []
  }

  lemma {:induction false} DeletesOnly(surplus: seq<YnabSub>)
    ensures forall r | r in Deletes(surplus) :: r.Delete? && r.id.Some?
    ensures forall r | r in Deletes(surplus) :: exists i :: 0 <= i < |surplus| && surplus[i].id == r.id
    ensures forall i | 0 <= i < |surplus| && surplus[i].id.Some? :: Delete(surplus[i].id) in Deletes(surplus)
  {
    if surplus != [] {
      var n := |surplus| - 1;
      DeletesOnly(surplus[..n]);
      forall r | r in Deletes(surplus) ensures exists i :: 0 <= i < |surplus| && surplus[i].id == r.id {
        if r in Deletes(surplus[..n]) {
          var i :| 0 <= i < n && surplus[..n][i].id == r.id;
          assert surplus[i].id == r.id;
        } else {
          assert surplus[n].id == r.id;
        }
      }
    }
  }

  lemma {:induction false} RowForIsOnly(rows: seq<Row>, r: Row)
    requires r in rows && r.id.Some?
    requires forall q | q in rows && q.id == r.id :: q == r
    ensures RowFor(rows, r.id) == Some(r)
  {
    if rows[0].id == r.id {
      assert rows[0] in rows;
    } else {
      assert rows == [rows[0]] + rows[1..];
      RowForIsOnly(rows[1..], r);
    }
  }

  /** The one row of an existing split: its put, or its deletion. */
  lemma RowOfExisting(existing: seq<YnabSub>, desired: seq<Sub>, i: nat)
    requires DistinctIds(existing) && i < |existing| && existing[i].id.Some?
    ensures RowFor(Merged(existing, desired), existing[i].id)
            == Some(if i < |desired| then Put(existing[i].id, desired[i]) else Delete(existing[i].id))
  {
    var rows := Merged(existing, desired);
    var puts := Puts(existing, desired);
    var r := if i < |desired| then Put(existing[i].id, desired[i]) else Delete(existing[i].id);
    if |desired| < |existing| {
      DeletesOnly(existing[|desired|..]);
    }
    if i < |desired| {
      assert puts[i] == r && rows[i] == r;
    } else {
      assert existing[|desired|..][i - |desired|] == existing[i];
      assert r in Deletes(existing[|desired|..]);
    }
    forall q | q in rows && q.id == r.id ensures q == r {
      if q in puts {
        var k :| 0 <= k < |desired| && puts[k] == q;
        assert k < |existing| && k == i;
      } else {
        var k :| 0 <= k < |existing| - |desired| && existing[|desired|..][k].id == q.id;
        assert existing[|desired| + k].id == q.id && |desired| + k == i;
      }
    }
    RowForIsOnly(rows, r);
  }

  /** A split that is not existing is named by no row. */
  lemma NoRowForOthers(existing: seq<YnabSub>, desired: seq<Sub>, id: Option<string>)
    requires id.Some? ==> forall i | 0 <= i < |existing| :: existing[i].id != id
    ensures RowFor(Merged(existing, desired), id) == None
  {
    if |desired| < |existing| {
      DeletesOnly(existing[|desired|..]);
    }
    forall q | q in Merged(existing, desired) && id.Some? ensures q.id != id {
      if q in Puts(existing, desired) {
        var k :| 0 <= k < |desired| && Puts(existing, desired)[k] == q;
        assert q.id == IdAt(existing, k);
      } else {
        var k :| 0 <= k < |existing| - |desired| && existing[|desired|..][k].id == q.id;
        assert existing[|desired| + k].id == q.id;
      }
    }
  }

  lemma SignatureSnoc(a: seq<YnabSub>, s: YnabSub)
    ensures Signature(a + [s]) == Signature(a) + Entry(s)
  {
    assert (a + [s])[..|a|] == a;
  }

  lemma SumsAssociate(x: multiset<Sub>, y: multiset<Sub>, z: multiset<Sub>)
    ensures (x + y) + z == x + (y + z)
  {
  }

  lemma {:induction false} SignatureConcat(a: seq<YnabSub>, b: seq<YnabSub>)
    ensures Signature(a + b) == Signature(a) + Signature(b)
    decreases |b|, 1
  {
    if b == [] {
      assert a + b == a;
    } else {
      ConcatStep(a, b[..|b| - 1], b[|b| - 1], b);
    }
  }

  lemma {:induction false} ConcatStep(a: seq<YnabSub>, init: seq<YnabSub>, last: YnabSub, b: seq<YnabSub>)
    requires b == init + [last]
    ensures Signature(a + b) == Signature(a) + Signature(b)
    decreases |b|, 0
  {
    hide Signature, Entry;
    SignatureConcat(a, init);
    assert a + b == (a + init) + [last];
    SignatureSnoc(init, last);
    SignatureSnoc(a + init, last);
    SumsAssociate(Signature(a), Signature(init), Entry(last));
  }

  lemma PatchedSnoc(a: seq<YnabSub>, s: YnabSub, rows: seq<Row>)
    ensures Signature(Patched(a + [s], rows)) == Signature(Patched(a, rows)) + Entry(Apply(s, RowFor(rows, s.id)))
  {
    hide Signature, RowFor, Entry, Apply;
    assert Patched(a + [s], rows) == Patched(a, rows) + [Apply(s, RowFor(rows, s.id))];
    SignatureSnoc(Patched(a, rows), Apply(s, RowFor(rows, s.id)));
  }

  lemma AddedSnoc(rows: seq<Row>, r: Row)
    ensures Signature(Added(rows + [r])) == Signature(Added(rows))
            + if r.Put? && r.id.None? then multiset{r.sub} else multiset{}
  {
    hide Signature;
    assert (rows + [r])[..|rows|] == rows;
    if r.Put? && r.id.None? {
      SignatureSnoc(Added(rows), YnabSub(None, r.sub.amount, r.sub.category, r.sub.memo, false));
    } else {
      assert Added(rows + [r]) == Added(rows);
    }
  }

  lemma NamelessSnoc(a: seq<YnabSub>, s: YnabSub)
    ensures Signature(Nameless(a + [s])) == Signature(Nameless(a)) + if s.id.None? then Entry(s) else multiset{}
  {
    hide Signature;
    assert (a + [s])[..|a|] == a;
    if s.id.None? && !s.deleted {
      SignatureSnoc(Nameless(a), s);
    } else {
      assert Nameless(a + [s]) == Nameless(a);
    }
  }

  /** Deleted splits stay out of the picture. */
  lemma {:induction false} OnlyActiveMatter(subs: seq<YnabSub>, rows: seq<Row>)
    requires forall s | s in subs && s.deleted :: RowFor(rows, s.id) == None
    ensures Signature(Patched(subs, rows)) == Signature(Patched(Active(subs), rows))
  {
    hide Signature, Patched, RowFor;
    if subs != [] {
      var n := |subs| - 1;
      var init, last := subs[..n], subs[n];
      assert subs == init + [last];
      OnlyActiveMatter(init, rows);
      PatchedSnoc(init, last, rows);
      if last.deleted {
        assert last in subs && Entry(Apply(last, RowFor(rows, last.id))) == multiset{};
        assert Active(subs) == Active(init);
      } else {
        PatchedSnoc(Active(init), last, rows);
      }
    }
  }

  /**
   After the first k existing splits: their new values and the puts added so far are the desired ones,
   plus the nameless.
   */
  ghost predicate BalancedUpTo(existing: seq<YnabSub>, desired: seq<Sub>, k: nat) {
    var a := existing[..Min(k, |existing|)];
    var d := Min(k, |desired|);
    Signature(Patched(a, Merged(existing, desired))) + Signature(Added(Puts(existing, desired)[..d]))
      == multiset(desired[..d]) + Signature(Nameless(a))
  }

  lemma {:induction false} MergedUpTo(existing: seq<YnabSub>, desired: seq<Sub>, k: nat)
    requires DistinctIds(existing) && (forall s | s in existing :: !s.deleted)
    ensures BalancedUpTo(existing, desired, k)
  {
    if k == 0 {
      assert existing[..0] == [] && Puts(existing, desired)[..0] == [] && desired[..0] == [];
      assert Patched([], Merged(existing, desired)) == [];
    } else {
      MergedUpTo(existing, desired, k - 1);
      MergeStep(existing, desired, k - 1);
    }
  }

  /** What existing split k contributes after the update. */
  function Contribution(existing: seq<YnabSub>, desired: seq<Sub>, k: nat): multiset<Sub> {
    if k >= |existing| then multiset{}
    else if existing[k].id.None? then Entry(existing[k])
    else if k < |desired| then multiset{desired[k]}
    else multiset{}
  }

  lemma ExistingStep(existing: seq<YnabSub>, desired: seq<Sub>, k: nat)
    requires DistinctIds(existing) && (forall s | s in existing :: !s.deleted)
    ensures var rows := Merged(existing, desired);
            var a, b := existing[..Min(k, |existing|)], existing[..Min(k + 1, |existing|)];
            && Signature(Patched(b, rows)) == Signature(Patched(a, rows)) + Contribution(existing, desired, k)
            && Signature(Nameless(b)) == Signature(Nameless(a))
               + if k < |existing| && existing[k].id.None? then Entry(existing[k]) else multiset{}
  {
    hide Signature, Patched, Nameless, Merged, DistinctIds;
    if k < |existing| {
      var rows := Merged(existing, desired);
      assert existing[..k + 1] == existing[..k] + [existing[k]];
      PatchedSnoc(existing[..k], existing[k], rows);
      NamelessSnoc(existing[..k], existing[k]);
      if existing[k].id.Some? {
        RowOfExisting(existing, desired, k);
      }
    }
  }

  lemma DesiredStep(existing: seq<YnabSub>, desired: seq<Sub>, k: nat)
    requires k < |desired|
    ensures var puts := Puts(existing, desired);
            && Signature(Added(puts[..k + 1])) == Signature(Added(puts[..k]))
               + (if IdAt(existing, k).None? then multiset{desired[k]} else multiset{})
            && multiset(desired[..k + 1]) == multiset(desired[..k]) + multiset{desired[k]}
  {
    hide Signature, Added;
    var puts := Puts(existing, desired);
    assert puts[..k + 1] == puts[..k] + [puts[k]];
    AddedSnoc(puts[..k], puts[k]);
    assert desired[..k + 1] == desired[..k] + [desired[k]];
  }

  lemma MergeStep(existing: seq<YnabSub>, desired: seq<Sub>, k: nat)
    requires DistinctIds(existing) && (forall s | s in existing :: !s.deleted)
    requires BalancedUpTo(existing, desired, k)
    ensures BalancedUpTo(existing, desired, k + 1)
  {
    hide Signature, Patched, Nameless, Merged, DistinctIds, Puts, Added;
    ExistingStep(existing, desired, k);
    var rows, puts := Merged(existing, desired), Puts(existing, desired);
    var a, b := existing[..Min(k, |existing|)], existing[..Min(k + 1, |existing|)];
    var d, e := Min(k, |desired|), Min(k + 1, |desired|);
    var added, wanted := multiset{}, multiset{};
    if k < |desired| {
      DesiredStep(existing, desired, k);
      wanted := multiset{desired[k]};
      added := if IdAt(existing, k).None? then wanted else multiset{};
    }
    var kept := if k < |existing| && existing[k].id.None? then Entry(existing[k]) else multiset{};
    if k < |existing| {
      assert existing[k] in existing;
    }
    SumsAgree(Signature(Patched(a, rows)), Signature(Added(puts[..d])), multiset(desired[..d]), Signature(Nameless(a)),
              Contribution(existing, desired, k), added, wanted, kept);
    assert Signature(Added(puts[..e])) == Signature(Added(puts[..d])) + added;
    assert multiset(desired[..e]) == multiset(desired[..d]) + wanted;
  }

  lemma SumsAgree(x: multiset<Sub>, y: multiset<Sub>, d: multiset<Sub>, n: multiset<Sub>,
                  dx: multiset<Sub>, dy: multiset<Sub>, dd: multiset<Sub>, dn: multiset<Sub>)
    requires x + y == d + n && dx + dy == dd + dn
    ensures (x + dx) + (y + dy) == (d + dd) + (n + dn)
  {
    assert (x + dx) + (y + dy) == (x + y) + (dx + dy);
    assert (d + dd) + (n + dn) == (d + n) + (dd + dn);
  }

  lemma {:induction false} NothingAddedByDeletes(puts: seq<Row>, deletes: seq<Row>)
    requires forall r | r in deletes :: r.Delete?
    ensures Added(puts + deletes) == Added(puts)
  {
    if deletes == [] {
      assert puts + deletes == puts;
    } else {
      var n := |deletes| - 1;
      NothingAddedByDeletes(puts, deletes[..n]);
      assert (puts + deletes)[..|puts| + n] == puts + deletes[..n];
      assert deletes[n] in deletes;
    }
  }

  /**
   What an update leaves active, for any lengths of the two lists: the desired splits, and
   beside them the active splits that carried no id.
   */
  lemma UpdateLeavesDesiredAndNameless(subs: seq<YnabSub>, desired: seq<Sub>)
    requires DistinctIds(subs)
    ensures Signature(Updated(subs, Merged(Active(subs), desired)))
            == multiset(desired) + Signature(Nameless(Active(subs)))
  {
    hide Signature, Patched, Nameless, Added, Deletes, RowFor, DistinctIds, Puts;
    var existing := Active(subs);
    var rows := Merged(existing, desired);
    ActiveDistinct(subs);
    forall s | s in subs && s.deleted ensures RowFor(rows, s.id) == None {
      DeletedNotActive(subs, s);
      NoRowForOthers(existing, desired, s.id);
    }
    OnlyActiveMatter(subs, rows);
    MergedUpTo(existing, desired, Max(|existing|, |desired|));
    var puts := Puts(existing, desired);
    assert existing[..|existing|] == existing && desired[..|desired|] == desired && puts[..|desired|] == puts;
    if |desired| < |existing| {
      DeletesOnly(existing[|desired|..]);
      NothingAddedByDeletes(puts, Deletes(existing[|desired|..]));
    } else {
      assert rows == puts;
    }
    SignatureConcat(Patched(subs, rows), Added(rows));
  }

  lemma {:induction false} ActiveDistinct(subs: seq<YnabSub>)
    requires DistinctIds(subs)
    ensures DistinctIds(Active(subs))
  {
    if subs != [] {
      var n := |subs| - 1;
      ActiveDistinct(subs[..n]);
      var a := Active(subs[..n]);
      forall i | 0 <= i < |a| && a[i].id.Some? ensures a[i].id != subs[n].id {
        assert a[i] in subs[..n];
      }
    }
  }

  lemma DeletedNotActive(subs: seq<YnabSub>, s: YnabSub)
    requires DistinctIds(subs) && s in subs && s.deleted
    ensures s.id.Some? ==> forall i | 0 <= i < |Active(subs)| :: Active(subs)[i].id != s.id
  {
    var a := Active(subs);
    forall i | 0 <= i < |a| && s.id.Some? ensures a[i].id != s.id {
      assert a[i] in subs;
      var j :| 0 <= j < |subs| && subs[j] == a[i];
      var k :| 0 <= k < |subs| && subs[k] == s;
    }
  }

  lemma {:induction false} SignatureSize(subs: seq<YnabSub>)
    requires forall s | s in subs :: !s.deleted
    ensures |Signature(subs)| == |subs|
  {
    if subs != [] {
      assert subs[|subs| - 1] in subs;
      assert forall s | s in subs[..|subs| - 1] :: s in subs;
      SignatureSize(subs[..|subs| - 1]);
    }
  }

  lemma {:induction false} NamelessAll(subs: seq<YnabSub>)
    ensures forall s :: s in Nameless(subs) <==> s in subs && s.id.None? && !s.deleted
  {
    if subs != [] {
      var n := |subs| - 1;
      assert subs == subs[..n] + [subs[n]];
      NamelessAll(subs[..n]);
    }
  }

  lemma SplitsMatchExactly(subs: seq<YnabSub>, desired: seq<Sub>)
    requires DistinctIds(subs)
    ensures Signature(Updated(subs, Merged(Active(subs), desired))) == multiset(desired)
            <==> forall s | s in Active(subs) :: s.id.Some?
  {
    UpdateLeavesDesiredAndNameless(subs, desired);
    var nameless := Nameless(Active(subs));
    NamelessAll(Active(subs));
    SignatureSize(nameless);
    if nameless == [] {
      assert multiset(desired) + multiset{} == multiset(desired);
    } else {
      assert nameless[0] in nameless;
      assert |multiset(desired) + Signature(nameless)| == |desired| + |nameless|;
    }
  }

  /**
   The structure check after the update of a built payload: going to a single category always
   succeeds, going to splits exactly when every active split carried an id.
   */
  lemma MergeMatchesExactly(t: YnabTxn, p: Payload, refs: References)
    requires DistinctIds(t.subs) && Buildable(p, refs)
    ensures var want := Built(p, refs);
            StructureMatches(AfterUpdate(t, want), want)
            <==> p.splits == [] || forall s | s in Active(t.subs) :: s.id.Some?
  {
    hide Signature, Updated;
    var want := Built(p, refs);
    var after := AfterUpdate(t, want);
    if p.splits != [] {
      SplitsMatchExactly(t.subs, want.subs);
      assert Puts(Active(t.subs), want.subs) != [];
    } else if Active(after.subs) != [] {
      assert Active(after.subs)[0] in Active(after.subs);
    }
  }

  /** A nameless split survives next to its replacement. */
  lemma NamelessSplitSurvives(amount: int, category: string, p: Payload, refs: References)
    requires Buildable(p, refs) && p.splits != []
    ensures var t := YnabTxn(amount, "", [YnabSub(None, amount, category, "", false)]);
            !StructureMatches(AfterUpdate(t, Built(p, refs)), Built(p, refs))
  {
    var s := YnabSub(None, amount, category, "", false);
    assert s in [s] && s in Active([s]);
    MergeMatchesExactly(YnabTxn(amount, "", [s]), p, refs);
  }

  /** The structure check of a single-category payload: no active split is left, and the category is the payload's. */
  lemma SingleStructureMeans(t: YnabTxn, p: Payload, refs: References)
    requires Buildable(p, refs) && p.splits == []
    ensures StructureMatches(t, Built(p, refs))
            <==> (forall s | s in t.subs :: s.deleted) && Some(t.category) == p.category
  {
    if Active(t.subs) != [] {
      assert Active(t.subs)[0] in Active(t.subs);
    }
  }

  /** An update sets the amount; the category changes only with a payload that has one. */
  lemma UpdateSetsTheAmount(t: YnabTxn, p: Payload, refs: References)
    requires Buildable(p, refs)
    ensures var after := AfterUpdate(t, Built(p, refs));
            && after.amount == (if p.refund then p.total else -p.total)
            && after.category == if p.splits == [] then p.category.value else t.category
  {
  }
}
