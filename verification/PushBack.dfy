/**
 A pull, the push of what was built from it, and the next reconciliation's look at YNAB: the
 corrected payload of services/reconciliation.py through the split update of services/ynab.py.
 */
module PushBack {
  import opened Prelude
  import opened Apportionment
  import opened MoneyPath
  import opened PullPush
  import opened SubtransactionMerge

  /** Adopted whole: one sign, balanced, with allowed references and different ids. */
  ghost predicate Adoptable(prior: Payload, t: YnabTxn, refs: References) {
    && !Mixed(Active(t.subs)) && ReferencesAllow(prior, t, refs) && Balanced(t)
    && DistinctIds(t.subs)
  }

  ghost predicate AllNamed(t: YnabTxn) {
    forall s | s in Active(t.subs) :: s.id.Some?
  }

  /** What YNAB holds after the pull was pushed back. */
  function Pushed(prior: Payload, t: YnabTxn, refs: References): YnabTxn
    requires Buildable(Corrected(prior, t), refs)
  {
    AfterUpdate(t, Built(Corrected(prior, t), refs))
  }

  // ---------- nothing changes where every active split has an id ----------

  lemma {:induction false} NothingAdded(rows: seq<Row>)
    requires forall r | r in rows :: r.id.Some?
    ensures Added(rows) == []
  {
    if rows != [] {
      assert rows[|rows| - 1] in rows;
      NothingAdded(rows[..|rows| - 1]);
    }
  }

  /** The rows name every active split with the values it has. */
  lemma RowsRepeat(subs: seq<YnabSub>, desired: seq<Sub>)
    requires DistinctIds(subs) && |desired| == |Active(subs)|
    requires forall i | 0 <= i < |desired| ::
               var s := Active(subs)[i]; s.id.Some? && desired[i] == Sub(s.amount, s.category, s.memo)
    ensures Updated(subs, Merged(Active(subs), desired)) == subs
  {
    hide Merged, Added, Active;
    var existing := Active(subs);
    var rows := Merged(existing, desired);
    ActiveDistinct(subs);
    forall j | 0 <= j < |subs| ensures Patched(subs, rows)[j] == subs[j] {
      if subs[j].deleted {
        DeletedNotActive(subs, subs[j]);
        NoRowForOthers(existing, desired, subs[j].id);
      } else {
        assert subs[j] in existing;
        var i :| 0 <= i < |existing| && existing[i] == subs[j];
        RowOfExisting(existing, desired, i);
      }
    }
    assert rows == Puts(existing, desired) by {
      MergedIsPuts(existing, desired);
    }
    NothingAdded(rows);
    assert Patched(subs, rows) == subs;
  }

  lemma MergedIsPuts(existing: seq<YnabSub>, desired: seq<Sub>)
    requires |existing| == |desired|
    ensures Merged(existing, desired) == Puts(existing, desired)
  {
  }

  /** Pushing back what was pulled changes nothing in YNAB when every active split has an id. */
  lemma PushedBackIsUnchanged(prior: Payload, t: YnabTxn, refs: References)
    requires Adoptable(prior, t, refs) && AllNamed(t)
    ensures Buildable(Corrected(prior, t), refs) && Pushed(prior, t, refs) == t
  {
    hide Merged, Updated, DistinctIds;
    PulledAmounts(prior, t, refs);
    var want := Built(Corrected(prior, t), refs);
    var active := Active(t.subs);
    if active != [] {
      forall i | 0 <= i < |want.subs|
        ensures active[i].id.Some? && want.subs[i] == Sub(active[i].amount, active[i].category, active[i].memo)
      {
        assert active[i] in active;
      }
      RowsRepeat(t.subs, want.subs);
      MergedIsPuts(active, want.subs);
    }
  }

  // ---------- nameless splits stay beside their replacements ----------

  lemma {:induction false} SignatureCounts(subs: seq<YnabSub>)
    ensures |SubtransactionMerge.Signature(subs)| == |Active(subs)|
  {
    if subs != [] {
      SignatureCounts(subs[..|subs| - 1]);
    }
  }

  /** The active splits grow by those that carried no id. */
  lemma PushGrowsByNameless(prior: Payload, t: YnabTxn, refs: References)
    requires Adoptable(prior, t, refs)
    ensures Buildable(Corrected(prior, t), refs)
    ensures |Active(Pushed(prior, t, refs).subs)| == |Active(t.subs)| + |Nameless(Active(t.subs))|
  {
    hide Merged, Updated, DistinctIds, SubtransactionMerge.Signature;
    PulledAmounts(prior, t, refs);
    var want := Built(Corrected(prior, t), refs);
    var active := Active(t.subs);
    if active != [] {
      MergedIsPuts(active, want.subs);
      UpdateLeavesDesiredAndNameless(t.subs, want.subs);
      SignatureCounts(Pushed(prior, t, refs).subs);
      NamelessAll(active);
      SignatureSize(Nameless(active));
    }
  }

  // ---------- the next reconciliation ----------

  /**
   After pull and push the next reconciliation sees no drift exactly when every active split
   carried an id and no lone split sits under a foreign top-level category.
   */
  lemma PullPushSettles(prior: Payload, t: YnabTxn, refs: References)
    requires Adoptable(prior, t, refs)
    ensures Buildable(Corrected(prior, t), refs)
    ensures !Drifted(Built(Corrected(prior, t), refs), Pushed(prior, t, refs))
            <==> AllNamed(t) && !LoneSplitUnderOtherCategory(t)
  {
    hide DistinctIds, AfterUpdate;
    PulledSignature(prior, t, refs);
    if AllNamed(t) {
      PushedBackIsUnchanged(prior, t, refs);
    } else {
      PulledAmounts(prior, t, refs);
      PushGrowsByNameless(prior, t, refs);
      var s :| s in Active(t.subs) && s.id.None?;
      NamelessAll(Active(t.subs));
      assert s in Nameless(Active(t.subs));
      MoreSplitsDrift(Built(Corrected(prior, t), refs), Pushed(prior, t, refs));
    }
  }

  /** Another number of splits, and more than one, is drift. */
  lemma MoreSplitsDrift(pushed: Txn, t: YnabTxn)
    requires 1 < |Active(t.subs)| && |pushed.subs| < |Active(t.subs)|
    ensures Drifted(pushed, t)
  {
    var active := Active(t.subs);
    var held := seq(|active|, i requires 0 <= i < |active| => (active[i].amount, active[i].category));
    assert |multiset(held)| == |active|;
    assert YnabSignature(t).splits == multiset(held);
    assert |PushedSignature(pushed).splits| <= |pushed.subs|;
  }

  /** A lone split of "food" under a top-level "split" is pushed back unchanged, and drifts again every time. */
  lemma LoneSplitKeepsDrifting(prior: Payload, refs: References)
    requires AccountOk(prior, refs) && "food" in refs.categories
    ensures var t := YnabTxn(-5000, "split", [YnabSub(Some("s"), -5000, "food", "", false)]);
            && Adoptable(prior, t, refs) && Buildable(Corrected(prior, t), refs)
            && Pushed(prior, t, refs) == t
            && Drifted(Built(Corrected(prior, t), refs), t)
  {
    var s := YnabSub(Some("s"), -5000, "food", "", false);
    var t := YnabTxn(-5000, "split", [s]);
    LoneActive(s);
    PushedBackIsUnchanged(prior, t, refs);
    PullPushSettles(prior, t, refs);
  }

  /**
   A lone split without an id: nothing differs before the push, but afterwards there are two of
   it. They drift, and what the next pull adopts cannot be built.
   */
  lemma NamelessSplitDrifts(prior: Payload, refs: References)
    requires AccountOk(prior, refs) && "food" in refs.categories
    ensures var t := YnabTxn(-5000, "", [YnabSub(None, -5000, "food", "", false)]);
            && Adoptable(prior, t, refs) && Buildable(Corrected(prior, t), refs)
            && !Drifted(Built(Corrected(prior, t), refs), t)
            && var after := Pushed(prior, t, refs);
               && after.subs == t.subs + t.subs
               && Drifted(Built(Corrected(prior, t), refs), after)
               && !Buildable(Corrected(prior, after), refs)
  {
    hide Adoptable, Drifted, Pushed, Buildable, Corrected;
    var s := YnabSub(None, -5000, "food", "", false);
    var t := YnabTxn(-5000, "", [s]);
    LoneIsAdoptable(prior, t, refs, s);
    PulledSignature(prior, t, refs);
    PullPushSettles(prior, t, refs);
    PushedTwice(prior, t, refs, s);
    TwiceIsNotBuilt(prior, Pushed(prior, t, refs), refs, s);
  }

  lemma LoneIsAdoptable(prior: Payload, t: YnabTxn, refs: References, s: YnabSub)
    requires t.subs == [s] && !s.deleted && s.amount == t.amount
    requires s.category in refs.categories && AccountOk(prior, refs)
    ensures Adoptable(prior, t, refs) && !Mixed(Active(t.subs)) && ReferencesAllow(prior, t, refs) && Balanced(t)
    ensures AllNamed(t) <==> s.id.Some?
    ensures t.category == "" ==> !LoneSplitUnderOtherCategory(t)
  {
    LoneActive(s);
  }

  lemma PushedTwice(prior: Payload, t: YnabTxn, refs: References, s: YnabSub)
    requires t.subs == [s] && s.id.None? && !s.deleted
    requires Adoptable(prior, t, refs) && Buildable(Corrected(prior, t), refs)
    ensures var after := Pushed(prior, t, refs); after.subs == [s, s] && after.amount == t.amount
  {
    hide Buildable, Corrected, Built, Mixed, ReferencesAllow, DistinctIds;
    LoneActive(s);
    PulledAmounts(prior, t, refs);
    var want := Built(Corrected(prior, t), refs);
    assert want.subs == [Sub(s.amount, s.category, s.memo)];
    AddedBeside(s);
  }

  /** An update never replaces a split without an id: its new value is added. */
  lemma AddedBeside(s: YnabSub)
    requires s.id.None? && !s.deleted
    ensures Merged([s], [Sub(s.amount, s.category, s.memo)]) != []
    ensures Updated([s], Merged([s], [Sub(s.amount, s.category, s.memo)])) == [s, s]
  {
    var desired := [Sub(s.amount, s.category, s.memo)];
    var rows := Merged([s], desired);
    MergedIsPuts([s], desired);
    assert rows == [Put(None, desired[0])];
    assert rows[..0] == [];
    assert Added(rows) == [s];
    assert Patched([s], rows) == [s];
  }

  lemma TwiceIsNotBuilt(prior: Payload, t: YnabTxn, refs: References, s: YnabSub)
    requires t.subs == [s, s] && !s.deleted && s.amount == t.amount != 0
    ensures !Buildable(Corrected(prior, t), refs)
  {
    hide AccountOk, CategoriesOk;
    LoneActive(s);
    assert [s, s][..1] == [s];
    assert Active(t.subs) == [s, s];
    var amounts := Amounts([s, s]);
    assert amounts[..1] == Amounts([s]);
    assert Sum(amounts) == 2 * s.amount;
    SumOfOneSign([s, s]);
  }
}
