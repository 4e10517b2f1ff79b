/**
 Adopting what YNAB holds and pushing it back: the corrected payload and the two category
 signatures of services/reconciliation.py, composed with the payload builder. A missing or
 empty id is the empty string; sorted signatures are multisets.
 */
module PullPush {
  import opened Prelude
  import opened Apportionment
  import opened MoneyPath

  /** A sub-transaction as YNAB reports it. */
  datatype YnabSub = YnabSub(id: Option<string>, amount: int, category: string, memo: string, deleted: bool)

  datatype YnabTxn = YnabTxn(amount: int, category: string, subs: seq<YnabSub>)

  function Active(subs: seq<YnabSub>): (r: seq<YnabSub>)
    ensures forall s :: s in r <==> s in subs && !s.deleted
  {
    if subs == [] then []
    else
      var init, last := subs[..|subs| - 1], subs[|subs| - 1];
      assert subs == init + [last];
      Active(init) + if last.deleted then [] else [last]
  }

  function Amounts(subs: seq<YnabSub>): (a: seq<int>)
    ensures |a| == |subs|
  {
    seq(|subs|, i requires 0 <= i < |subs| => subs[i].amount)
  }

  /** Inflows beside outflows. */
  predicate Mixed(subs: seq<YnabSub>) {
    (exists s | s in subs :: s.amount > 0) && (exists s | s in subs :: s.amount < 0)
  }

  function AdoptedSplits(subs: seq<YnabSub>): (r: seq<Split>)
    ensures |r| == |subs|
  {
    seq(|subs|, i requires 0 <= i < |subs| => Split(subs[i].category, Abs(subs[i].amount), subs[i].memo))
  }

  /** _build_corrected_payload: YNAB is adopted, except that mixed splits leave the payload alone. */
  function Corrected(prior: Payload, t: YnabTxn): Payload {
    var active := Active(t.subs);
    if Mixed(active) then prior
    else prior.(
      refund := t.amount > 0,
      total := Abs(t.amount),
      category := if active == [] then Some(t.category) else None,
      splits := AdoptedSplits(active))
  }

  // ---------- signatures ----------

  datatype Signature = Signature(category: Option<string>, splits: multiset<(int, string)>)

  function NonEmpty(category: string): Option<string> {
    if category == "" then None else Some(category)
  }

  /** _normalize_category_and_splits: one split of the whole amount may stand for a single category. */
  function Normalized(category: Option<string>, splits: seq<(int, string)>, amount: int): Signature {
    if |splits| == 1 && splits[0].1 != "" && Abs(splits[0].0) == Abs(amount)
       && (category.None? || category.value == splits[0].1)
    then Signature(Some(splits[0].1), multiset{})
    else if splits != [] then Signature(None, multiset(splits))
    else Signature(category, multiset{})
  }

  function PushedSignature(t: Txn): Signature {
    Normalized(NonEmpty(if t.category.Some? then t.category.value else ""),
               seq(|t.subs|, i requires 0 <= i < |t.subs| => (t.subs[i].amount, t.subs[i].category)),
               t.amount)
  }

  function YnabSignature(t: YnabTxn): Signature {
    var active := Active(t.subs);
    Normalized(NonEmpty(t.category),
               seq(|active|, i requires 0 <= i < |active| => (active[i].amount, active[i].category)),
               t.amount)
  }

  /** The drift test of a reconciliation run: the signature or the amount differs. */
  predicate Drifted(pushed: Txn, t: YnabTxn) {
    PushedSignature(pushed) != YnabSignature(t) || pushed.amount != t.amount
  }

  // ---------- money round trip ----------

  /** The active splits, if any, add up to the amount. */
  predicate Balanced(t: YnabTxn) {
    Active(t.subs) != [] ==> Sum(Amounts(Active(t.subs))) == t.amount
  }

  /** The references allow what YNAB holds. */
  predicate ReferencesAllow(prior: Payload, t: YnabTxn, refs: References) {
    && AccountOk(prior, refs)
    && (Active(t.subs) == [] ==> t.category != "" && t.category in refs.categories)
    && (forall s | s in Active(t.subs) :: s.category in refs.categories)
  }

  lemma {:induction false} SumSigned(subs: seq<YnabSub>, outflow: bool)
    requires forall s | s in subs :: if outflow then s.amount <= 0 else s.amount >= 0
    ensures Sum(SplitAmounts(AdoptedSplits(subs))) == if outflow then -Sum(Amounts(subs)) else Sum(Amounts(subs))
    ensures Sum(SplitAmounts(AdoptedSplits(subs))) >= 0
    ensures Sum(Amounts(subs)) == 0 ==> forall s | s in subs :: s.amount == 0
  {
    if subs != [] {
      var n := |subs| - 1;
      var init := subs[..n];
      assert subs == init + [subs[n]];
      assert forall s | s in init :: s in subs;
      SumSigned(init, outflow);
      assert Amounts(subs)[..n] == Amounts(init);
      assert SplitAmounts(AdoptedSplits(subs))[..n] == SplitAmounts(AdoptedSplits(init));
      assert subs[n] in subs;
    }
  }

  lemma SumOfOneSign(subs: seq<YnabSub>)
    requires !Mixed(subs)
    ensures Sum(SplitAmounts(AdoptedSplits(subs))) == Abs(Sum(Amounts(subs)))
    ensures Sum(Amounts(subs)) > 0 ==> forall s | s in subs :: s.amount >= 0
    ensures Sum(Amounts(subs)) < 0 ==> forall s | s in subs :: s.amount <= 0
    ensures Sum(Amounts(subs)) == 0 ==> forall s | s in subs :: s.amount == 0
  {
    if exists s | s in subs :: s.amount < 0 {
      SumSigned(subs, true);
    } else {
      SumSigned(subs, false);
    }
  }

  lemma AdoptedAreAllowed(prior: Payload, t: YnabTxn, refs: References)
    requires !Mixed(Active(t.subs)) && ReferencesAllow(prior, t, refs)
    ensures var p := Corrected(prior, t);
            && AccountOk(p, refs) && CategoriesOk(p, refs)
            && forall s | s in p.splits :: s.amount >= 0
  {
    var p := Corrected(prior, t);
    var active := Active(t.subs);
    forall s | s in p.splits ensures s.amount >= 0 && s.category in refs.categories {
      var i :| 0 <= i < |p.splits| && p.splits[i] == s;
      assert active[i] in active;
    }
  }

  /** The amounts that come back from a pull followed by a push. */
  lemma PulledAmounts(prior: Payload, t: YnabTxn, refs: References)
    requires !Mixed(Active(t.subs)) && ReferencesAllow(prior, t, refs) && Balanced(t)
    ensures Buildable(Corrected(prior, t), refs)
    ensures var u := Built(Corrected(prior, t), refs);
            && u.amount == t.amount
            && |u.subs| == |Active(t.subs)|
            && forall i | 0 <= i < |u.subs| ::
                 var s := Active(t.subs)[i];
                 u.subs[i] == Sub(s.amount, s.category, s.memo)
  {
    var active := Active(t.subs);
    SumOfOneSign(active);
    AdoptedAreAllowed(prior, t, refs);
    var u := Built(Corrected(prior, t), refs);
    forall i | 0 <= i < |u.subs|
      ensures u.subs[i] == Sub(active[i].amount, active[i].category, active[i].memo)
    {
      assert active[i] in active;
    }
  }

  /**
   Pull then push is the identity on money exactly when the transaction is balanced: the
   payload can be built, and gives back the amount and every split amount.
   */
  lemma PullPushKeepsMoney(prior: Payload, t: YnabTxn, refs: References)
    requires !Mixed(Active(t.subs)) && ReferencesAllow(prior, t, refs)
    ensures Balanced(t) <==>
              var p := Corrected(prior, t);
              && Buildable(p, refs)
              && Built(p, refs).amount == t.amount
              && SubAmounts(Built(p, refs).subs) == Amounts(Active(t.subs))
  {
    var active := Active(t.subs);
    var p := Corrected(prior, t);
    if Balanced(t) {
      PulledAmounts(prior, t, refs);
    } else if Buildable(p, refs) && SubAmounts(Built(p, refs).subs) == Amounts(active) {
      SumOfOneSign(active);
      BuiltSumsToAmount(p, refs);
    }
  }

  lemma BuiltSumsToAmount(p: Payload, refs: References)
    requires Buildable(p, refs) && p.splits != []
    ensures Sum(SubAmounts(Built(p, refs).subs)) == Built(p, refs).amount
  {
    var sign := if p.refund then 1 else -1;
    var subs := Built(p, refs).subs;
    forall i | 0 <= i < |subs| ensures SubAmounts(subs)[i] == sign * p.splits[i].amount {
      assert p.splits[i] in p.splits;
    }
    SumScaled(SplitAmounts(p.splits), SplitAmounts(p.splits), SubAmounts(subs), sign, 0);
  }

  /** Mixed splits are not adopted at all. */
  lemma MixedIsNotAdopted(prior: Payload, t: YnabTxn)
    requires exists i, j :: 0 <= i < |Active(t.subs)| && 0 <= j < |Active(t.subs)|
                            && Active(t.subs)[i].amount > 0 && Active(t.subs)[j].amount < 0
    ensures Corrected(prior, t) == prior
  {
    var i, j :| 0 <= i < |Active(t.subs)| && 0 <= j < |Active(t.subs)|
                && Active(t.subs)[i].amount > 0 && Active(t.subs)[j].amount < 0;
    assert Active(t.subs)[i] in Active(t.subs) && Active(t.subs)[j] in Active(t.subs);
  }

  /** One split of 3.00 under an amount of 5.00: the payload is adopted, and cannot be built again. */
  lemma UnbalancedIsNotBuilt(prior: Payload, refs: References)
    ensures var t := YnabTxn(-5000, "", [YnabSub(Some("s"), -3000, "food", "", false)]);
            && !Mixed(Active(t.subs)) && !Balanced(t)
            && !Buildable(Corrected(prior, t), refs)
  {
    var s := YnabSub(Some("s"), -3000, "food", "", false);
    LoneActive(s);
    SumOfOneSign([s]);
  }

  /** A split of the opposite sign and the same size: the payload is built, with the split's sign turned round. */
  lemma OppositeSplitTurnsRound(prior: Payload, refs: References)
    requires AccountOk(prior, refs) && "food" in refs.categories
    ensures var t := YnabTxn(-5000, "", [YnabSub(Some("s"), 5000, "food", "", false)]);
            && !Mixed(Active(t.subs)) && !Balanced(t)
            && Buildable(Corrected(prior, t), refs)
            && SubAmounts(Built(Corrected(prior, t), refs).subs) == [-5000] && Amounts(Active(t.subs)) == [5000]
  {
    var s := YnabSub(Some("s"), 5000, "food", "", false);
    var t := YnabTxn(-5000, "", [s]);
    LoneActive(s);
    SumOfOneSign([s]);
    assert ReferencesAllow(prior, t, refs);
    AdoptedAreAllowed(prior, t, refs);
  }

  lemma LoneActive(s: YnabSub)
    requires !s.deleted
    ensures Active([s]) == [s] && Sum(Amounts([s])) == s.amount
    ensures forall x | x in [s] :: x == s
  {
    assert [s][..0] == [] && Amounts([s])[..0] == [];
  }

  // ---------- the validator in between ----------

  /**
   What is adopted is stored only if it passes the validator. It passes the money checks exactly
   when there is an amount, the splits have categories, and their sizes sum to the amount's.
   For a balanced transaction the last is no condition.
   */
  lemma AdoptedPassesExactly(prior: Payload, t: YnabTxn)
    requires !Mixed(Active(t.subs))
    ensures var active := Active(t.subs);
            MoneyOk(Corrected(prior, t)) <==>
              && t.amount != 0 && (forall s | s in active :: s.category != "")
              && (active != [] ==> Abs(Sum(Amounts(active))) == Abs(t.amount))
    ensures Balanced(t) ==>
              (MoneyOk(Corrected(prior, t)) <==> t.amount != 0 && forall s | s in Active(t.subs) :: s.category != "")
  {
    var active := Active(t.subs);
    var p := Corrected(prior, t);
    SumOfOneSign(active);
    if forall s | s in active :: s.category != "" {
      forall s | s in p.splits ensures s.amount >= 0 && s.category != "" {
        var i :| 0 <= i < |p.splits| && p.splits[i] == s;
        assert active[i] in active;
      }
    } else {
      var i :| 0 <= i < |active| && active[i].category == "";
      assert p.splits[i] in p.splits;
    }
  }

  // ---------- drift ----------

  /** A lone active split with its own category under a different top-level category. */
  predicate LoneSplitUnderOtherCategory(t: YnabTxn) {
    var active := Active(t.subs);
    |active| == 1 && active[0].category != "" && t.category !in {"", active[0].category}
  }

  /**
   The payload built from a pull has the signature of what was pulled, except under a lone
   split's foreign top-level category. What the push makes of it is the subject of PushBack.
   */
  lemma PulledSignature(prior: Payload, t: YnabTxn, refs: References)
    requires !Mixed(Active(t.subs)) && ReferencesAllow(prior, t, refs) && Balanced(t)
    ensures Buildable(Corrected(prior, t), refs)
    ensures !Drifted(Built(Corrected(prior, t), refs), t) <==> !LoneSplitUnderOtherCategory(t)
  {
    PulledAmounts(prior, t, refs);
    var active := Active(t.subs);
    var u := Built(Corrected(prior, t), refs);
    var pushed := seq(|u.subs|, i requires 0 <= i < |u.subs| => (u.subs[i].amount, u.subs[i].category));
    var held := seq(|active|, i requires 0 <= i < |active| => (active[i].amount, active[i].category));
    assert pushed == held;
    if |active| == 1 {
      assert active != [];
      assert Amounts(active)[..0] == [];
      assert Sum(Amounts(active)) == active[0].amount;
      assert active[0].amount == t.amount;
    }
  }

  function HeldAs(subs: seq<YnabSub>): (h: seq<(int, string)>)
    ensures |h| == |subs|
  {
    seq(|subs|, i requires 0 <= i < |subs| => (subs[i].amount, subs[i].category))
  }

  function PushedAs(subs: seq<Sub>): (h: seq<(int, string)>)
    ensures |h| == |subs|
  {
    seq(|subs|, i requires 0 <= i < |subs| => (subs[i].amount, subs[i].category))
  }

  lemma SignaturesOf(pushed: Txn, t: YnabTxn)
    ensures var category := if pushed.category.Some? then pushed.category.value else "";
            PushedSignature(pushed) == Normalized(NonEmpty(category), PushedAs(pushed.subs), pushed.amount)
    ensures YnabSignature(t) == Normalized(NonEmpty(t.category), HeldAs(Active(t.subs)), t.amount)
  {
    hide Normalized;
    var active := Active(t.subs);
    assert PushedAs(pushed.subs)
           == seq(|pushed.subs|, i requires 0 <= i < |pushed.subs| => (pushed.subs[i].amount, pushed.subs[i].category));
    assert HeldAs(active)
           == seq(|active|, i requires 0 <= i < |active| => (active[i].amount, active[i].category));
  }

  /**
   Drift means another amount or, as soon as one side has more than one split, other amounts or
   categories of the splits in any order; without splits on both sides, another category.
   */
  lemma DriftMeans(pushed: Txn, t: YnabTxn)
    ensures pushed.amount != t.amount ==> Drifted(pushed, t)
    ensures pushed.amount == t.amount && (|pushed.subs| > 1 || |Active(t.subs)| > 1) ==>
              (Drifted(pushed, t) <==> multiset(PushedAs(pushed.subs)) != multiset(HeldAs(Active(t.subs))))
    ensures pushed.amount == t.amount && pushed.subs == [] && Active(t.subs) == [] ==>
              (Drifted(pushed, t) <==> t.category != match pushed.category case None => "" case Some(c) => c)
  {
    hide PushedSignature, YnabSignature, PushedAs, HeldAs, Active;
    SignaturesOf(pushed, t);
    var p, h := PushedAs(pushed.subs), HeldAs(Active(t.subs));
    assert |multiset(p)| == |p| && |multiset(h)| == |h|;
  }

  /** A lone split of the whole amount is no drift from the same single category, on either side. */
  lemma LoneSplitIsTheCategory(account: string, amount: int, category: string, s: YnabSub, sub: Sub)
    requires category != "" && !s.deleted && s.amount == amount && s.category == category
    requires sub.amount == amount && sub.category == category
    ensures !Drifted(Txn(account, amount, Some(category), []), YnabTxn(amount, "", [s]))
    ensures !Drifted(Txn(account, amount, None, [sub]), YnabTxn(amount, category, []))
  {
    LoneActive(s);
  }
}
