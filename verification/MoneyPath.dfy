/**
 The money checks between a draft and YNAB: shared/receipt_shared/money.py, the sum and
 sign checks of services/validation.py and the payload builder of services/ynab.py.
 Amounts are exact numbers of milliunits.
 */
module MoneyPath {
  import opened Prelude
  import opened Apportionment

  datatype Split = Split(category: string, amount: int, memo: string)

  datatype Payload = Payload(account: string, refund: bool, total: int, category: Option<string>, splits: seq<Split>)

  datatype Sub = Sub(amount: int, category: string, memo: string)

  /** A single-category transaction has a category and no subs; a split one the reverse. */
  datatype Txn = Txn(account: string, amount: int, category: Option<string>, subs: seq<Sub>)

  const UNKNOWN_ACCOUNT := "__unknown__"

  // ---------- money.py ----------

  /** dollars_to_milliunits: the direction is carried by the flag, so a negative amount is refused. */
  function ToMilliunits(amount: int, outflow: bool): Result<int, string> {
    if amount < 0 then Err("negative amount")
    else if outflow && amount > 0 then Ok(-amount)
    else Ok(amount)
  }

  function Signed(amount: nat, refund: bool): int {
    if refund then amount else -(amount as int)
  }

  lemma ToMilliunitsIsSigned(amount: nat, refund: bool)
    ensures ToMilliunits(amount, !refund) == Ok(Signed(amount, refund))
    ensures Abs(Signed(amount, refund)) == amount
  {
  }

  // ---------- the validator ----------

  datatype MoneyError = NegativeSplit | EmptySplitCategory | TotalNotPositive | SplitsOff | MilliunitsOff

  function SplitAmounts(splits: seq<Split>): (a: seq<int>)
    ensures |a| == |splits|
  {
    seq(|splits|, i requires 0 <= i < |splits| => splits[i].amount)
  }

  function SplitSum(p: Payload): int { Sum(SplitAmounts(p.splits)) }

  /** What a payload must satisfy to pass every money check. */
  predicate MoneyOk(p: Payload) {
    && (forall s | s in p.splits :: s.amount >= 0 && s.category != "")
    && p.total > 0
    && (p.splits != [] ==> SplitSum(p) == p.total)
  }

  /** Usable splits that come within a cent of a negative total: the conversion to milliunits refuses it. */
  predicate Raises(p: Payload) {
    && p.splits != [] && (forall s | s in p.splits :: s.amount >= 0 && s.category != "")
    && p.total < 0 && SplitSum(p) - p.total <= 10
  }

  /** The money part of validate_payload: a list of errors, or the conversion's own error. */
  method ValidateMoney(p: Payload) returns (r: Result<seq<MoneyError>, string>)
    ensures r.Err? <==> Raises(p)
    ensures r.Ok? ==> (r.value == [] <==> MoneyOk(p))
  {
    var errors := [];
    for i := 0 to |p.splits|
      invariant errors == [] <==> forall k | 0 <= k < i :: p.splits[k].amount >= 0 && p.splits[k].category != ""
    {
      if p.splits[i].amount < 0 {
        errors := errors + [NegativeSplit];
      }
      if p.splits[i].category == "" {
        errors := errors + [EmptySplitCategory];
      }
    }
    if errors != [] {
      return Ok(errors);
    }
    SumOfUsable(p.splits);
    if p.total <= 0 {
      errors := errors + [TotalNotPositive];
    }
    if p.splits != [] {
      var splitTotal := SumOf(SplitAmounts(p.splits));
      if Abs(p.total - splitTotal) > 10 {
        errors := errors + [SplitsOff];
      } else {
        var total := ToMilliunits(p.total, false);
        if total.Err? {
          return Err(total.error);
        }
        if splitTotal != total.value {
          errors := errors + [MilliunitsOff];
        }
      }
    }
    r := Ok(errors);
  }

  lemma {:induction false} SumOfUsable(splits: seq<Split>)
    requires forall s | s in splits :: s.amount >= 0
    ensures Sum(SplitAmounts(splits)) >= 0
  {
    if splits != [] {
      var n := |splits| - 1;
      assert splits[n] in splits;
      SumOfUsable(splits[..n]);
      assert SplitAmounts(splits)[..n] == SplitAmounts(splits[..n]);
    }
  }

  // ---------- the payload builder ----------

  datatype BuildError = NoAccount | UnknownAccount | AccountNotAllowed | NegativeAmount
    | SplitsOffTotal | SplitCategoryNotAllowed | MilliunitsOffTotal | NoCategory | CategoryNotAllowed

  /** The references the local cache allows, and the configured default account. */
  datatype References = References(accounts: set<string>, categories: set<string>, defaultAccount: string)

  function AccountOf(p: Payload, refs: References): string {
    if p.account != "" then p.account else refs.defaultAccount
  }

  predicate AccountOk(p: Payload, refs: References) {
    AccountOf(p, refs) !in {"", UNKNOWN_ACCOUNT} && AccountOf(p, refs) in refs.accounts
  }

  predicate CategoriesOk(p: Payload, refs: References) {
    if p.splits == [] then p.category.Some? && p.category.value != "" && p.category.value in refs.categories
    else forall s | s in p.splits :: s.category in refs.categories
  }

  /** Exactly when a payload can be built. */
  predicate Buildable(p: Payload, refs: References) {
    && AccountOk(p, refs) && CategoriesOk(p, refs)
    && p.total >= 0
    && (p.splits != [] ==> (forall s | s in p.splits :: s.amount >= 0) && SplitSum(p) == p.total)
  }

  function BuiltSubs(splits: seq<Split>, refund: bool): (subs: seq<Sub>)
    requires forall s | s in splits :: s.amount >= 0
    ensures |subs| == |splits|
  {
    seq(|splits|, i requires 0 <= i < |splits| =>
      Sub(Signed(splits[i].amount, refund), splits[i].category, splits[i].memo))
  }

  function Built(p: Payload, refs: References): Txn
    requires Buildable(p, refs)
  {
    Txn(AccountOf(p, refs), Signed(p.total, p.refund),
        if p.splits == [] then p.category else None, BuiltSubs(p.splits, p.refund))
  }

  /** _build_sync_transaction_payload, without the text fields. */
  method BuildTransaction(p: Payload, refs: References) returns (r: Result<Txn, BuildError>)
    ensures r.Ok? <==> Buildable(p, refs)
    ensures r.Ok? ==> r.value == Built(p, refs)
  {
    var account := AccountOf(p, refs);
    if account == "" {
      return Err(NoAccount);
    }
    if account == UNKNOWN_ACCOUNT {
      return Err(UnknownAccount);
    }
    if account !in refs.accounts {
      return Err(AccountNotAllowed);
    }
    var outflow := !p.refund;
    var total := ToMilliunits(p.total, outflow);
    if total.Err? {
      return Err(NegativeAmount);
    }
    var subs: seq<Sub> := [];
    if p.splits != [] {
      var splitTotal := SumOf(SplitAmounts(p.splits));
      if Abs(splitTotal - p.total) > 10 {
        return Err(SplitsOffTotal);
      }
      for i := 0 to |p.splits|
        invariant forall k | 0 <= k < i :: p.splits[k].category in refs.categories
      {
        if p.splits[i].category !in refs.categories {
          return Err(SplitCategoryNotAllowed);
        }
      }
      var sum := 0;
      for i := 0 to |p.splits|
        invariant |subs| == i
        invariant forall k | 0 <= k < i :: p.splits[k].amount >= 0
        invariant forall k | 0 <= k < i ::
                    subs[k] == Sub(Signed(p.splits[k].amount, p.refund), p.splits[k].category, p.splits[k].memo)
        invariant sum == SignedSum(SplitAmounts(p.splits)[..i], p.refund)
      {
        var s := p.splits[i];
        var mu := ToMilliunits(s.amount, outflow);
        if mu.Err? {
          return Err(NegativeAmount);
        }
        assert SplitAmounts(p.splits)[..i + 1][..i] == SplitAmounts(p.splits)[..i];
        subs := subs + [Sub(mu.value, s.category, s.memo)];
        sum := sum + mu.value;
      }
      assert SplitAmounts(p.splits)[..|p.splits|] == SplitAmounts(p.splits);
      if sum != total.value {
        return Err(MilliunitsOffTotal);
      }
      assert subs == BuiltSubs(p.splits, p.refund);
    } else {
      if p.category.None? || p.category.value == "" {
        return Err(NoCategory);
      }
      if p.category.value !in refs.categories {
        return Err(CategoryNotAllowed);
      }
    }
    r := Ok(Txn(account, total.value, if p.splits == [] then p.category else None, subs));
  }

  /** A built transaction: the payload's account or else the default one, signed amounts, and its rows as they are. */
  lemma BuiltSays(p: Payload, refs: References)
    requires Buildable(p, refs)
    ensures var t := Built(p, refs);
            && t.account in refs.accounts && t.account != "" && t.account != UNKNOWN_ACCOUNT
            && (p.account != "" ==> t.account == p.account)
            && (p.account == "" ==> t.account == refs.defaultAccount)
            && t.amount == (if p.refund then p.total else -p.total)
            && (t.category == if p.splits == [] then p.category else None)
            && (p.splits == [] ==> t.category.Some? && t.category.value != "" && t.category.value in refs.categories)
            && |t.subs| == |p.splits| && (forall i | 0 <= i < |t.subs| :: t.subs[i].category in refs.categories)
            && forall i | 0 <= i < |p.splits| ::
                 && t.subs[i].amount == (if p.refund then p.splits[i].amount else -p.splits[i].amount)
                 && t.subs[i].category == p.splits[i].category && t.subs[i].memo == p.splits[i].memo
  {
    forall i | 0 <= i < |p.splits|
      ensures Built(p, refs).subs[i]
              == Sub(if p.refund then p.splits[i].amount else -p.splits[i].amount,
                     p.splits[i].category, p.splits[i].memo)
    {
      assert p.splits[i] in p.splits;
    }
  }

  /** The sum of amounts with one direction. */
  function SignedSum(a: seq<int>, refund: bool): int {
    if refund then Sum(a) else -Sum(a)
  }

  function SubAmounts(subs: seq<Sub>): (a: seq<int>)
    ensures |a| == |subs|
  {
    seq(|subs|, i requires 0 <= i < |subs| => subs[i].amount)
  }

  /** Whatever passes the money validator and the reference checks is built, sums exactly, and is signed one way. */
  lemma ValidMoneyBuilds(p: Payload, refs: References)
    requires MoneyOk(p) && AccountOk(p, refs) && CategoriesOk(p, refs)
    ensures Buildable(p, refs)
    ensures var t := Built(p, refs);
            && t.amount == Signed(p.total, p.refund) && t.amount != 0
            && (p.splits != [] ==> Sum(SubAmounts(t.subs)) == t.amount)
            && (forall s | s in t.subs :: if p.refund then s.amount >= 0 else s.amount <= 0)
  {
    var t := Built(p, refs);
    var sign := if p.refund then 1 else -1;
    SumScaled(SplitAmounts(p.splits), SplitAmounts(p.splits), SubAmounts(t.subs), sign, 0);
    forall s | s in t.subs ensures if p.refund then s.amount >= 0 else s.amount <= 0 {
      var i :| 0 <= i < |t.subs| && t.subs[i] == s;
      assert p.splits[i] in p.splits;
    }
  }
}
