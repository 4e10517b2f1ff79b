/**
 YNAB as the sync code sees it: transactions with an account, an import id and markers in
 the memo. A create is refused with a conflict when a live transaction on the account has
 the import id already; it may also be refused for a deleted one. Import ids stand for the
 receipts they were built from, which are taken to differ in their first 31 hex digits.
 */
module YnabLedger {
  import opened Prelude

  datatype ReceiptId = ReceiptId(n: nat)

  datatype TxnId = TxnId(n: nat)

  type Account = string

  datatype Txn = Txn(account: Account, importOf: Option<ReceiptId>, markers: set<ReceiptId>, live: bool)

  type Ledger = map<TxnId, Txn>

  predicate IsLive(ledger: Ledger, t: TxnId) {
    t in ledger && ledger[t].live
  }

  /** A live transaction on the account with the receipt's import id. */
  predicate Imported(ledger: Ledger, t: TxnId, r: ReceiptId, account: Account) {
    IsLive(ledger, t) && ledger[t].account == account && ledger[t].importOf == Some(r)
  }

  /** The transaction has the receipt's import id or its marker. */
  predicate Carries(ledger: Ledger, t: TxnId, r: ReceiptId) {
    IsLive(ledger, t) && (ledger[t].importOf == Some(r) || r in ledger[t].markers)
  }

  /** At most one live transaction per account and import id. */
  ghost predicate OnePerAccount(ledger: Ledger) {
    forall a, b, r, account | Imported(ledger, a, r, account) && Imported(ledger, b, r, account) :: a == b
  }

  predicate Bounded(ledger: Ledger, next: nat) {
    forall t | t in ledger :: t.n < next
  }

  // ---------- create ----------

  ghost predicate Conflicts(ledger: Ledger, r: ReceiptId, account: Account) {
    exists t :: Imported(ledger, t, r, account)
  }

  function WithNew(ledger: Ledger, id: TxnId, r: ReceiptId, account: Account): Ledger {
    ledger[id := Txn(account, Some(r), {r}, true)]
  }

  /** Creating keeps one transaction per account exactly when it answers conflicts as YNAB does. */
  lemma CreateKeepsOne(ledger: Ledger, next: nat, r: ReceiptId, account: Account)
    requires OnePerAccount(ledger) && Bounded(ledger, next)
    ensures OnePerAccount(WithNew(ledger, TxnId(next), r, account)) <==> !Conflicts(ledger, r, account)
  {
    var id := TxnId(next);
    var ledger' := WithNew(ledger, id, r, account);
    if Conflicts(ledger, r, account) {
      var t :| Imported(ledger, t, r, account);
      assert Imported(ledger', t, r, account) && Imported(ledger', id, r, account);
    } else {
      forall a, b, s, acc | Imported(ledger', a, s, acc) && Imported(ledger', b, s, acc) ensures a == b {
        assert a != id ==> Imported(ledger, a, s, acc);
        assert b != id ==> Imported(ledger, b, s, acc);
      }
    }
  }

  // ---------- update ----------

  /** An update sets account and memo; it never touches the import id. */
  function Put(ledger: Ledger, t: TxnId, account: Account, markers: set<ReceiptId>): Ledger
    requires t in ledger
  {
    ledger[t := ledger[t].(account := account, markers := markers)]
  }

  /** Moving t to the account would put it beside another live transaction with its import id. */
  ghost predicate Collides(ledger: Ledger, t: TxnId, account: Account)
    requires t in ledger
  {
    && ledger[t].live && ledger[t].importOf.Some?
    && exists u :: u != t && Imported(ledger, u, ledger[t].importOf.value, account)
  }

  /** Exactly when an update keeps one transaction per account. */
  lemma PutKeepsOne(ledger: Ledger, t: TxnId, account: Account, markers: set<ReceiptId>)
    requires OnePerAccount(ledger) && t in ledger
    ensures OnePerAccount(Put(ledger, t, account, markers)) <==> !Collides(ledger, t, account)
  {
    var ledger' := Put(ledger, t, account, markers);
    if Collides(ledger, t, account) {
      var r := ledger[t].importOf.value;
      var u :| u != t && Imported(ledger, u, r, account);
      assert Imported(ledger', u, r, account) && Imported(ledger', t, r, account);
    } else {
      forall a, b, s, acc | Imported(ledger', a, s, acc) && Imported(ledger', b, s, acc) ensures a == b {
        assert a != t ==> Imported(ledger, a, s, acc);
        assert b != t ==> Imported(ledger, b, s, acc);
      }
    }
  }

  /**
   Forced creates on two accounts and an update that moves the second onto the first: the
   creates are both accepted, and unless YNAB refuses the move there are two transactions
   of one receipt on one account.
   */
  lemma MovingCanDouble(r: ReceiptId, first: Account, second: Account)
    requires first != second
    ensures var one := WithNew(map[], TxnId(0), r, first);
            var two := WithNew(one, TxnId(1), r, second);
            var moved := Put(two, TxnId(1), first, {r});
            && !Conflicts(map[], r, first) && !Conflicts(one, r, second) && OnePerAccount(two)
            && Collides(two, TxnId(1), first) && !OnePerAccount(moved)
  {
    var one := WithNew(map[], TxnId(0), r, first);
    var two := WithNew(one, TxnId(1), r, second);
    var moved := Put(two, TxnId(1), first, {r});
    assert Imported(two, TxnId(0), r, first);
    assert Imported(moved, TxnId(0), r, first) && Imported(moved, TxnId(1), r, first);
  }

  // ---------- what else may happen ----------

  /** Fewer live transactions, or one without an import id, cannot break it. */
  lemma FewerKeepOne(before: Ledger, after: Ledger)
    requires OnePerAccount(before)
    requires forall t, r, account | Imported(after, t, r, account) :: Imported(before, t, r, account)
    ensures OnePerAccount(after)
  {
  }
}
