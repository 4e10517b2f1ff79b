/**
 What the steps of a sync do, said without the protocol's own functions: when nothing is
 created again, how a sync ends, who may take a row, and what a write to YNAB leaves.
 */
module YnabOutcomes {
  import opened Prelude
  import opened YnabLedger
  import opened YnabSync
  import opened YnabScenarios

  // ---------- verify before create ----------

  /** A claimed worker whose row already names a transaction that is there. */
  ghost predicate KnowsItsTransaction(w: World, id: WorkerId, t: TxnId) {
    && id in w.workers && WorkerOk(w.workers[id], w.receipts, w.rows) && w.workers[id].pc == Claimed
    && w.rows[w.workers[id].key].created == Some(t) && IsLive(w.ledger, t)
  }

  /** The steps by which a worker writes to YNAB or gives its transaction up. */
  predicate WritesToYnab(step: Step, id: WorkerId) {
    match step
    case Create(x, _, _) => x == id
    case Resolve(x, _) => x == id
    case UpdatePrior(x, _, _, _, _) => x == id
    case UpdateMatched(x, _, _, _, _, _) => x == id
    case PriorMissing(x) => x == id
    case _ => false
  }

  /** After such a worker has verified, it writes nothing to YNAB any more. */
  lemma VerifiedWritesNothing(cfg: Config, w: World, id: WorkerId, t: TxnId, step: Step)
    requires KnowsItsTransaction(w, id, t) && WritesToYnab(step, id)
    ensures var w1 := Perform(cfg, w, Verify(id));
            && w1.ledger == w.ledger && w1.rows == w.rows && w1.receipts == w.receipts
            && Perform(cfg, w1, step) == w1
  {
    hide IsLive, Updates, Creates, Resolves, Settle, Claims;
    VerifyStep(cfg, w, id);
  }

  /** A repeated sync with nobody in between, from the claim on. */
  ghost function Resynced(cfg: Config, w: World, id: WorkerId): World {
    Perform(cfg, Perform(cfg, Perform(cfg, Perform(cfg, w, Claim(id)), Verify(id)), LoadReceipt(id)), Commit(id))
  }

  /**
   So a repeated sync of a receipt whose transaction was created ends with that transaction: the
   ledger is as it was, the row is a success that names it, and the receipt is synced.
   */
  lemma RepeatedSyncEndsWithIt(cfg: Config, w: World, id: WorkerId, t: TxnId)
    requires id in w.workers && WorkerOk(w.workers[id], w.receipts, w.rows) && w.workers[id].pc == Admitted
    requires w.rows[w.workers[id].key].created == Some(t) && IsLive(w.ledger, t)
    ensures var key, after := w.workers[id].key, Resynced(cfg, w, id);
            && after.ledger == w.ledger && after.workers == w.workers - {id}
            && key in after.rows && after.rows[key].status == Created && after.rows[key].created == Some(t)
            && after.rows[key].applied
            && key.receipt in after.receipts && after.receipts[key.receipt].status == Synced
  {
    hide Perform, IsLive, Claims, Verified, Settle;
    ClaimStep(cfg, w, id);
    var claimed := Claims(w, id);
    ClaimedIs(w, id);
    VerifyStep(cfg, claimed, id);
    var verified := Verified(claimed, id);
    VerifiedIs(claimed, id, t);
    LoadStep(cfg, verified, id);
    var loaded := Perform(cfg, verified, LoadReceipt(id));
    CommitStep(cfg, loaded, id);
    SettledIs(loaded, id);
  }

  lemma ClaimedIs(w: World, id: WorkerId)
    requires id in w.workers && WorkerOk(w.workers[id], w.receipts, w.rows) && w.workers[id].pc == Admitted
    ensures var key, c := w.workers[id].key, Claims(w, id);
            && c.ledger == w.ledger && c.receipts.Keys == w.receipts.Keys && c.rows.Keys == w.rows.Keys
            && c.rows[key].created == w.rows[key].created
            && id in c.workers && c.workers[id].key == key && c.workers[id].pc == Claimed
            && c.workers[id].loaded == EXPIRED && c.workers[id].created == Keep
            && c.workers - {id} == w.workers - {id}
  {
  }

  lemma VerifiedIs(w: World, id: WorkerId, t: TxnId)
    requires KnowsItsTransaction(w, id, t)
    ensures var key := w.workers[id].key;
            Verified(w, id)
            == w.(workers := w.workers[id := w.workers[id].(
                    pc := Written(true), status := Created,
                    loaded := w.workers[id].loaded.(row := Some(w.rows[key].status)))])
  {
  }

  /** What the last commit stores for a worker whose reads are not stale. */
  lemma SettledIs(w: World, id: WorkerId)
    requires id in w.workers && WorkerOk(w.workers[id], w.receipts, w.rows) && w.workers[id].pc == Written(true)
    requires w.workers[id].status == Created && w.workers[id].created == Keep
    requires w.workers[id].loaded.receipt in {None, Some(w.receipts[w.workers[id].key.receipt].status)}
    requires w.workers[id].loaded.row in {None, Some(w.rows[w.workers[id].key].status)}
    ensures var key := w.workers[id].key;
            var after := Settle(w, id, Created, true, Synced);
            && after.ledger == w.ledger && after.workers == w.workers - {id}
            && key in after.rows && after.rows[key].status == Created
            && after.rows[key].created == w.rows[key].created && after.rows[key].applied
            && key.receipt in after.receipts && after.receipts[key.receipt].status == Synced
  {
  }

  lemma LoadStep(cfg: Config, w: World, id: WorkerId)
    requires id in w.workers && WorkerOk(w.workers[id], w.receipts, w.rows) && w.workers[id].pc.Written?
    requires w.workers[id].loaded.receipt.None?
    ensures var worker := w.workers[id];
            var loaded := worker.loaded.(receipt := Some(w.receipts[worker.key.receipt].status));
            Perform(cfg, w, LoadReceipt(id)) == w.(workers := w.workers[id := worker.(loaded := loaded)])
  {
    hide Claims, Settle, Verified, Updates, Creates, Resolves, IsFresh;
  }

  /** A transaction that is gone is forgotten: unless another is created, even a failing sync clears its id. */
  lemma GoneIsForgotten(cfg: Config, w: World, id: WorkerId, t: TxnId)
    requires id in w.workers && WorkerOk(w.workers[id], w.receipts, w.rows) && w.workers[id].pc == Claimed
    requires w.rows[w.workers[id].key].created == Some(t) && !IsLive(w.ledger, t)
    ensures var w1 := Perform(cfg, w, Verify(id));
            var failed := Perform(cfg, w1, Fail(id));
            && id in w1.workers && w1.workers[id].pc == Ready && w1.ledger == w.ledger
            && w.workers[id].key in failed.rows && failed.rows[w.workers[id].key].created == None
  {
    hide Updates, Creates, Resolves, Claims, IsFresh, IsLive;
    VerifyStep(cfg, w, id);
  }

  // ---------- who may take a row ----------

  /**
   A worker that finds the row of its draft running and younger than the timeout can only leave;
   any other row it may take, and then it does not skip.
   */
  lemma FreshRowsAreSkipped(cfg: Config, w: World, id: WorkerId, collided: bool)
    requires id in w.workers && WorkerOk(w.workers[id], w.receipts, w.rows)
    requires w.workers[id].pc == Begun && w.workers[id].key in w.rows
    ensures var row := w.rows[w.workers[id].key];
            var young := row.status == Running && w.clock - row.startedAt < cfg.timeout;
            && Perform(cfg, w, Insert(id)) == w && Perform(cfg, w, Claim(id)) == w
            && (if young then Perform(cfg, w, Admit(id, collided)) == w
                else var after := Perform(cfg, w, Admit(id, collided));
                     id in after.workers && after.workers[id].pc == Admitted)
            && Perform(cfg, w, Skip(id)) == if young then w.(workers := w.workers - {id}) else w
  {
    hide Updates, Creates, Resolves, Claims, Settle, Verified;
  }

  /** The reset at start-up fails what has been running too long, and reopens what has been syncing too long. */
  lemma RestartResetsTheStuck(cfg: Config, w: World)
    ensures var after := Perform(cfg, w, Restart);
            && after.rows.Keys == w.rows.Keys && after.receipts.Keys == w.receipts.Keys
            && after.ledger == w.ledger && after.workers == w.workers
            && (forall k | k in w.rows ::
                  var stuck := w.rows[k].status == Running && w.clock - w.rows[k].startedAt > cfg.timeout;
                  after.rows[k] == if stuck then w.rows[k].(status := Failed) else w.rows[k])
            && forall r | r in w.receipts ::
                 var stuck := w.receipts[r].status == Syncing && w.clock - w.receipts[r].syncStarted > cfg.timeout;
                 after.receipts[r] == if stuck then w.receipts[r].(status := NeedsReview) else w.receipts[r]
  {
  }

  // ---------- how a sync ends ----------

  /** Nobody has changed a status the worker has read. */
  ghost predicate ReadsAreCurrent(w: World, id: WorkerId) {
    && id in w.workers && WorkerOk(w.workers[id], w.receipts, w.rows) && w.workers[id].pc != Begun
    && w.workers[id].loaded.receipt in {None, Some(w.receipts[w.workers[id].key.receipt].status)}
    && w.workers[id].loaded.row in {None, Some(w.rows[w.workers[id].key].status)}
  }

  /**
   The four ends of a sync: a written structure makes the receipt synced and one that YNAB ignored
   puts it to review, both keep what was found; a failure shows in row and receipt; a dry run
   leaves no ids and goes to review. YNAB is not touched.
   */
  lemma SyncEnds(cfg: Config, w: World, id: WorkerId)
    requires ReadsAreCurrent(w, id)
    ensures var worker := w.workers[id];
            var key := worker.key;
            && (worker.pc == Written(true) ==>
                  EndsAs(w, Perform(cfg, w, Commit(id)), key, worker.status, Synced))
            && (worker.pc == Written(false) ==>
                  EndsAs(w, Perform(cfg, w, Commit(id)), key, worker.status, NeedsReview))
            && (InTry(worker.pc) ==> EndsAs(w, Perform(cfg, w, Fail(id)), key, Failed, ErrorSync))
            && (worker.pc == Claimed ==>
                  && EndsAs(w, Perform(cfg, w, DryRunDone(id)), key, DryRun, NeedsReview)
                  && NoIds(Perform(cfg, w, DryRunDone(id)), key))
  {
    hide Perform, EndsAs, Settle;
    var worker := w.workers[id];
    if worker.pc.Written? {
      CommitIs(cfg, w, id);
      SettleEnds(w, id, worker.status, worker.pc.structure, if worker.pc.structure then Synced else NeedsReview);
    }
    if InTry(worker.pc) {
      FailIs(cfg, w, id);
      SettleEnds(w, id, Failed, w.rows[worker.key].applied, ErrorSync);
    }
    if worker.pc == Claimed {
      DryRunIs(cfg, w, id);
      var w1 := w.(workers := w.workers[id := worker.(created := Set(None), matched := Set(None))]);
      SettleEnds(w1, id, DryRun, w.rows[worker.key].applied, NeedsReview);
      OthersOfEnds(w, w1, Perform(cfg, w, DryRunDone(id)), worker.key, DryRun, NeedsReview);
    }
  }

  lemma OthersOfEnds(w: World, w1: World, after: World, key: Key, row: RowStatus, receipt: Status)
    requires EndsAs(w1, after, key, row, receipt)
    requires w1.rows == w.rows && w1.receipts == w.receipts && w1.ledger == w.ledger
    ensures EndsAs(w, after, key, row, receipt)
  {
  }

  lemma SettleEnds(w: World, id: WorkerId, status: RowStatus, applied: bool, receiptStatus: Status)
    requires ReadsAreCurrent(w, id)
    ensures var after := Settle(w, id, status, applied, receiptStatus);
            && EndsAs(w, after, w.workers[id].key, status, receiptStatus)
            && after.rows[w.workers[id].key].created == Apply(w.workers[id].created, w.rows[w.workers[id].key].created)
            && after.rows[w.workers[id].key].matched == Apply(w.workers[id].matched, w.rows[w.workers[id].key].matched)
  {
  }

  lemma CommitIs(cfg: Config, w: World, id: WorkerId)
    requires id in w.workers && WorkerOk(w.workers[id], w.receipts, w.rows) && w.workers[id].pc.Written?
    ensures var worker := w.workers[id];
            Perform(cfg, w, Commit(id))
            == Settle(w, id, worker.status, worker.pc.structure, if worker.pc.structure then Synced else NeedsReview)
  {
    hide Claims, Settle, Verified, Updates, Creates, Resolves, IsFresh;
  }

  lemma FailIs(cfg: Config, w: World, id: WorkerId)
    requires id in w.workers && WorkerOk(w.workers[id], w.receipts, w.rows) && InTry(w.workers[id].pc)
    ensures Perform(cfg, w, Fail(id)) == Settle(w, id, Failed, w.rows[w.workers[id].key].applied, ErrorSync)
  {
    hide Claims, Settle, Verified, Updates, Creates, Resolves, IsFresh;
  }

  lemma DryRunIs(cfg: Config, w: World, id: WorkerId)
    requires id in w.workers && WorkerOk(w.workers[id], w.receipts, w.rows) && w.workers[id].pc == Claimed
    ensures var worker := w.workers[id].(created := Set(None), matched := Set(None));
            Perform(cfg, w, DryRunDone(id))
            == Settle(w.(workers := w.workers[id := worker]), id, DryRun, w.rows[worker.key].applied, NeedsReview)
  {
    hide Claims, Settle, Verified, Updates, Creates, Resolves, IsFresh;
  }

  ghost predicate NoIds(w: World, key: Key) {
    key in w.rows && w.rows[key].created == None && w.rows[key].matched == None
  }

  /** The row and the receipt end with these statuses, and nothing else is touched. */
  ghost predicate EndsAs(w: World, after: World, key: Key, row: RowStatus, receipt: Status) {
    && after.ledger == w.ledger && after.rows.Keys == w.rows.Keys && after.receipts.Keys == w.receipts.Keys
    && key in after.rows && after.rows[key].status == row
    && key.receipt in after.receipts && after.receipts[key.receipt].status == receipt
    && (forall k | k in w.rows && k != key :: after.rows[k] == w.rows[k])
    && (forall r | r in w.receipts && r != key.receipt :: after.receipts[r] == w.receipts[r])
  }

  /**
   A synced transaction that the user deleted is not made again: a sync after a success finds it
   missing, writes nothing to YNAB, and puts the receipt to review.
   */
  lemma DeletedIsNotRecreated(cfg: Config, w: World, id: WorkerId)
    requires ReadsAreCurrent(w, id) && w.workers[id].pc == Ready
    requires w.workers[id].prior.Some? && !w.workers[id].key.force && PriorGone(w.workers[id], w.ledger)
    ensures forall refused, lost :: Perform(cfg, w, Create(id, refused, lost)) == w
    ensures var after := Perform(cfg, Perform(cfg, w, PriorMissing(id)), Commit(id));
            EndsAs(w, after, w.workers[id].key, Failed, NeedsReview)
  {
    hide Perform;
    var missing := w.(workers := w.workers[id := w.workers[id].(pc := Written(false), status := Failed)]);
    MissingStep(cfg, w, id);
    SyncEnds(cfg, missing, id);
    NoCreateAfterSuccess(cfg, w, id);
  }

  lemma MissingStep(cfg: Config, w: World, id: WorkerId)
    requires ReadsAreCurrent(w, id) && w.workers[id].pc == Ready
    requires w.workers[id].prior.Some? && !w.workers[id].key.force && PriorGone(w.workers[id], w.ledger)
    ensures Perform(cfg, w, PriorMissing(id))
            == w.(workers := w.workers[id := w.workers[id].(pc := Written(false), status := Failed)])
  {
    hide Claims, Settle, Verified, Updates, Creates, Resolves, IsFresh, PriorGone;
  }

  /** A worker that found an earlier success, and is not forced, never creates and never matches. */
  lemma NoCreateAfterSuccess(cfg: Config, w: World, id: WorkerId)
    requires id in w.workers && w.workers[id].prior.Some? && !w.workers[id].key.force
    ensures forall refused, lost :: Perform(cfg, w, Create(id, refused, lost)) == w
    ensures forall t, preserve, markers, structure, lost ::
              Perform(cfg, w, UpdateMatched(id, t, preserve, markers, structure, lost)) == w
  {
    hide Claims, Settle, Verified, Updates, Creates, Resolves, IsFresh, PriorGone;
  }

  /** And every worker that starts finds one exactly when there is one: some successful row of the receipt. */
  lemma StartFindsTheSuccess(cfg: Config, w: World, id: WorkerId, r: ReceiptId, force: bool, allowUpdate: bool,
                             account: Account, prior: Option<Option<TxnId>>)
    requires id !in w.workers && r in w.receipts
    ensures var after := Perform(cfg, w, Begin(id, r, force, allowUpdate, account, prior));
            id in after.workers ==>
              && after.workers[id].prior == prior && after.workers[id].key.receipt == r
              && after.workers[id].key.validation == w.receipts[r].validation
              && (prior.Some? <==> HasSuccess(w.rows, r))
              && (prior.Some? ==> exists k :: k in w.rows && k.receipt == r && NamesAsDone(w.rows[k], prior.value))
  {
    if prior.Some? && PriorOk(w.rows, r, prior) {
      var k :| k in w.rows && k.receipt == r && Success(w.rows[k].status) && prior.value == TargetOf(w.rows[k]);
      assert NamesAsDone(w.rows[k], prior.value);
    }
  }

  /** A successful row whose transaction is t: the one it created, or else the one it matched. */
  predicate NamesAsDone(row: Row, t: Option<TxnId>) {
    && row.status in {Created, MatchedUpdated}
    && (row.created.Some? ==> t == row.created) && (row.created.None? ==> t == row.matched)
  }

  /**
   A claim keeps others out: until its timeout has passed, a worker that starts on the same draft
   finds the row young and can only leave.
   */
  lemma ClaimKeepsOthersOut(cfg: Config, w: World, id: WorkerId, other: WorkerId, collided: bool, later: World)
    requires ReadsAreCurrent(w, id) && w.workers[id].pc == Admitted
    requires var claimed, key := Perform(cfg, w, Claim(id)), w.workers[id].key;
             && key in later.rows && key in claimed.rows && later.rows[key] == claimed.rows[key]
             && w.clock <= later.clock < w.clock + cfg.timeout
             && other in later.workers && WorkerOk(later.workers[other], later.receipts, later.rows)
             && later.workers[other].pc == Begun && later.workers[other].key == key
    ensures Perform(cfg, later, Admit(other, collided)) == later
    ensures Perform(cfg, later, Skip(other)) == later.(workers := later.workers - {other})
  {
    ClaimStep(cfg, w, id);
    FreshRowsAreSkipped(cfg, later, other, collided);
  }

  /** Only one request at a time sets a receipt to syncing, and it starts the clock of the reset. */
  lemma RequestsExclude(cfg: Config, w: World, r: ReceiptId)
    requires r in w.receipts
    ensures var after := Perform(cfg, w, Request(r));
            if w.receipts[r].status == Syncing then after == w
            else after.receipts[r].status == Syncing && after.receipts[r].syncStarted == w.clock
                 && Perform(cfg, after, Request(r)) == after
  {
  }

  // ---------- what a write to YNAB leaves ----------

  /** A created transaction is on the account, under the receipt's import id and marker; the others stay. */
  lemma CreatedSays(cfg: Config, w: World, id: WorkerId)
    requires id in w.workers && WorkerOk(w.workers[id], w.receipts, w.rows) && w.workers[id].pc == Ready
    requires w.workers[id].prior.None? || w.workers[id].key.force
    requires !Conflicts(w.ledger, w.workers[id].key.receipt, w.workers[id].account)
    ensures var worker := w.workers[id];
            var t := TxnId(w.nextTxn);
            var after := Perform(cfg, w, Create(id, false, false));
            && t in after.ledger && after.ledger[t].live && after.ledger[t].account == worker.account
            && after.ledger[t].importOf == Some(worker.key.receipt) && worker.key.receipt in after.ledger[t].markers
            && (forall u | u in w.ledger && u != t :: u in after.ledger && after.ledger[u] == w.ledger[u])
            && after.workers[id].pc == Written(true) && after.workers[id].created == Set(Some(t))
  {
    hide Conflicts, MayRefuse;
    CreateStep(cfg, w, id);
  }

  /**
   An update puts the transaction on the draft's account and marks it with the receipt, unless
   YNAB refuses; what the user had written into it before is only marked.
   */
  lemma UpdatedSays(cfg: Config, w: World, id: WorkerId, t: TxnId, markers: set<ReceiptId>, structure: bool)
    requires id in w.workers && WorkerOk(w.workers[id], w.receipts, w.rows) && w.workers[id].pc == Ready
    requires !w.workers[id].key.force && IsLive(w.ledger, t)
    ensures var worker := w.workers[id];
            var r := worker.key.receipt;
            && (worker.prior == Some(Some(t)) && !Refused(cfg, w.ledger, t, worker.account) ==>
                  var after := Perform(cfg, w, UpdatePrior(id, t, markers, structure, false));
                  && t in after.ledger && after.ledger[t].account == worker.account
                  && after.ledger[t].markers == markers + {r}
                  && Carries(after.ledger, t, r)
                  && after.workers[id].matched == Set(Some(t)) && after.workers[id].pc == Written(structure))
            && (worker.prior.None? && worker.key.allowUpdate && !Refused(cfg, w.ledger, t, w.ledger[t].account) ==>
                  var after := Perform(cfg, w, UpdateMatched(id, t, true, markers, structure, false));
                  && t in after.ledger
                  && after.ledger[t] == w.ledger[t].(markers := w.ledger[t].markers + {r})
                  && after.workers[id].matched == Set(Some(t)))
  {
    hide Claims, Settle, Verified, Creates, Resolves, IsFresh, Refused;
  }

  // ---------- the user's steps ----------

  /** A changed draft is never left synced, and an unchanged one stays what it was unless it is a duplicate. */
  lemma DraftDecides(cfg: Config, w: World, r: ReceiptId, changed: bool, duplicate: bool)
    requires r in w.receipts
    ensures var before := w.receipts[r];
            var after := Perform(cfg, w, SaveDraft(r, changed, duplicate)).receipts[r];
            && after.validation == before.validation + 1
            && (after.status == DuplicateReview <==> duplicate)
            && (changed ==> after.status !in {Synced, ErrorSync})
            && (!duplicate && before.status != DuplicateReview && (!changed || before.status in {NeedsReview, Syncing})
                ==> after.status == before.status)
  {
  }

  /** A receipt goes back to synced without a sync exactly over a success whose structure YNAB took. */
  lemma RestoredToSynced(cfg: Config, w: World, r: ReceiptId)
    requires r in w.receipts && w.receipts[r].status !in {Synced, Syncing}
    ensures Perform(cfg, w, ResetToSynced(r)).receipts[r].status == Synced <==>
              exists k :: k in w.rows && k.receipt == r && w.rows[k].status in {Created, MatchedUpdated}
                          && w.rows[k].applied
  {
  }

  /** A create whose answer is lost has made the transaction all the same; the failing sync stores no id of it. */
  lemma LostCreateIsUnknown(cfg: Config, w: World, id: WorkerId)
    requires ReadsAreCurrent(w, id) && w.workers[id].pc == Ready && w.workers[id].created == Keep
    requires w.workers[id].prior.None? || w.workers[id].key.force
    requires !Conflicts(w.ledger, w.workers[id].key.receipt, w.workers[id].account)
    ensures var key := w.workers[id].key;
            var sent := Perform(cfg, w, Create(id, false, true));
            var failed := Perform(cfg, sent, Fail(id));
            && EndsAs(sent, failed, key, Failed, ErrorSync)
            && failed.ledger == WithNew(w.ledger, TxnId(w.nextTxn), key.receipt, w.workers[id].account)
            && failed.rows[key].created == w.rows[key].created
  {
    hide Perform, Conflicts, MayRefuse, Settle, EndsAs;
    LostCreateStep(cfg, w, id);
    var sent := Perform(cfg, w, Create(id, false, true));
    FailIs(cfg, sent, id);
    SettleEnds(sent, id, Failed, sent.rows[w.workers[id].key].applied, ErrorSync);
    EndsKeepTheLedger(sent, Perform(cfg, sent, Fail(id)), w.workers[id].key);
  }

  lemma EndsKeepTheLedger(w: World, after: World, key: Key)
    requires EndsAs(w, after, key, Failed, ErrorSync)
    ensures after.ledger == w.ledger && key in after.rows
  {
  }

  lemma LostCreateStep(cfg: Config, w: World, id: WorkerId)
    requires id in w.workers && WorkerOk(w.workers[id], w.receipts, w.rows) && w.workers[id].pc == Ready
    requires w.workers[id].prior.None? || w.workers[id].key.force
    requires !Conflicts(w.ledger, w.workers[id].key.receipt, w.workers[id].account)
    ensures var worker := w.workers[id];
            Perform(cfg, w, Create(id, false, true))
            == w.(ledger := WithNew(w.ledger, TxnId(w.nextTxn), worker.key.receipt, worker.account),
                  nextTxn := w.nextTxn + 1, workers := w.workers[id := worker.(pc := Failing)])
  {
    hide Claims, Settle, Verified, Updates, Resolves, IsFresh, Conflicts, MayRefuse;
  }

  /** A crash leaves row, receipt and YNAB as they are, for the reset or a later worker to find. */
  lemma CrashLeavesAll(cfg: Config, w: World, id: WorkerId)
    requires id in w.workers && WorkerOk(w.workers[id], w.receipts, w.rows)
    ensures Perform(cfg, w, Crash(id)) == w.(workers := w.workers - {id})
  {
  }

  /** A conflict that no transaction of the receipt explains fails the sync, and names none. */
  lemma UnexplainedConflictFails(cfg: Config, w: World, id: WorkerId)
    requires ReadsAreCurrent(w, id) && w.workers[id].pc == Conflicted && w.workers[id].created == Keep
    ensures var key := w.workers[id].key;
            var failed := Perform(cfg, Perform(cfg, w, Resolve(id, None)), Fail(id));
            EndsAs(w, failed, key, Failed, ErrorSync) && failed.rows[key].created == w.rows[key].created
  {
    hide Perform, EndsAs, Settle;
    ConflictFailsStep(cfg, w, id);
    var failing := Perform(cfg, w, Resolve(id, None));
    FailIs(cfg, failing, id);
    SettleEnds(failing, id, Failed, w.rows[w.workers[id].key].applied, ErrorSync);
    OthersOfEnds(w, failing, Perform(cfg, failing, Fail(id)), w.workers[id].key, Failed, ErrorSync);
    EndsKeepTheLedger(w, Perform(cfg, failing, Fail(id)), w.workers[id].key);
  }

  lemma ConflictFailsStep(cfg: Config, w: World, id: WorkerId)
    requires id in w.workers && WorkerOk(w.workers[id], w.receipts, w.rows) && w.workers[id].pc == Conflicted
    ensures Perform(cfg, w, Resolve(id, None)) == w.(workers := w.workers[id := w.workers[id].(pc := Failing)])
  {
    hide Claims, Settle, Verified, Updates, Creates, IsFresh;
  }

  /** A request that could not be enqueued, and a duplicate that was found, set the status and nothing else. */
  lemma StatusRequests(cfg: Config, w: World, r: ReceiptId)
    requires r in w.receipts
    ensures Perform(cfg, w, RequestLost(r))
            == w.(receipts := w.receipts[r := w.receipts[r].(status := NeedsReview)])
    ensures Perform(cfg, w, FoundDuplicate(r))
            == w.(receipts := w.receipts[r := w.receipts[r].(status := DuplicateReview)])
  {
  }
}
