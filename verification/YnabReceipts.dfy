/**
 When a synced receipt keeps a successful sync row: always, unless a commit leaves out a
 status because the session had read the same value before somebody else changed it.
 */
module YnabReceipts {
  import opened Prelude
  import opened YnabLedger
  import opened YnabSync
  import opened YnabRuns

  /** A synced receipt has a successful row. */
  ghost predicate SyncedOk(receipts: Receipts, rows: Rows) {
    forall r | r in receipts && receipts[r].status == Synced :: HasSuccess(rows, r)
  }

  ghost predicate OtherSuccess(rows: Rows, key: Key) {
    exists k :: k in rows && k != key && k.receipt == key.receipt && Success(rows[k].status)
  }

  /** The worker's commit would leave its receipt synced and its row, the only hope, unsuccessful. */
  ghost predicate Unbacks(w: World, id: WorkerId, status: RowStatus, receiptStatus: Status)
    requires id in w.workers && WorkerOk(w.workers[id], w.receipts, w.rows) && w.workers[id].pc != Begun
  {
    var worker := w.workers[id];
    var key := worker.key;
    && Stored(worker.loaded.receipt, w.receipts[key.receipt].status, receiptStatus) == Synced
    && !Success(Stored(worker.loaded.row, w.rows[key].status, status))
    && !OtherSuccess(w.rows, key)
  }

  /** What a step commits: the statuses its worker assigns to its row and its receipt. */
  function Committed(w: World, step: Step): Option<(RowStatus, Status)> {
    match WorkerOf(step)
    case None => None
    case Some(id) =>
      if id !in w.workers || !WorkerOk(w.workers[id], w.receipts, w.rows) then None
      else
        var worker := w.workers[id];
        match step
        case Claim(_) => if worker.pc == Admitted then Some((Running, Syncing)) else None
        case DryRunDone(_) => if worker.pc == Claimed then Some((DryRun, NeedsReview)) else None
        case Commit(_) =>
          if worker.pc.Written? then Some((worker.status, if worker.pc.structure then Synced else NeedsReview))
          else None
        case Fail(_) => if InTry(worker.pc) then Some((Failed, ErrorSync)) else None
        case _ => None
  }

  ghost predicate Loses(w: World, step: Step) {
    && Committed(w, step).Some?
    && var (status, receiptStatus) := Committed(w, step).value;
       Unbacks(w, WorkerOf(step).value, status, receiptStatus)
  }

  // ---------- one step ----------

  lemma SuccessStays(before: Rows, after: Rows, r: ReceiptId)
    requires HasSuccess(before, r)
    requires forall k | k in before && k.receipt == r && Success(before[k].status) ::
               k in after && Success(after[k].status)
    ensures HasSuccess(after, r)
  {
    var k :| k in before && k.receipt == r && Success(before[k].status);
    assert k in after;
  }

  lemma InsertKeepsSynced(receipts: Receipts, rows: Rows, key: Key, row: Row)
    requires SyncedOk(receipts, rows) && key !in rows
    ensures SyncedOk(receipts, rows[key := row])
  {
    hide HasSuccess;
    var after := rows[key := row];
    forall r | r in receipts && receipts[r].status == Synced ensures HasSuccess(after, r) {
      SuccessStays(rows, after, r);
    }
  }

  lemma SuccessSplits(rows: Rows, key: Key)
    requires key in rows
    ensures HasSuccess(rows, key.receipt) <==> Success(rows[key].status) || OtherSuccess(rows, key)
  {
    if k :| k in rows && k.receipt == key.receipt && Success(rows[k].status) {
      assert k == key || OtherSuccess(rows, key);
    }
  }

  lemma OtherStays(rows: Rows, key: Key, row: Row)
    ensures OtherSuccess(rows[key := row], key) <==> OtherSuccess(rows, key)
  {
    var after := rows[key := row];
    if k :| k in rows && k != key && k.receipt == key.receipt && Success(rows[k].status) {
      assert k in after;
    }
  }

  /** Any commit on one row and its receipt. */
  lemma CommitKeepsSyncedExactly(receipts: Receipts, rows: Rows, key: Key, row: Row, s: ReceiptState)
    requires SyncedOk(receipts, rows) && key in rows
    ensures SyncedOk(receipts[key.receipt := s], rows[key := row])
            <==> (s.status == Synced ==> Success(row.status) || OtherSuccess(rows, key))
  {
    hide HasSuccess, OtherSuccess;
    var receipts', rows' := receipts[key.receipt := s], rows[key := row];
    OtherStays(rows, key, row);
    SuccessSplits(rows', key);
    forall r | r in receipts && r != key.receipt && receipts[r].status == Synced ensures HasSuccess(rows', r) {
      SuccessStays(rows, rows', r);
    }
    assert key.receipt in receipts';
  }

  lemma OutsideKeepsSynced(cfg: Config, w: World, step: Step)
    requires SyncedOk(w.receipts, w.rows) && WorkerOf(step).None?
    ensures var w' := OutsideStep(cfg, w, step); SyncedOk(w'.receipts, w'.rows)
  {
    hide OutsideStep, SyncedOk;
    match step {
      case Upload(r) => LeavingKeepsSynced(cfg, w, step);
      case SaveDraft(r, changed, duplicate) => DraftKeepsSynced(cfg, w, r, changed, duplicate);
      case Request(r) => LeavingKeepsSynced(cfg, w, step);
      case RequestLost(r) => LeavingKeepsSynced(cfg, w, step);
      case FoundDuplicate(r) => LeavingKeepsSynced(cfg, w, step);
      case ResetToSynced(r) => ResetToSyncedKeeps(cfg, w, r);
      case Restart => RestartKeepsSynced(cfg, w);
      case _ => OthersTouchNoStatus(cfg, w, step);
    }
  }

  lemma OthersTouchNoStatus(cfg: Config, w: World, step: Step)
    requires WorkerOf(step).None?
    requires !step.Upload? && !step.SaveDraft? && !step.Request? && !step.RequestLost? && !step.FoundDuplicate?
    requires !step.ResetToSynced? && !step.Restart?
    ensures var w' := OutsideStep(cfg, w, step); w'.receipts == w.receipts && w'.rows == w.rows
  {
    hide PriorOk, Refused, Put, HasRestorable, ResetRows, ResetReceipts, AfterDraft;
  }

  /** The steps that set a receipt to something else than synced. */
  lemma LeavingKeepsSynced(cfg: Config, w: World, step: Step)
    requires SyncedOk(w.receipts, w.rows)
    requires step.Upload? || step.Request? || step.RequestLost? || step.FoundDuplicate?
    ensures var w' := OutsideStep(cfg, w, step); SyncedOk(w'.receipts, w'.rows)
  {
    hide HasSuccess, PriorOk, Refused, Put, HasRestorable, ResetRows, ResetReceipts, AfterDraft;
  }

  lemma ResetToSyncedKeeps(cfg: Config, w: World, r: ReceiptId)
    requires SyncedOk(w.receipts, w.rows)
    ensures var w' := OutsideStep(cfg, w, ResetToSynced(r)); SyncedOk(w'.receipts, w'.rows)
  {
    hide HasSuccess, HasRestorable;
    if HasRestorable(w.rows, r) {
      RestorableIsSuccess(w.rows, r);
    }
  }

  lemma DraftKeepsSynced(cfg: Config, w: World, r: ReceiptId, changed: bool, duplicate: bool)
    requires SyncedOk(w.receipts, w.rows)
    ensures var w' := OutsideStep(cfg, w, SaveDraft(r, changed, duplicate)); SyncedOk(w'.receipts, w'.rows)
  {
    hide HasSuccess;
  }

  lemma RestartKeepsSynced(cfg: Config, w: World)
    requires SyncedOk(w.receipts, w.rows)
    ensures var w' := OutsideStep(cfg, w, Restart); SyncedOk(w'.receipts, w'.rows)
  {
    hide HasSuccess;
    var w' := OutsideStep(cfg, w, Restart);
    forall r | r in w'.receipts && w'.receipts[r].status == Synced ensures HasSuccess(w'.rows, r) {
      SuccessStays(w.rows, w'.rows, r);
    }
  }

  lemma RestorableIsSuccess(rows: Rows, r: ReceiptId)
    requires HasRestorable(rows, r)
    ensures HasSuccess(rows, r)
  {
  }

  /** A worker's step without a commit adds at most a running row. */
  lemma QuietStepsKeepSynced(cfg: Config, w: World, id: WorkerId, step: Step)
    requires SyncedOk(w.receipts, w.rows) && WorkerOf(step) == Some(id)
    requires id in w.workers && WorkerOk(w.workers[id], w.receipts, w.rows) && Committed(w, step).None?
    ensures var w' := WorkerStep(cfg, w, id, step); SyncedOk(w'.receipts, w'.rows)
  {
    hide SyncedOk, Settle, Claims, Updates, Creates, Resolves, IsFresh, PriorGone;
    if step.Insert? && w.workers[id].key !in w.rows {
      InsertKeepsSynced(w.receipts, w.rows, w.workers[id].key, Row(Running, None, None, false, w.clock));
    }
  }

  lemma ClaimKeepsSyncedExactly(w: World, id: WorkerId)
    requires SyncedOk(w.receipts, w.rows)
    requires id in w.workers && WorkerOk(w.workers[id], w.receipts, w.rows) && w.workers[id].pc == Admitted
    ensures var w' := Claims(w, id); SyncedOk(w'.receipts, w'.rows) <==> !Unbacks(w, id, Running, Syncing)
  {
    hide SyncedOk, OtherSuccess;
    var key, w' := w.workers[id].key, Claims(w, id);
    CommitKeepsSyncedExactly(w.receipts, w.rows, key, w'.rows[key], w'.receipts[key.receipt]);
  }

  lemma SettleKeepsSyncedExactly(w: World, id: WorkerId, status: RowStatus, applied: bool, receiptStatus: Status)
    requires SyncedOk(w.receipts, w.rows)
    requires id in w.workers && WorkerOk(w.workers[id], w.receipts, w.rows) && w.workers[id].pc != Begun
    ensures var w' := Settle(w, id, status, applied, receiptStatus);
            SyncedOk(w'.receipts, w'.rows) <==> !Unbacks(w, id, status, receiptStatus)
  {
    hide SyncedOk, OtherSuccess, Success;
    var key, w' := w.workers[id].key, Settle(w, id, status, applied, receiptStatus);
    CommitKeepsSyncedExactly(w.receipts, w.rows, key, w'.rows[key], w'.receipts[key.receipt]);
  }

  /** Whatever the step: synced receipts keep a success exactly when no commit takes the last one away. */
  lemma StepKeepsSyncedExactly(cfg: Config, w: World, step: Step)
    requires SyncedOk(w.receipts, w.rows)
    ensures var w' := Perform(cfg, w, step); SyncedOk(w'.receipts, w'.rows) <==> !Loses(w, step)
  {
    hide SyncedOk, OutsideStep, Settle, Claims, Updates, Creates, Resolves, IsFresh, PriorGone, Unbacks, Verified;
    match WorkerOf(step) {
      case None => OutsideKeepsSynced(cfg, w, step);
      case Some(id) =>
        if id in w.workers && WorkerOk(w.workers[id], w.receipts, w.rows) {
          if Committed(w, step).None? {
            QuietStepsKeepSynced(cfg, w, id, step);
          } else {
            CommitStepKeepsSynced(cfg, w, id, step);
          }
        }
    }
  }

  lemma CommitStepKeepsSynced(cfg: Config, w: World, id: WorkerId, step: Step)
    requires SyncedOk(w.receipts, w.rows) && WorkerOf(step) == Some(id)
    requires id in w.workers && WorkerOk(w.workers[id], w.receipts, w.rows) && Committed(w, step).Some?
    ensures var w' := WorkerStep(cfg, w, id, step); SyncedOk(w'.receipts, w'.rows) <==> !Loses(w, step)
  {
    hide SyncedOk, Settle, Claims, OtherSuccess, Success;
    var worker := w.workers[id];
    match step {
      case Claim(_) => ClaimKeepsSyncedExactly(w, id);
      case DryRunDone(_) =>
        var w1 := w.(workers := w.workers[id := worker.(created := Set(None), matched := Set(None))]);
        SettleKeepsSyncedExactly(w1, id, DryRun, w.rows[worker.key].applied, NeedsReview);
      case Commit(_) =>
        SettleKeepsSyncedExactly(w, id, worker.status, worker.pc.structure,
                                 if worker.pc.structure then Synced else NeedsReview);
      case Fail(_) => SettleKeepsSyncedExactly(w, id, Failed, w.rows[worker.key].applied, ErrorSync);
      case _ =>
    }
  }

  // ---------- what it takes to lose one ----------

  /** Since the worker read a status, somebody else has committed another. */
  ghost predicate ReadIsStale(w: World, id: WorkerId)
    requires id in w.workers && WorkerOk(w.workers[id], w.receipts, w.rows) && w.workers[id].pc != Begun
  {
    var worker := w.workers[id];
    || (worker.loaded.receipt.Some? && worker.loaded.receipt.value != w.receipts[worker.key.receipt].status)
    || (worker.loaded.row.Some? && worker.loaded.row.value != w.rows[worker.key].status)
  }

  /** Only a commit on a stale read loses a success. */
  lemma OnlyStaleReadsLose(cfg: Config, w: World, step: Step)
    requires Inv(cfg, w) && Loses(w, step)
    ensures ReadIsStale(w, WorkerOf(step).value)
  {
    hide LedgerOk, OtherSuccess;
  }
}
