/** What every step of the sync protocol keeps. */
module YnabRuns {
  import opened Prelude
  import opened YnabLedger
  import opened YnabSync

  // ---------- the invariant ----------

  ghost predicate WorkersOk(workers: Workers, receipts: Receipts, rows: Rows) {
    forall id | id in workers :: WorkerOk(workers[id], receipts, rows)
  }

  ghost predicate LedgerOk(cfg: Config, ledger: Ledger, nextTxn: nat) {
    Bounded(ledger, nextTxn) && (cfg.guardsMoves ==> OnePerAccount(ledger))
  }

  /** A worker about to report a receipt as synced stores a success. */
  ghost predicate WrittenOk(workers: Workers) {
    forall id | id in workers && workers[id].pc == Written(true) :: Success(workers[id].status)
  }

  ghost predicate Inv(cfg: Config, w: World) {
    && WorkersOk(w.workers, w.receipts, w.rows)
    && LedgerOk(cfg, w.ledger, w.nextTxn)
    && WrittenOk(w.workers)
  }

  // ---------- receipts and rows ----------

  lemma RestartKeeps(cfg: Config, w: World)
    requires Inv(cfg, w)
    ensures Inv(cfg, w.(rows := ResetRows(cfg, w.rows, w.clock), receipts := ResetReceipts(cfg, w.receipts, w.clock)))
  {
    hide LedgerOk, WrittenOk;
  }

  lemma StatusKeeps(cfg: Config, w: World, r: ReceiptId, s: ReceiptState)
    requires Inv(cfg, w)
    ensures Inv(cfg, w.(receipts := w.receipts[r := s]))
  {
    hide LedgerOk, WrittenOk;
  }

  lemma ClaimsKeeps(cfg: Config, w: World, id: WorkerId)
    requires Inv(cfg, w) && id in w.workers && w.workers[id].key in w.rows && w.workers[id].key.receipt in w.receipts
    ensures Inv(cfg, Claims(w, id))
  {
    hide LedgerOk;
  }

  lemma SettleKeeps(cfg: Config, w: World, id: WorkerId, status: RowStatus, applied: bool, receiptStatus: Status)
    requires Inv(cfg, w) && id in w.workers && w.workers[id].key in w.rows && w.workers[id].key.receipt in w.receipts
    ensures Inv(cfg, Settle(w, id, status, applied, receiptStatus))
  {
    hide LedgerOk;
  }

  /** A worker that only moves on. */
  lemma WorkerKeeps(cfg: Config, w: World, id: WorkerId, next: Worker)
    requires Inv(cfg, w) && id in w.workers
    requires next.key == w.workers[id].key && WorkerOk(next, w.receipts, w.rows)
    requires next.pc == Written(true) ==> Success(next.status)
    ensures Inv(cfg, w.(workers := w.workers[id := next]))
  {
    hide LedgerOk;
  }

  lemma GoneKeeps(cfg: Config, w: World, id: WorkerId)
    requires Inv(cfg, w)
    ensures Inv(cfg, w.(workers := w.workers - {id}))
  {
    hide LedgerOk;
  }

  lemma InsertKeeps(cfg: Config, w: World, id: WorkerId, key: Key, row: Row)
    requires Inv(cfg, w) && key !in w.rows
    ensures Inv(cfg, w.(rows := w.rows[key := row]))
  {
    hide LedgerOk, WrittenOk;
  }

  // ---------- the ledger ----------

  lemma PutKeeps(cfg: Config, w: World, t: TxnId, account: Account, markers: set<ReceiptId>)
    requires Inv(cfg, w) && t in w.ledger && !Refused(cfg, w.ledger, t, account)
    ensures Inv(cfg, w.(ledger := Put(w.ledger, t, account, markers)))
  {
    hide OnePerAccount, Collides, WorkersOk, WrittenOk;
    if cfg.guardsMoves {
      PutKeepsOne(w.ledger, t, account, markers);
    }
  }

  lemma DeleteKeeps(cfg: Config, w: World, t: TxnId)
    requires Inv(cfg, w) && t in w.ledger
    ensures Inv(cfg, w.(ledger := w.ledger[t := w.ledger[t].(live := false)]))
  {
    hide WorkersOk, WrittenOk;
    var ledger := w.ledger[t := w.ledger[t].(live := false)];
    if cfg.guardsMoves {
      FewerKeepOne(w.ledger, ledger);
    }
  }

  lemma AddKeeps(cfg: Config, w: World, account: Account, markers: set<ReceiptId>)
    requires Inv(cfg, w)
    ensures Inv(cfg, w.(ledger := w.ledger[TxnId(w.nextTxn) := Txn(account, None, markers, true)],
                        nextTxn := w.nextTxn + 1))
  {
    hide WorkersOk, WrittenOk;
    var ledger := w.ledger[TxnId(w.nextTxn) := Txn(account, None, markers, true)];
    if cfg.guardsMoves {
      FewerKeepOne(w.ledger, ledger);
    }
  }

  lemma NewTxnKeeps(cfg: Config, w: World, r: ReceiptId, account: Account)
    requires Inv(cfg, w) && !Conflicts(w.ledger, r, account)
    ensures Inv(cfg, w.(ledger := WithNew(w.ledger, TxnId(w.nextTxn), r, account), nextTxn := w.nextTxn + 1))
  {
    hide OnePerAccount, Conflicts, WorkersOk, WrittenOk;
    if cfg.guardsMoves {
      CreateKeepsOne(w.ledger, w.nextTxn, r, account);
    }
  }

  lemma UpdatesKeeps(cfg: Config, w: World, id: WorkerId, t: TxnId, account: Account, markers: set<ReceiptId>,
                     structure: bool, lost: bool)
    requires Inv(cfg, w) && id in w.workers && IsLive(w.ledger, t) && w.workers[id].key in w.rows
    ensures Inv(cfg, Updates(cfg, w, id, t, account, markers, structure, lost))
  {
    hide Inv, Refused;
    var next := Updates(cfg, w, id, t, account, markers, structure, lost).workers[id];
    assert WorkerOk(next, w.receipts, w.rows) by {
      WorkerIsOk(cfg, w, id);
    }
    if Refused(cfg, w.ledger, t, account) {
      WorkerKeeps(cfg, w, id, next);
    } else {
      PutKeeps(cfg, w, t, account, markers);
      var w1 := w.(ledger := Put(w.ledger, t, account, markers));
      WorkerKeeps(cfg, w1, id, next);
    }
  }

  lemma WorkerIsOk(cfg: Config, w: World, id: WorkerId)
    requires Inv(cfg, w) && id in w.workers
    ensures WorkerOk(w.workers[id], w.receipts, w.rows)
    ensures w.workers[id].pc == Written(true) ==> Success(w.workers[id].status)
  {
  }

  lemma CreatesKeeps(cfg: Config, w: World, id: WorkerId, refused: bool, lost: bool)
    requires Inv(cfg, w) && id in w.workers && w.workers[id].key in w.rows
    ensures Inv(cfg, Creates(w, id, refused, lost))
  {
    hide Inv, Conflicts, MayRefuse;
    var worker := w.workers[id];
    var r := worker.key.receipt;
    var w' := Creates(w, id, refused, lost);
    WorkerIsOk(cfg, w, id);
    if Conflicts(w.ledger, r, worker.account) || (refused && MayRefuse(w.ledger, r, worker.account)) {
      WorkerKeeps(cfg, w, id, w'.workers[id]);
    } else {
      NewTxnKeeps(cfg, w, r, worker.account);
      var w1 := w.(ledger := WithNew(w.ledger, TxnId(w.nextTxn), r, worker.account), nextTxn := w.nextTxn + 1);
      WorkerKeeps(cfg, w1, id, w'.workers[id]);
    }
  }

  lemma ResolvesKeeps(cfg: Config, w: World, id: WorkerId, found: Option<TxnId>)
    requires Inv(cfg, w) && id in w.workers && w.workers[id].key in w.rows
    ensures Inv(cfg, Resolves(w, id, found))
  {
    hide Inv;
    WorkerIsOk(cfg, w, id);
    var w' := Resolves(w, id, found);
    match found {
      case None => WorkerKeeps(cfg, w, id, w'.workers[id]);
      case Some(t) =>
        if Carries(w.ledger, t, w.workers[id].key.receipt) {
          WorkerKeeps(cfg, w, id, w'.workers[id]);
        }
    }
  }

  // ---------- every step ----------

  lemma RowStepKeeps(cfg: Config, w: World, id: WorkerId, step: Step)
    requires Inv(cfg, w) && id in w.workers && WorkerOk(w.workers[id], w.receipts, w.rows)
    requires step in {Insert(id), Skip(id), Admit(id, true), Admit(id, false), Claim(id), LoadReceipt(id),
                      DryRunDone(id), Verify(id), PriorMissing(id), Commit(id), Fail(id), Crash(id)}
    ensures Inv(cfg, WorkerStep(cfg, w, id, step))
  {
    hide Inv, Updates, Creates, Resolves, Claims, Settle;
    var worker := w.workers[id];
    WorkerIsOk(cfg, w, id);
    match step {
      case Insert(_) =>
        if worker.pc == Begun && worker.key !in w.rows {
          var w1 := w.(rows := w.rows[worker.key := Row(Running, None, None, false, w.clock)]);
          InsertKeeps(cfg, w, id, worker.key, Row(Running, None, None, false, w.clock));
          WorkerKeeps(cfg, w1, id, worker.(pc := Admitted, loaded := EXPIRED));
        }
      case Skip(_) => GoneKeeps(cfg, w, id);
      case Admit(_, collided) =>
        if worker.pc == Begun && worker.key in w.rows {
          var loaded := Loaded(if collided then None else worker.loaded.receipt, Some(w.rows[worker.key].status));
          WorkerKeeps(cfg, w, id, worker.(pc := Admitted, loaded := loaded));
        }
      case Claim(_) => if worker.key in w.rows { ClaimsKeeps(cfg, w, id); }
      case LoadReceipt(_) =>
        var loaded := worker.loaded.(receipt := Some(w.receipts[worker.key.receipt].status));
        WorkerKeeps(cfg, w, id, worker.(loaded := loaded));
      case DryRunDone(_) =>
        if worker.pc == Claimed {
          var next := worker.(created := Set(None), matched := Set(None));
          WorkerKeeps(cfg, w, id, next);
          SettleKeeps(cfg, w.(workers := w.workers[id := next]), id, DryRun, w.rows[worker.key].applied, NeedsReview);
        }
      case Verify(_) => if worker.pc == Claimed { WorkerKeeps(cfg, w, id, Verified(w, id).workers[id]); }
      case PriorMissing(_) =>
        if worker.pc == Ready { WorkerKeeps(cfg, w, id, worker.(pc := Written(false), status := Failed)); }
      case Commit(_) =>
        if worker.pc.Written? {
          var status := if worker.pc.structure then Synced else NeedsReview;
          SettleKeeps(cfg, w, id, worker.status, worker.pc.structure, status);
        }
      case Fail(_) => if InTry(worker.pc) { SettleKeeps(cfg, w, id, Failed, w.rows[worker.key].applied, ErrorSync); }
      case Crash(_) => GoneKeeps(cfg, w, id);
    }
  }

  lemma WorkerStepKeeps(cfg: Config, w: World, id: WorkerId, step: Step)
    requires Inv(cfg, w) && id in w.workers && WorkerOk(w.workers[id], w.receipts, w.rows) && WorkerOf(step) == Some(id)
    ensures Inv(cfg, WorkerStep(cfg, w, id, step))
  {
    hide Inv, Updates, Creates, Resolves, Claims, Settle, Verified;
    var worker := w.workers[id];
    match step {
      case UpdatePrior(_, t, markers, structure, lost) =>
        if worker.pc == Ready && IsLive(w.ledger, t) {
          UpdatesKeeps(cfg, w, id, t, worker.account, markers + {worker.key.receipt}, structure, lost);
        }
      case UpdateMatched(_, t, preserve, markers, structure, lost) =>
        if worker.pc == Ready && IsLive(w.ledger, t) {
          UpdatesKeeps(cfg, w, id, t, worker.account, markers + {worker.key.receipt}, structure, lost);
          UpdatesKeeps(cfg, w, id, t, w.ledger[t].account, w.ledger[t].markers + {worker.key.receipt}, structure, lost);
        }
      case Create(_, refused, lost) => if worker.pc == Ready { CreatesKeeps(cfg, w, id, refused, lost); }
      case Resolve(_, found) => if worker.pc == Conflicted { ResolvesKeeps(cfg, w, id, found); }
      case _ => RowStepKeeps(cfg, w, id, step);
    }
  }

  lemma DraftKeeps(cfg: Config, w: World, r: ReceiptId, changed: bool, duplicate: bool)
    requires Inv(cfg, w) && r in w.receipts
    ensures var s := w.receipts[r];
            var status := AfterDraft(s.status, changed, duplicate);
            Inv(cfg, w.(receipts := w.receipts[r := s.(status := status, validation := s.validation + 1)]))
  {
    var s := w.receipts[r];
    var status := AfterDraft(s.status, changed, duplicate);
    StatusKeeps(cfg, w, r, s.(status := status, validation := s.validation + 1));
    hide Inv;
  }

  lemma TickKeeps(cfg: Config, w: World)
    requires Inv(cfg, w)
    ensures Inv(cfg, w.(clock := w.clock + 1))
  {
  }

  lemma OutsideStepKeeps(cfg: Config, w: World, step: Step)
    requires Inv(cfg, w)
    ensures Inv(cfg, OutsideStep(cfg, w, step))
  {
    hide Inv, AfterDraft, ResetRows, ResetReceipts, HasRestorable, PriorOk, Refused;
    match step {
      case Tick => TickKeeps(cfg, w);
      case Upload(r) => if r !in w.receipts { StatusKeeps(cfg, w, r, ReceiptState(NeedsReview, 0, 0)); }
      case SaveDraft(r, changed, duplicate) =>
        if r in w.receipts {
          DraftKeeps(cfg, w, r, changed, duplicate);
        }
      case Request(r) =>
        if r in w.receipts { StatusKeeps(cfg, w, r, w.receipts[r].(status := Syncing, syncStarted := w.clock)); }
      case RequestLost(r) => if r in w.receipts { StatusKeeps(cfg, w, r, w.receipts[r].(status := NeedsReview)); }
      case FoundDuplicate(r) =>
        if r in w.receipts { StatusKeeps(cfg, w, r, w.receipts[r].(status := DuplicateReview)); }
      case ResetToSynced(r) =>
        if r in w.receipts {
          StatusKeeps(cfg, w, r, w.receipts[r].(status := Synced, validation := w.receipts[r].validation + 1));
        }
      case Restart => RestartKeeps(cfg, w);
      case UserAdds(account, markers) => AddKeeps(cfg, w, account, markers);
      case UserEdits(t, account, markers) =>
        if t in w.ledger && !Refused(cfg, w.ledger, t, account) { PutKeeps(cfg, w, t, account, markers); }
      case UserDeletes(t) => if t in w.ledger { DeleteKeeps(cfg, w, t); }
      case Begin(id, r, force, allowUpdate, account, prior) =>
        if id !in w.workers && r in w.receipts {
          var key := Key(r, w.receipts[r].validation, force, allowUpdate);
          var loaded := Loaded(Some(w.receipts[r].status), None);
          BeginKeeps(cfg, w, id, Worker(key, account, prior, Begun, Running, Keep, Keep, loaded));
        }
      case _ =>
    }
  }

  lemma BeginKeeps(cfg: Config, w: World, id: WorkerId, worker: Worker)
    requires Inv(cfg, w) && id !in w.workers
    requires worker.key.receipt in w.receipts && worker.pc == Begun
    ensures Inv(cfg, w.(workers := w.workers[id := worker]))
  {
    hide LedgerOk;
  }

  lemma StepKeeps(cfg: Config, w: World, step: Step)
    requires Inv(cfg, w)
    ensures Inv(cfg, Perform(cfg, w, step))
  {
    hide Inv, WorkerStep, OutsideStep;
    match WorkerOf(step) {
      case None => OutsideStepKeeps(cfg, w, step);
      case Some(id) =>
        if id in w.workers && WorkerOk(w.workers[id], w.receipts, w.rows) {
          WorkerStepKeeps(cfg, w, id, step);
        }
    }
  }

  lemma {:induction false} RunKeeps(cfg: Config, w: World, steps: seq<Step>)
    requires Inv(cfg, w)
    ensures Inv(cfg, Run(cfg, w, steps))
  {
    if steps != [] {
      RunKeeps(cfg, w, steps[..|steps| - 1]);
      StepKeeps(cfg, Run(cfg, w, steps[..|steps| - 1]), steps[|steps| - 1]);
    }
  }
}
