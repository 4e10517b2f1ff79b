/** Undisturbed syncs as runs of the protocol, and the reachable run that doubles a transaction. */
module YnabScenarios {
  import opened Prelude
  import opened YnabLedger
  import opened YnabSync

  lemma RunSnoc(cfg: Config, w: World, steps: seq<Step>, step: Step)
    ensures Run(cfg, w, steps + [step]) == Perform(cfg, Run(cfg, w, steps), step)
  {
    assert (steps + [step])[..|steps|] == steps;
  }

  lemma RunNothing(cfg: Config, w: World)
    ensures Run(cfg, w, []) == w
  {
  }

  lemma {:induction false} RunConcat(cfg: Config, w: World, a: seq<Step>, b: seq<Step>)
    ensures Run(cfg, w, a + b) == Run(cfg, Run(cfg, w, a), b)
  {
    hide Perform;
    if b == [] {
      assert a + b == a;
    } else {
      var n := |b| - 1;
      RunConcat(cfg, w, a, b[..n]);
      assert a + b == (a + b[..n]) + [b[n]];
      RunSnoc(cfg, w, a + b[..n], b[n]);
    }
  }

  // ---------- what one step is ----------

  lemma ClaimStep(cfg: Config, w: World, id: WorkerId)
    requires id in w.workers && WorkerOk(w.workers[id], w.receipts, w.rows) && w.workers[id].pc == Admitted
    ensures Perform(cfg, w, Claim(id)) == Claims(w, id)
  {
    hide Claims, Settle, Verified, Updates, Creates, Resolves, IsFresh;
  }

  lemma VerifyStep(cfg: Config, w: World, id: WorkerId)
    requires id in w.workers && WorkerOk(w.workers[id], w.receipts, w.rows) && w.workers[id].pc == Claimed
    ensures Perform(cfg, w, Verify(id)) == Verified(w, id)
  {
    hide Claims, Settle, Verified, Updates, Creates, Resolves, IsFresh;
  }

  lemma CreateStep(cfg: Config, w: World, id: WorkerId)
    requires id in w.workers && WorkerOk(w.workers[id], w.receipts, w.rows) && w.workers[id].pc == Ready
    requires w.workers[id].prior.None? || w.workers[id].key.force
    ensures Perform(cfg, w, Create(id, false, false)) == Creates(w, id, false, false)
  {
    hide Claims, Settle, Verified, Updates, Creates, Resolves, IsFresh;
  }

  lemma UpdateStep(cfg: Config, w: World, id: WorkerId, t: TxnId)
    requires id in w.workers && WorkerOk(w.workers[id], w.receipts, w.rows) && w.workers[id].pc == Ready
    requires w.workers[id].prior == Some(Some(t)) && !w.workers[id].key.force && IsLive(w.ledger, t)
    ensures Perform(cfg, w, UpdatePrior(id, t, {}, true, false))
            == Updates(cfg, w, id, t, w.workers[id].account, {w.workers[id].key.receipt}, true, false)
  {
    hide Claims, Settle, Verified, Updates, Creates, Resolves, IsFresh;
    assert {} + {w.workers[id].key.receipt} == {w.workers[id].key.receipt};
  }

  lemma CommitStep(cfg: Config, w: World, id: WorkerId)
    requires id in w.workers && WorkerOk(w.workers[id], w.receipts, w.rows) && w.workers[id].pc == Written(true)
    ensures Perform(cfg, w, Commit(id)) == Settle(w, id, w.workers[id].status, true, Synced)
  {
    hide Claims, Settle, Verified, Updates, Creates, Resolves, IsFresh;
  }

  // ---------- up to the remote call ----------

  /** A worker starts on a row of its own and gets as far as the remote call. */
  function Opening(id: WorkerId, r: ReceiptId, force: bool, account: Account, prior: Option<Option<TxnId>>): seq<Step> {
    [Begin(id, r, force, true, account, prior), Insert(id), Claim(id), Verify(id)]
  }

  function KeyFor(w: World, r: ReceiptId, force: bool): Key
    requires r in w.receipts
  {
    Key(r, w.receipts[r].validation, force, true)
  }

  ghost predicate CanOpen(w: World, id: WorkerId, r: ReceiptId, force: bool, prior: Option<Option<TxnId>>) {
    && r in w.receipts && id !in w.workers
    && PriorOk(w.rows, r, prior) && KeyFor(w, r, force) !in w.rows
  }

  /** The world after the opening. */
  function Opened(w: World, id: WorkerId, r: ReceiptId, force: bool, account: Account,
                  prior: Option<Option<TxnId>>): World
    requires r in w.receipts
  {
    var key := KeyFor(w, r, force);
    w.(rows := w.rows[key := Row(Running, None, None, false, w.clock)],
       receipts := w.receipts[r := w.receipts[r].(status := Syncing, syncStarted := w.clock)],
       workers := w.workers[id := Worker(key, account, prior, Ready, Running, Keep, Keep,
                                           Loaded(None, Some(Running)))])
  }

  function Starting(w: World, r: ReceiptId, force: bool, account: Account, prior: Option<Option<TxnId>>): Worker
    requires r in w.receipts
  {
    Worker(KeyFor(w, r, force), account, prior, Begun, Running, Keep, Keep, Loaded(Some(w.receipts[r].status), None))
  }

  lemma BeginStep(cfg: Config, w: World, id: WorkerId, r: ReceiptId, force: bool, account: Account,
                  prior: Option<Option<TxnId>>)
    requires CanOpen(w, id, r, force, prior)
    ensures Perform(cfg, w, Begin(id, r, force, true, account, prior))
            == w.(workers := w.workers[id := Starting(w, r, force, account, prior)])
  {
    hide PriorOk;
  }

  lemma OpeningSteps(cfg: Config, w: World, id: WorkerId, r: ReceiptId, force: bool, account: Account,
                     prior: Option<Option<TxnId>>)
    requires CanOpen(w, id, r, force, prior)
    ensures Run(cfg, w, Opening(id, r, force, account, prior)) == Opened(w, id, r, force, account, prior)
  {
    hide PriorOk, Run, Perform;
    var key := KeyFor(w, r, force);
    var start := Starting(w, r, force, account, prior);
    var begin := Begin(id, r, force, true, account, prior);
    RunNothing(cfg, w);
    RunSnoc(cfg, w, [], begin);
    assert [] + [begin] == [begin];
    BeginStep(cfg, w, id, r, force, account, prior);
    RunSnoc(cfg, w, [begin], Insert(id));
    assert [begin] + [Insert(id)] == [begin, Insert(id)];
    InsertStep(cfg, w, id, start);
    RunSnoc(cfg, w, [begin, Insert(id)], Claim(id));
    assert [begin, Insert(id)] + [Claim(id)] == [begin, Insert(id), Claim(id)];
    RunSnoc(cfg, w, [begin, Insert(id), Claim(id)], Verify(id));
    assert [begin, Insert(id), Claim(id)] + [Verify(id)] == [begin, Insert(id), Claim(id), Verify(id)];
    ClaimAndVerify(cfg, w, id, start);
  }

  function AdmittedWorld(w: World, id: WorkerId, start: Worker): World {
    w.(rows := w.rows[start.key := Row(Running, None, None, false, w.clock)],
       workers := w.workers[id := start.(pc := Admitted, loaded := EXPIRED)])
  }

  lemma InsertStep(cfg: Config, w: World, id: WorkerId, start: Worker)
    requires start.pc == Begun && start.key !in w.rows && start.key.receipt in w.receipts
    ensures Perform(cfg, w.(workers := w.workers[id := start]), Insert(id)) == AdmittedWorld(w, id, start)
  {
    var w1 := w.(workers := w.workers[id := start]);
    var next := start.(pc := Admitted, loaded := EXPIRED);
    assert w1.workers[id := next] == w.workers[id := next];
    hide Updates, Creates, Resolves, Settle;
  }

  lemma ClaimAndVerify(cfg: Config, w: World, id: WorkerId, start: Worker)
    requires start.pc == Begun && start.key !in w.rows && start.key.receipt in w.receipts
    requires start.status == Running && start.created == Keep && start.matched == Keep
    ensures var w3 := Perform(cfg, AdmittedWorld(w, id, start), Claim(id));
            var r := start.key.receipt;
            Perform(cfg, w3, Verify(id))
            == w.(rows := w.rows[start.key := Row(Running, None, None, false, w.clock)],
                  receipts := w.receipts[r := w.receipts[r].(status := Syncing, syncStarted := w.clock)],
                  workers := w.workers[id := start.(pc := Ready, loaded := Loaded(None, Some(Running)))])
  {
    hide Perform;
    var w2 := AdmittedWorld(w, id, start);
    ClaimStep(cfg, w2, id);
    var w3 := Claims(w2, id);
    assert w3.rows == w2.rows;
    assert w3.workers == w.workers[id := start.(pc := Claimed, loaded := EXPIRED)];
    VerifyStep(cfg, w3, id);
    var next := start.(pc := Ready, loaded := Loaded(None, Some(Running)));
    assert w3.workers[id := next] == w.workers[id := next];
  }

  // ---------- an undisturbed forced create ----------

  function ForcedCreate(id: WorkerId, r: ReceiptId, account: Account, prior: Option<Option<TxnId>>): seq<Step> {
    Opening(id, r, true, account, prior) + [Create(id, false, false), Commit(id)]
  }

  /** The row, receipt and ledger after a create that went through. */
  function AfterCreate(w: World, r: ReceiptId, account: Account): World
    requires r in w.receipts
  {
    var t := TxnId(w.nextTxn);
    w.(rows := w.rows[KeyFor(w, r, true) := Row(Created, Some(t), None, true, w.clock)],
       receipts := w.receipts[r := w.receipts[r].(status := Synced, syncStarted := w.clock)],
       ledger := WithNew(w.ledger, t, r, account), nextTxn := w.nextTxn + 1)
  }

  /** Undisturbed, a forced sync creates one transaction, stores its id in a successful row, and ends synced. */
  lemma ForcedCreateSucceeds(cfg: Config, w: World, id: WorkerId, r: ReceiptId, account: Account,
                             prior: Option<Option<TxnId>>)
    requires CanOpen(w, id, r, true, prior) && !Conflicts(w.ledger, r, account)
    ensures Run(cfg, w, ForcedCreate(id, r, account, prior)) == AfterCreate(w, r, account)
  {
    OpeningSteps(cfg, w, id, r, true, account, prior);
    hide CanOpen, Run, Conflicts, MayRefuse;
    var ready := Opened(w, id, r, true, account, prior);
    RunConcat(cfg, w, Opening(id, r, true, account, prior), [Create(id, false, false), Commit(id)]);
    TwoSteps(cfg, ready, Create(id, false, false), Commit(id));
    CreateAndCommit(cfg, w, id, r, account, prior);
  }

  lemma TwoSteps(cfg: Config, w: World, a: Step, b: Step)
    ensures Run(cfg, w, [a, b]) == Perform(cfg, Perform(cfg, w, a), b)
  {
    hide Perform, Run;
    RunNothing(cfg, w);
    RunSnoc(cfg, w, [], a);
    RunSnoc(cfg, w, [a], b);
    assert [] + [a] == [a] && [a] + [b] == [a, b];
  }

  lemma CreateAndCommit(cfg: Config, w: World, id: WorkerId, r: ReceiptId, account: Account,
                        prior: Option<Option<TxnId>>)
    requires CanOpen(w, id, r, true, prior) && !Conflicts(w.ledger, r, account)
    ensures var created := Perform(cfg, Opened(w, id, r, true, account, prior), Create(id, false, false));
            Perform(cfg, created, Commit(id)) == AfterCreate(w, r, account)
  {
    hide PriorOk, Conflicts, MayRefuse, Perform;
    var ready := Opened(w, id, r, true, account, prior);
    var key := KeyFor(w, r, true);
    var t := TxnId(w.nextTxn);
    CreateStep(cfg, ready, id);
    var created := Creates(ready, id, false, false);
    assert created.workers[id] == Worker(key, account, prior, Written(true), Created, Set(Some(t)), Keep,
                                         Loaded(None, Some(Running)));
    CommitStep(cfg, created, id);
    var done := Settle(created, id, Created, true, Synced);
    assert done.workers == w.workers;
    assert done.rows == AfterCreate(w, r, account).rows;
    assert done.receipts == AfterCreate(w, r, account).receipts;
  }

  // ---------- an undisturbed update ----------

  function UpdateSync(id: WorkerId, r: ReceiptId, account: Account, t: TxnId): seq<Step> {
    Opening(id, r, false, account, Some(Some(t))) + [UpdatePrior(id, t, {}, true, false), Commit(id)]
  }

  /** Undisturbed, a sync after a success updates the transaction in place, and moves it to the draft's account. */
  lemma UpdateSyncMoves(cfg: Config, w: World, id: WorkerId, r: ReceiptId, account: Account, t: TxnId)
    requires CanOpen(w, id, r, false, Some(Some(t))) && IsLive(w.ledger, t) && !Refused(cfg, w.ledger, t, account)
    ensures var w' := Run(cfg, w, UpdateSync(id, r, account, t));
            && w'.ledger == Put(w.ledger, t, account, {r})
            && r in w'.receipts && w'.receipts[r].status == Synced
            && KeyFor(w, r, false) in w'.rows && w'.rows[KeyFor(w, r, false)].matched == Some(t)
  {
    OpeningSteps(cfg, w, id, r, false, account, Some(Some(t)));
    hide CanOpen, Run, Refused;
    var ready := Opened(w, id, r, false, account, Some(Some(t)));
    RunConcat(cfg, w, Opening(id, r, false, account, Some(Some(t))), [UpdatePrior(id, t, {}, true, false), Commit(id)]);
    TwoSteps(cfg, ready, UpdatePrior(id, t, {}, true, false), Commit(id));
    UpdateAndCommit(cfg, w, id, r, account, t);
  }

  lemma UpdateAndCommit(cfg: Config, w: World, id: WorkerId, r: ReceiptId, account: Account, t: TxnId)
    requires r in w.receipts && IsLive(w.ledger, t) && !Refused(cfg, w.ledger, t, account)
    ensures var ready := Opened(w, id, r, false, account, Some(Some(t)));
            var w' := Perform(cfg, Perform(cfg, ready, UpdatePrior(id, t, {}, true, false)), Commit(id));
            && w'.ledger == Put(w.ledger, t, account, {r})
            && r in w'.receipts && w'.receipts[r].status == Synced
            && KeyFor(w, r, false) in w'.rows && w'.rows[KeyFor(w, r, false)].matched == Some(t)
  {
    hide Refused, Perform;
    var ready := Opened(w, id, r, false, account, Some(Some(t)));
    UpdateStep(cfg, ready, id, t);
    var updated := Updates(cfg, ready, id, t, account, {r}, true, false);
    assert updated.workers[id].pc == Written(true) && updated.workers[id].key == KeyFor(w, r, false);
    CommitStep(cfg, updated, id);
  }

  // ---------- the doubling run ----------

  const W1 := WorkerId(1)
  const W2 := WorkerId(2)
  const W3 := WorkerId(3)

  /** A forced sync on one account, another after the draft changed account, and an update after it changed back. */
  function DoublingRun(r: ReceiptId, first: Account, second: Account): seq<Step> {
    [Upload(r)] + ForcedCreate(W1, r, first, None)
    + ([SaveDraft(r, true, false)] + ForcedCreate(W2, r, second, Some(Some(TxnId(0)))))
    + ([SaveDraft(r, true, false)] + UpdateSync(W3, r, first, TxnId(1)))
  }

  function Drafted(w: World, r: ReceiptId): World
    requires r in w.receipts
  {
    var s := w.receipts[r];
    w.(receipts := w.receipts[r := s.(status := AfterDraft(s.status, true, false), validation := s.validation + 1)])
  }

  lemma DraftThen(cfg: Config, w: World, r: ReceiptId, rest: seq<Step>)
    requires r in w.receipts
    ensures Run(cfg, w, [SaveDraft(r, true, false)] + rest) == Run(cfg, Drafted(w, r), rest)
  {
    hide Run;
    RunNothing(cfg, w);
    RunSnoc(cfg, w, [], SaveDraft(r, true, false));
    assert [] + [SaveDraft(r, true, false)] == [SaveDraft(r, true, false)];
    RunConcat(cfg, w, [SaveDraft(r, true, false)], rest);
  }

  /** The world after the two forced creates. */
  function Doubled(r: ReceiptId, first: Account, second: Account): World {
    AfterCreate(Drafted(AfterCreate(Uploaded(r), r, first), r), r, second)
  }

  function Uploaded(r: ReceiptId): World {
    Start().(receipts := map[r := ReceiptState(NeedsReview, 0, 0)])
  }

  lemma FirstCreate(cfg: Config, r: ReceiptId, first: Account)
    ensures Run(cfg, Start(), [Upload(r)] + ForcedCreate(W1, r, first, None)) == AfterCreate(Uploaded(r), r, first)
  {
    hide Run, Conflicts, Opening;
    RunNothing(cfg, Start());
    RunSnoc(cfg, Start(), [], Upload(r));
    assert [] + [Upload(r)] == [Upload(r)];
    RunConcat(cfg, Start(), [Upload(r)], ForcedCreate(W1, r, first, None));
    NoConflictAtFirst(r, first);
    ForcedCreateSucceeds(cfg, Uploaded(r), W1, r, first, None);
  }

  lemma NoConflictAtFirst(r: ReceiptId, account: Account)
    ensures !Conflicts(Uploaded(r).ledger, r, account)
  {
  }

  lemma SecondCreate(cfg: Config, r: ReceiptId, first: Account, second: Account)
    requires first != second
    ensures var steps := [SaveDraft(r, true, false)] + ForcedCreate(W2, r, second, Some(Some(TxnId(0))));
            Run(cfg, AfterCreate(Uploaded(r), r, first), steps) == Doubled(r, first, second)
  {
    hide Run, Opening;
    var w := AfterCreate(Uploaded(r), r, first);
    var rest := ForcedCreate(W2, r, second, Some(Some(TxnId(0))));
    DraftThen(cfg, w, r, rest);
    var drafted := Drafted(w, r);
    var key := KeyFor(Uploaded(r), r, true);
    assert key in drafted.rows && Success(drafted.rows[key].status) && TargetOf(drafted.rows[key]) == Some(TxnId(0));
    ForcedCreateSucceeds(cfg, drafted, W2, r, second, Some(Some(TxnId(0))));
  }

  /** Unless YNAB refuses moves, a run of the protocol ends with two live transactions of one receipt on one account. */
  lemma UnguardedRunsCanDouble(cfg: Config, r: ReceiptId, first: Account, second: Account)
    requires !cfg.guardsMoves && first != second
    ensures !OnePerAccount(Run(cfg, Start(), DoublingRun(r, first, second)).ledger)
  {
    hide Run, Opening;
    var a := [Upload(r)] + ForcedCreate(W1, r, first, None);
    var b := [SaveDraft(r, true, false)] + ForcedCreate(W2, r, second, Some(Some(TxnId(0))));
    var c := [SaveDraft(r, true, false)] + UpdateSync(W3, r, first, TxnId(1));
    FirstCreate(cfg, r, first);
    SecondCreate(cfg, r, first, second);
    RunConcat(cfg, Start(), a, b);
    RunConcat(cfg, Start(), a + b, c);
    var w := Doubled(r, first, second);
    DraftThen(cfg, w, r, UpdateSync(W3, r, first, TxnId(1)));
    ThirdSync(cfg, r, first, second);
    MovingCanDouble(r, first, second);
  }

  lemma ThirdSync(cfg: Config, r: ReceiptId, first: Account, second: Account)
    requires !cfg.guardsMoves && first != second
    ensures var w := Drafted(Doubled(r, first, second), r);
            && Run(cfg, w, UpdateSync(W3, r, first, TxnId(1))).ledger == Put(w.ledger, TxnId(1), first, {r})
            && w.ledger == WithNew(WithNew(map[], TxnId(0), r, first), TxnId(1), r, second)
  {
    hide Run, Opening;
    var w := Drafted(Doubled(r, first, second), r);
    var key := KeyFor(Drafted(AfterCreate(Uploaded(r), r, first), r), r, true);
    assert key in w.rows && Success(w.rows[key].status) && TargetOf(w.rows[key]) == Some(TxnId(1));
    UpdateSyncMoves(cfg, w, W3, r, first, TxnId(1));
  }

  // ---------- a success lost to a stale read ----------

  /**
   A first sync fails. Two workers then start on the same draft and both read the receipt as
   syncing and the row as failed. One syncs; only then the other claims, and crashes later.
   */
  function StaleRun(r: ReceiptId, account: Account): seq<Step> {
    [Upload(r), Begin(W1, r, true, true, account, None), Insert(W1), Claim(W1), Fail(W1), Request(r),
     Begin(W2, r, true, true, account, None), Admit(W2, false),
     Begin(W3, r, true, true, account, None), Admit(W3, false), Claim(W3), Verify(W3),
     Create(W3, false, false), Commit(W3), Claim(W2)]
  }

  function StaleKey(r: ReceiptId): Key { Key(r, 0, true, true) }

  /** The world while one receipt and one row are all there is. */
  function Small(r: ReceiptId, status: Status, row: Row, workers: Workers, ledger: Ledger, next: nat): World {
    World(0, map[r := ReceiptState(status, 0, 0)], map[StaleKey(r) := row], workers, ledger, next)
  }

  function Waiting(r: ReceiptId, account: Account): Worker {
    Worker(StaleKey(r), account, None, Admitted, Running, Keep, Keep, Loaded(Some(Syncing), Some(Failed)))
  }

  function FailedRow(): Row { Row(Failed, None, None, false, 0) }

  lemma StaleStep(cfg: Config, r: ReceiptId, account: Account, i: nat)
    requires i < 15
    ensures Run(cfg, Start(), StaleRun(r, account)[..i + 1])
            == Perform(cfg, Run(cfg, Start(), StaleRun(r, account)[..i]), StaleRun(r, account)[i])
  {
    hide Perform;
    var steps := StaleRun(r, account);
    RunSnoc(cfg, Start(), steps[..i], steps[i]);
    assert steps[..i] + [steps[i]] == steps[..i + 1];
  }

  /** The first sync fails, and another is asked for. */
  lemma StaleFirst(cfg: Config, r: ReceiptId, account: Account)
    ensures Run(cfg, Start(), StaleRun(r, account)[..6]) == Small(r, Syncing, FailedRow(), map[], map[], 0)
  {
    hide Run, Perform;
    var start := Worker(StaleKey(r), account, None, Begun, Running, Keep, Keep, Loaded(Some(NeedsReview), None));
    assert StaleRun(r, account)[..0] == [];
    RunNothing(cfg, Start());
    StaleStep(cfg, r, account, 0);
    StaleStep(cfg, r, account, 1);
    StaleStep(cfg, r, account, 2);
    StaleStep(cfg, r, account, 3);
    StaleStep(cfg, r, account, 4);
    StaleStep(cfg, r, account, 5);
    UploadStep(cfg, r);
    BeginStep(cfg, Uploaded(r), W1, r, true, account, None);
    InsertStep(cfg, Uploaded(r), W1, start);
    FailedSync(cfg, r, account, start);
  }

  lemma UploadStep(cfg: Config, r: ReceiptId)
    ensures Perform(cfg, Start(), Upload(r)) == Uploaded(r)
  {
  }

  lemma FailedSync(cfg: Config, r: ReceiptId, account: Account, start: Worker)
    requires start == Worker(StaleKey(r), account, None, Begun, Running, Keep, Keep, Loaded(Some(NeedsReview), None))
    ensures var claimed := Perform(cfg, AdmittedWorld(Uploaded(r), W1, start), Claim(W1));
            Perform(cfg, Perform(cfg, claimed, Fail(W1)), Request(r)) == Small(r, Syncing, FailedRow(), map[], map[], 0)
  {
    hide Perform;
    var w := AdmittedWorld(Uploaded(r), W1, start);
    ClaimStep(cfg, w, W1);
    var claimed := Claims(w, W1);
    FailStep(cfg, claimed, W1);
    var failed := Settle(claimed, W1, Failed, false, ErrorSync);
    assert failed == Small(r, ErrorSync, FailedRow(), map[], map[], 0);
    RequestStep(cfg, failed, r);
  }

  lemma FailStep(cfg: Config, w: World, id: WorkerId)
    requires id in w.workers && WorkerOk(w.workers[id], w.receipts, w.rows) && w.workers[id].pc == Claimed
    ensures Perform(cfg, w, Fail(id)) == Settle(w, id, Failed, w.rows[w.workers[id].key].applied, ErrorSync)
  {
    hide Claims, Settle, Verified, Updates, Creates, Resolves, IsFresh;
  }

  lemma RequestStep(cfg: Config, w: World, r: ReceiptId)
    requires r in w.receipts && w.receipts[r].status != Syncing
    ensures Perform(cfg, w, Request(r))
            == w.(receipts := w.receipts[r := w.receipts[r].(status := Syncing, syncStarted := w.clock)])
  {
  }

  /** A worker starts and finds the failed row free. */
  lemma WaitStep(cfg: Config, r: ReceiptId, account: Account, workers: Workers, id: WorkerId)
    requires id !in workers
    ensures var w := Small(r, Syncing, FailedRow(), workers, map[], 0);
            var begun := Perform(cfg, w, Begin(id, r, true, true, account, None));
            Perform(cfg, begun, Admit(id, false))
            == Small(r, Syncing, FailedRow(), workers[id := Waiting(r, account)], map[], 0)
  {
    hide Perform;
    var w := Small(r, Syncing, FailedRow(), workers, map[], 0);
    var started := Starting(w, r, true, account, None);
    BeginsOnFailed(cfg, w, r, account, id);
    AdmitStep(cfg, w.(workers := workers[id := started]), id);
    assert workers[id := started][id := Waiting(r, account)] == workers[id := Waiting(r, account)];
  }

  lemma BeginsOnFailed(cfg: Config, w: World, r: ReceiptId, account: Account, id: WorkerId)
    requires id !in w.workers && w == Small(r, Syncing, FailedRow(), w.workers, map[], 0)
    ensures Perform(cfg, w, Begin(id, r, true, true, account, None))
            == w.(workers := w.workers[id := Starting(w, r, true, account, None)])
  {
    assert !HasSuccess(w.rows, r);
  }

  lemma AdmitStep(cfg: Config, w: World, id: WorkerId)
    requires id in w.workers && WorkerOk(w.workers[id], w.receipts, w.rows) && w.workers[id].pc == Begun
    requires w.workers[id].key in w.rows && w.rows[w.workers[id].key].status != Running
    ensures var worker := w.workers[id];
            Perform(cfg, w, Admit(id, false))
            == w.(workers := w.workers[id := worker.(pc := Admitted,
                    loaded := Loaded(worker.loaded.receipt, Some(w.rows[worker.key].status)))])
  {
    hide Claims, Settle, Verified, Updates, Creates, Resolves;
  }

  /** Both workers wait to claim. */
  lemma StaleWaiting(cfg: Config, r: ReceiptId, account: Account)
    ensures Run(cfg, Start(), StaleRun(r, account)[..10])
            == Small(r, Syncing, FailedRow(), map[W2 := Waiting(r, account), W3 := Waiting(r, account)], map[], 0)
  {
    hide Run, Perform, Small;
    StaleFirst(cfg, r, account);
    StaleStep(cfg, r, account, 6);
    StaleStep(cfg, r, account, 7);
    WaitStep(cfg, r, account, map[], W2);
    StaleStep(cfg, r, account, 8);
    StaleStep(cfg, r, account, 9);
    var one: Workers := map[][W2 := Waiting(r, account)];
    WaitStep(cfg, r, account, one, W3);
    assert one[W3 := Waiting(r, account)] == map[W2 := Waiting(r, account), W3 := Waiting(r, account)];
  }

  /** One worker syncs while the other waits. */
  lemma OneSyncs(cfg: Config, r: ReceiptId, account: Account, w: World)
    requires w == Small(r, Syncing, FailedRow(), map[W2 := Waiting(r, account), W3 := Waiting(r, account)], map[], 0)
    ensures var ready := Perform(cfg, Perform(cfg, w, Claim(W3)), Verify(W3));
            Perform(cfg, Perform(cfg, ready, Create(W3, false, false)), Commit(W3))
            == Small(r, Synced, Row(Created, Some(TxnId(0)), None, true, 0), map[W2 := Waiting(r, account)],
                     WithNew(map[], TxnId(0), r, account), 1)
  {
    hide Perform;
    var waiting := map[W2 := Waiting(r, account)];
    var row := FailedRow().(status := Running);
    ClaimStep(cfg, w, W3);
    var claimed := Claims(w, W3);
    assert claimed == Small(r, Syncing, row, waiting[W3 := Waiting(r, account).(pc := Claimed, loaded := EXPIRED)],
                            map[], 0);
    VerifyStep(cfg, claimed, W3);
    var ready := Verified(claimed, W3);
    CreateStep(cfg, ready, W3);
    var created := Creates(ready, W3, false, false);
    CommitStep(cfg, created, W3);
    assert created.workers - {W3} == waiting;
  }

  /** So a reachable run ends with a synced receipt and no success behind it. */
  lemma StaleReadLosesSuccess(cfg: Config, r: ReceiptId, account: Account)
    ensures var w := Run(cfg, Start(), StaleRun(r, account));
            r in w.receipts && w.receipts[r].status == Synced && !HasSuccess(w.rows, r)
  {
    hide Run, Perform;
    StaleWaiting(cfg, r, account);
    StaleStep(cfg, r, account, 10);
    StaleStep(cfg, r, account, 11);
    StaleStep(cfg, r, account, 12);
    StaleStep(cfg, r, account, 13);
    var w := Run(cfg, Start(), StaleRun(r, account)[..10]);
    OneSyncs(cfg, r, account, w);
    StaleStep(cfg, r, account, 14);
    assert StaleRun(r, account)[..15] == StaleRun(r, account);
    var synced := Run(cfg, Start(), StaleRun(r, account)[..14]);
    ClaimStep(cfg, synced, W2);
  }
}
