/** What syncing to YNAB guarantees, over every interleaving of workers, users, failures and crashes. */
module YnabTheorems {
  import opened Prelude
  import opened YnabLedger
  import opened YnabSync
  import opened YnabRuns
  import opened YnabHistory
  import opened YnabReceipts

  lemma Reachable(cfg: Config, steps: seq<Step>)
    ensures Inv(cfg, Run(cfg, Start(), steps))
  {
    assert Inv(cfg, Start());
    RunKeeps(cfg, Start(), steps);
  }

  // ---------- one transaction per account ----------

  /** The step moves a live transaction beside another of the same receipt, and nothing refuses it. */
  ghost predicate Doubles(cfg: Config, w: World, step: Step) {
    && !cfg.guardsMoves
    && match step
       case UserEdits(t, account, _) => t in w.ledger && Collides(w.ledger, t, account)
       case UpdatePrior(id, t, _, _, _) => UpdatesPrior(w, id, t) && Collides(w.ledger, t, w.workers[id].account)
       case UpdateMatched(id, t, preserve, _, _, _) =>
         !preserve && UpdatesMatch(w, id, t) && Collides(w.ledger, t, w.workers[id].account)
       case _ => false
  }

  ghost predicate UpdatesPrior(w: World, id: WorkerId, t: TxnId) {
    && id in w.workers && WorkerOk(w.workers[id], w.receipts, w.rows) && IsLive(w.ledger, t)
    && var worker := w.workers[id];
       && worker.pc == Ready && worker.prior.Some? && !worker.key.force
       && (worker.prior.value == Some(t) || PriorGone(worker, w.ledger))
  }

  ghost predicate UpdatesMatch(w: World, id: WorkerId, t: TxnId) {
    && id in w.workers && WorkerOk(w.workers[id], w.receipts, w.rows) && IsLive(w.ledger, t)
    && var worker := w.workers[id];
       worker.pc == Ready && worker.prior.None? && !worker.key.force && worker.key.allowUpdate
  }

  lemma PutOrRefusal(cfg: Config, ledger: Ledger, t: TxnId, account: Account, markers: set<ReceiptId>)
    requires OnePerAccount(ledger) && t in ledger
    ensures var after := if Refused(cfg, ledger, t, account) then ledger else Put(ledger, t, account, markers);
            OnePerAccount(after) <==> cfg.guardsMoves || !Collides(ledger, t, account)
  {
    hide OnePerAccount, Collides;
    PutKeepsOne(ledger, t, account, markers);
  }

  lemma OwnAccountNeverCollides(ledger: Ledger, t: TxnId)
    requires OnePerAccount(ledger) && t in ledger
    ensures !Collides(ledger, t, ledger[t].account)
  {
    if Collides(ledger, t, ledger[t].account) {
      var u :| u != t && Imported(ledger, u, ledger[t].importOf.value, ledger[t].account);
      assert Imported(ledger, t, ledger[t].importOf.value, ledger[t].account);
    }
  }

  lemma QuietSteps(cfg: Config, w: World, step: Step)
    requires !step.UserAdds? && !step.UserEdits? && !step.UserDeletes?
    requires !step.UpdatePrior? && !step.UpdateMatched? && !step.Create?
    ensures Perform(cfg, w, step).ledger == w.ledger
  {
    hide Updates, Creates, PriorOk, HasRestorable, ResetRows, ResetReceipts;
  }

  lemma PriorKeepsOneExactly(cfg: Config, w: World, step: Step)
    requires OnePerAccount(w.ledger) && step.UpdatePrior?
    ensures OnePerAccount(Perform(cfg, w, step).ledger) <==> !Doubles(cfg, w, step)
  {
    hide OnePerAccount, Collides, Refused, Put;
    if UpdatesPrior(w, step.w, step.target) {
      var worker := w.workers[step.w];
      PutOrRefusal(cfg, w.ledger, step.target, worker.account, step.markers + {worker.key.receipt});
    }
  }

  lemma MatchedKeepsOneExactly(cfg: Config, w: World, step: Step)
    requires OnePerAccount(w.ledger) && step.UpdateMatched?
    ensures OnePerAccount(Perform(cfg, w, step).ledger) <==> !Doubles(cfg, w, step)
  {
    hide OnePerAccount, Collides, Refused, Put;
    var id, t := step.w, step.target;
    if UpdatesMatch(w, id, t) {
      var r := w.workers[id].key.receipt;
      OwnAccountNeverCollides(w.ledger, t);
      PutOrRefusal(cfg, w.ledger, t, w.ledger[t].account, w.ledger[t].markers + {r});
      PutOrRefusal(cfg, w.ledger, t, w.workers[id].account, step.markers + {r});
    }
  }

  /**
   Whatever the remote does about moves: a step keeps one transaction per account exactly when it does
   not double one.
   */
  lemma StepKeepsOneExactly(cfg: Config, w: World, step: Step)
    requires OnePerAccount(w.ledger) && Bounded(w.ledger, w.nextTxn)
    ensures OnePerAccount(Perform(cfg, w, step).ledger) <==> !Doubles(cfg, w, step)
  {
    hide OnePerAccount, Collides, Conflicts, MayRefuse, PriorOk, HasRestorable, ResetRows, ResetReceipts, Updates;
    match step {
      case UserAdds(account, markers) => AddedKeepsOne(w.ledger, w.nextTxn, account, markers);
      case UserDeletes(t) => if t in w.ledger { DeletedKeepsOne(w.ledger, t); }
      case UserEdits(t, account, markers) => if t in w.ledger { PutOrRefusal(cfg, w.ledger, t, account, markers); }
      case UpdatePrior(_, _, _, _, _) => PriorKeepsOneExactly(cfg, w, step);
      case UpdateMatched(_, _, _, _, _, _) => MatchedKeepsOneExactly(cfg, w, step);
      case Create(id, _, _) =>
        if id in w.workers && !Conflicts(w.ledger, w.workers[id].key.receipt, w.workers[id].account) {
          CreateKeepsOne(w.ledger, w.nextTxn, w.workers[id].key.receipt, w.workers[id].account);
        }
      case _ => QuietSteps(cfg, w, step);
    }
  }

  lemma AddedKeepsOne(ledger: Ledger, next: nat, account: Account, markers: set<ReceiptId>)
    requires OnePerAccount(ledger) && Bounded(ledger, next)
    ensures OnePerAccount(ledger[TxnId(next) := Txn(account, None, markers, true)])
  {
    FewerKeepOne(ledger, ledger[TxnId(next) := Txn(account, None, markers, true)]);
  }

  lemma DeletedKeepsOne(ledger: Ledger, t: TxnId)
    requires OnePerAccount(ledger) && t in ledger
    ensures OnePerAccount(ledger[t := ledger[t].(live := false)])
  {
    FewerKeepOne(ledger, ledger[t := ledger[t].(live := false)]);
  }

  /** No step of the run doubles a transaction. */
  ghost predicate NeverDoubles(cfg: Config, steps: seq<Step>) {
    forall i | 0 <= i < |steps| :: !DoublesAt(cfg, steps, i)
  }

  ghost predicate DoublesAt(cfg: Config, steps: seq<Step>, i: nat)
    requires i < |steps|
  {
    Doubles(cfg, Run(cfg, Start(), steps[..i]), steps[i])
  }

  lemma {:induction false} OnePerAccountUnlessDoubled(cfg: Config, steps: seq<Step>)
    requires NeverDoubles(cfg, steps)
    ensures OnePerAccount(Run(cfg, Start(), steps).ledger)
  {
    if steps != [] {
      var n := |steps| - 1;
      var init := steps[..n];
      forall i | 0 <= i < n ensures !DoublesAt(cfg, init, i) {
        assert init[..i] == steps[..i];
        assert !DoublesAt(cfg, steps, i);
      }
      OnePerAccountUnlessDoubled(cfg, init);
      assert !DoublesAt(cfg, steps, n);
      Reachable(cfg, init);
      StepKeepsOneExactly(cfg, Run(cfg, Start(), init), steps[n]);
    }
  }

  ghost predicate OneAt(cfg: Config, steps: seq<Step>, k: nat)
    requires k <= |steps|
  {
    OnePerAccount(Run(cfg, Start(), steps[..k]).ledger)
  }

  /**
   All through a run an account holds at most one live transaction of a receipt exactly when no
   step doubles one; where YNAB refuses such moves that is every run.
   */
  lemma {:induction false} EveryRunKeepsOnePerAccount(cfg: Config, steps: seq<Step>)
    ensures (forall k: nat | k <= |steps| :: OneAt(cfg, steps, k)) <==> NeverDoubles(cfg, steps)
    ensures cfg.guardsMoves ==> NeverDoubles(cfg, steps) && OnePerAccount(Run(cfg, Start(), steps).ledger)
  {
    OneAllThroughExactly(cfg, steps);
    Reachable(cfg, steps);
    hide Run;
  }

  lemma {:induction false} OneAllThroughExactly(cfg: Config, steps: seq<Step>)
    ensures (forall k: nat | k <= |steps| :: OneAt(cfg, steps, k)) <==> NeverDoubles(cfg, steps)
  {
    hide Perform, OnePerAccount, Doubles;
    if steps == [] {
      OnePerAccountUnlessDoubled(cfg, steps);
      assert steps[..0] == steps;
    } else {
      var n := |steps| - 1;
      var init := steps[..n];
      OneAllThroughExactly(cfg, init);
      forall k: nat | k <= n ensures OneAt(cfg, init, k) == OneAt(cfg, steps, k) {
        assert init[..k] == steps[..k];
      }
      forall i: nat | i < n ensures DoublesAt(cfg, init, i) == DoublesAt(cfg, steps, i) {
        assert init[..i] == steps[..i];
      }
      if NeverDoubles(cfg, init) {
        OnePerAccountUnlessDoubled(cfg, init);
        LedgerBounded(cfg, init);
        StepKeepsOneExactly(cfg, Run(cfg, Start(), init), steps[n]);
        assert steps[..n + 1] == steps;
        assert OneAt(cfg, steps, n + 1) <==> !DoublesAt(cfg, steps, n);
      } else {
        var i: nat :| i < n && DoublesAt(cfg, init, i);
        assert DoublesAt(cfg, steps, i);
        var k: nat :| k <= n && !OneAt(cfg, init, k);
        assert !OneAt(cfg, steps, k);
      }
    }
  }

  // ---------- created ids ----------

  /** Worker id holds its claim of a row from step c to the state after n steps. */
  ghost predicate Holds(cfg: Config, steps: seq<Step>, id: WorkerId, key: Key, c: nat, n: nat)
    requires n <= |steps|
  {
    && c < n && steps[c] == Claim(id)
    && forall k: nat | c < k <= n :: HoldsAt(Run(cfg, Start(), steps[..k]), id, key)
  }

  ghost predicate HoldsAt(w: World, id: WorkerId, key: Key) {
    id in w.workers && w.workers[id].key == key && HasClaimed(w.workers[id].pc)
  }

  ghost predicate CarriedAt(cfg: Config, steps: seq<Step>, j: nat, t: TxnId, r: ReceiptId)
    requires j <= |steps|
  {
    Carries(Run(cfg, Start(), steps[..j]).ledger, t, r)
  }

  /** t was the receipt's at moment j, within a claim that reaches from step c to the state after n steps. */
  ghost predicate AnsweredWithin(cfg: Config, steps: seq<Step>, id: WorkerId, key: Key, t: TxnId,
                                 c: nat, j: nat, n: nat)
    requires n <= |steps|
  {
    Holds(cfg, steps, id, key, c, n) && c < j <= n && CarriedAt(cfg, steps, j, t, key.receipt)
  }

  /** What the run so far says about a worker that is there at its end. */
  ghost predicate WorkerHistory(cfg: Config, steps: seq<Step>, id: WorkerId)
    requires id in Run(cfg, Start(), steps).workers
  {
    var worker := Run(cfg, Start(), steps).workers[id];
    if !HasClaimed(worker.pc) then worker.created == Keep
    else
      && (exists c: nat :: Holds(cfg, steps, id, worker.key, c, |steps|))
      && (worker.created.Set? && worker.created.id.Some? ==>
            exists c: nat, j: nat :: AnsweredWithin(cfg, steps, id, worker.key, worker.created.id.value, c, j, |steps|))
  }

  lemma HoldsLonger(cfg: Config, steps: seq<Step>, id: WorkerId, key: Key, c: nat)
    requires steps != []
    requires Holds(cfg, steps[..|steps| - 1], id, key, c, |steps| - 1)
    requires HoldsAt(Run(cfg, Start(), steps), id, key)
    ensures Holds(cfg, steps, id, key, c, |steps|)
  {
    hide HoldsAt, Run;
    var n := |steps| - 1;
    forall k: nat | c < k <= |steps| ensures HoldsAt(Run(cfg, Start(), steps[..k]), id, key) {
      if k <= n {
        assert steps[..n][..k] == steps[..k];
      } else {
        assert steps[..k] == steps;
      }
    }
  }

  lemma HoldsFirst(cfg: Config, steps: seq<Step>, id: WorkerId, key: Key)
    requires steps != [] && steps[|steps| - 1] == Claim(id)
    requires HoldsAt(Run(cfg, Start(), steps), id, key)
    ensures Holds(cfg, steps, id, key, |steps| - 1, |steps|)
  {
    assert steps[..|steps|] == steps;
  }

  /** An answer of the last step, or of an earlier one, lies within the claim. */
  lemma AnsweredStays(cfg: Config, steps: seq<Step>, id: WorkerId, key: Key, t: TxnId, c: nat)
    requires steps != [] && Holds(cfg, steps, id, key, c, |steps|)
    ensures Carries(Run(cfg, Start(), steps).ledger, t, key.receipt) ==>
              AnsweredWithin(cfg, steps, id, key, t, c, |steps|, |steps|)
    ensures forall j: nat | c < j < |steps| && CarriedAt(cfg, steps[..|steps| - 1], j, t, key.receipt) ::
              AnsweredWithin(cfg, steps, id, key, t, c, j, |steps|)
  {
    hide HoldsAt, Run, Carries;
    assert steps[..|steps|] == steps;
    forall j: nat | c < j < |steps| && CarriedAt(cfg, steps[..|steps| - 1], j, t, key.receipt)
      ensures AnsweredWithin(cfg, steps, id, key, t, c, j, |steps|)
    {
      assert steps[..|steps| - 1][..j] == steps[..j];
    }
  }

  lemma {:induction false} EveryWorkerHasHistory(cfg: Config, steps: seq<Step>, id: WorkerId)
    requires id in Run(cfg, Start(), steps).workers
    ensures WorkerHistory(cfg, steps, id)
  {
    if steps != [] {
      var n := |steps| - 1;
      var before, after := Run(cfg, Start(), steps[..n]), Run(cfg, Start(), steps);
      EveryoneCameFrom(cfg, before, steps[n], id);
      if id in before.workers {
        EveryWorkerHasHistory(cfg, steps[..n], id);
        HistoryStep(cfg, steps, id);
      }
    }
  }

  lemma HoldsNow(w: World, id: WorkerId)
    requires id in w.workers && HasClaimed(w.workers[id].pc)
    ensures HoldsAt(w, id, w.workers[id].key)
  {
  }

  lemma HistoryStep(cfg: Config, steps: seq<Step>, id: WorkerId)
    requires steps != []
    requires id in Run(cfg, Start(), steps[..|steps| - 1]).workers && id in Run(cfg, Start(), steps).workers
    requires WorkerHistory(cfg, steps[..|steps| - 1], id)
    requires CameFrom(Run(cfg, Start(), steps[..|steps| - 1]), steps[|steps| - 1], Run(cfg, Start(), steps), id)
    ensures WorkerHistory(cfg, steps, id)
  {
    hide Run, HoldsAt, CarriedAt, Carries;
    var n := |steps| - 1;
    var before, after := Run(cfg, Start(), steps[..n]).workers[id], Run(cfg, Start(), steps).workers[id];
    var key := after.key;
    if HasClaimed(after.pc) {
      HoldsNow(Run(cfg, Start(), steps), id);
    }
    if HasClaimed(before.pc) {
      var c: nat :| Holds(cfg, steps[..n], id, key, c, n);
      HoldsLonger(cfg, steps, id, key, c);
      if after.created.Set? && after.created.id.Some? {
        var t := after.created.id.value;
        if after.created == before.created {
          var c', j: nat :| AnsweredWithin(cfg, steps[..n], id, key, t, c', j, n);
          HoldsLonger(cfg, steps, id, key, c');
          AnsweredStays(cfg, steps, id, key, t, c');
          assert AnsweredWithin(cfg, steps, id, key, t, c', j, |steps|);
        } else {
          AnsweredStays(cfg, steps, id, key, t, c);
          assert AnsweredWithin(cfg, steps, id, key, t, c, |steps|, |steps|);
        }
      }
    } else if HasClaimed(after.pc) {
      HoldsFirst(cfg, steps, id, key);
    }
  }

  /**
   Worker id, which claimed the row at step c, was answered t for its receipt at moment j, and
   stored it with its last commit, step i.
   */
  ghost predicate StoredAfterAnswer(cfg: Config, steps: seq<Step>, id: WorkerId, key: Key, t: TxnId,
                                    c: nat, j: nat, i: nat)
  {
    && i < |steps| && steps[i] in {Commit(id), Fail(id)}
    && AnsweredWithin(cfg, steps, id, key, t, c, j, i)
  }

  /**
   Every stored created id named, when it was saved, a transaction of the receipt: between the
   claim of the worker that stored it and its commit, YNAB held it live with the receipt's
   import id or marker.
   */
  lemma {:induction false} EveryCreatedIdWasTheReceipts(cfg: Config, steps: seq<Step>, key: Key)
    requires key in Run(cfg, Start(), steps).rows && Run(cfg, Start(), steps).rows[key].created.Some?
    ensures var t := Run(cfg, Start(), steps).rows[key].created.value;
            exists id: WorkerId, c: nat, j: nat, i: nat :: StoredAfterAnswer(cfg, steps, id, key, t, c, j, i)
  {
    hide Perform, Carries, WorkerHistory;
    if steps != [] {
      var n := |steps| - 1;
      var init := steps[..n];
      var before := Run(cfg, Start(), init);
      var t := Run(cfg, Start(), steps).rows[key].created.value;
      if key in before.rows && before.rows[key].created == Some(t) {
        EveryCreatedIdWasTheReceipts(cfg, init, key);
        var id: WorkerId, c: nat, j: nat, i: nat :| StoredAfterAnswer(cfg, init, id, key, t, c, j, i);
        SameWithin(cfg, steps, n, id, key, t, c, j, i);
        assert StoredAfterAnswer(cfg, steps, id, key, t, c, j, i);
      } else {
        StoredByCommit(cfg, before, steps[n], key, t);
        var id := steps[n].w;
        EveryWorkerHasHistory(cfg, init, id);
        var c, j := AnswerOf(cfg, init, id, t);
        SameWithin(cfg, steps, n, id, key, t, c, j, n);
        assert StoredAfterAnswer(cfg, steps, id, key, t, c, j, n);
      }
    }
  }

  lemma AnswerOf(cfg: Config, steps: seq<Step>, id: WorkerId, t: TxnId) returns (c: nat, j: nat)
    requires id in Run(cfg, Start(), steps).workers && WorkerHistory(cfg, steps, id)
    requires var worker := Run(cfg, Start(), steps).workers[id];
             HasClaimed(worker.pc) && worker.created == Set(Some(t))
    ensures AnsweredWithin(cfg, steps, id, Run(cfg, Start(), steps).workers[id].key, t, c, j, |steps|)
  {
    hide Run, AnsweredWithin, Holds;
    var key := Run(cfg, Start(), steps).workers[id].key;
    c, j :| AnsweredWithin(cfg, steps, id, key, t, c, j, |steps|);
  }

  /** What happened within the first n steps happened within the whole run. */
  lemma SameWithin(cfg: Config, steps: seq<Step>, n: nat, id: WorkerId, key: Key, t: TxnId, c: nat, j: nat, i: nat)
    requires i <= n <= |steps| && AnsweredWithin(cfg, steps[..n], id, key, t, c, j, i)
    ensures AnsweredWithin(cfg, steps, id, key, t, c, j, i)
  {
    hide Run, HoldsAt, Carries;
    forall k: nat | k <= n ensures steps[..n][..k] == steps[..k] {
    }
    forall k: nat | c < k <= i ensures HoldsAt(Run(cfg, Start(), steps[..k]), id, key) {
      assert steps[..n][..k] == steps[..k];
      assert HoldsAt(Run(cfg, Start(), steps[..n][..k]), id, key);
    }
  }

  // ---------- receipt status ----------

  ghost predicate SyncedAt(cfg: Config, steps: seq<Step>, k: nat)
    requires k <= |steps|
  {
    SyncedOk(Run(cfg, Start(), steps[..k]).receipts, Run(cfg, Start(), steps[..k]).rows)
  }

  ghost predicate LosesAt(cfg: Config, steps: seq<Step>, i: nat)
    requires i < |steps|
  {
    Loses(Run(cfg, Start(), steps[..i]), steps[i])
  }

  /** Step i is a commit of a worker that read a status somebody else has changed since. */
  ghost predicate StaleAt(cfg: Config, steps: seq<Step>, i: nat)
    requires i < |steps|
  {
    var w := Run(cfg, Start(), steps[..i]);
    Committed(w, steps[i]).Some? && ReadIsStale(w, WorkerOf(steps[i]).value)
  }

  /**
   All through a run a receipt is synced only while some sync row of it is a success, exactly
   when no commit takes the last success from under a receipt it leaves synced.
   */
  lemma {:induction false} SyncedMeansSomeSuccess(cfg: Config, steps: seq<Step>)
    ensures (forall k: nat | k <= |steps| :: SyncedAt(cfg, steps, k))
            <==> forall i: nat | i < |steps| :: !LosesAt(cfg, steps, i)
  {
    hide Perform, Loses, SyncedOk;
    if steps == [] {
      NothingSynced();
      assert steps[..0] == steps;
    } else {
      var n := |steps| - 1;
      var init := steps[..n];
      SyncedMeansSomeSuccess(cfg, init);
      forall k: nat | k <= n ensures SyncedAt(cfg, init, k) == SyncedAt(cfg, steps, k) {
        assert init[..k] == steps[..k];
      }
      forall i: nat | i < n ensures LosesAt(cfg, init, i) == LosesAt(cfg, steps, i) {
        assert init[..i] == steps[..i];
      }
      if forall i: nat | i < n :: !LosesAt(cfg, init, i) {
        assert init[..n] == init && SyncedAt(cfg, init, n);
        StepKeepsSyncedExactly(cfg, Run(cfg, Start(), init), steps[n]);
        assert steps[..n + 1] == steps;
        assert SyncedAt(cfg, steps, n + 1) <==> !LosesAt(cfg, steps, n);
      } else {
        var i: nat :| i < n && LosesAt(cfg, init, i);
        assert LosesAt(cfg, steps, i);
        var k: nat :| k <= n && !SyncedAt(cfg, init, k);
        assert !SyncedAt(cfg, steps, k);
      }
    }
  }

  lemma NothingSynced()
    ensures SyncedOk(Start().receipts, Start().rows)
  {
  }

  /** So it is in every run whose workers commit only on what they read last. */
  lemma {:induction false} SyncedUnlessStale(cfg: Config, steps: seq<Step>, r: ReceiptId)
    requires forall i: nat | i < |steps| :: !StaleAt(cfg, steps, i)
    ensures var w := Run(cfg, Start(), steps);
            r in w.receipts && w.receipts[r].status == Synced ==> HasSuccess(w.rows, r)
  {
    hide Run, LosesAt, StaleAt, HasSuccess;
    forall i: nat | i < |steps| ensures !LosesAt(cfg, steps, i) {
      if LosesAt(cfg, steps, i) {
        LosingIsStale(cfg, steps, i);
      }
    }
    SyncedMeansSomeSuccess(cfg, steps);
    assert steps[..|steps|] == steps && SyncedAt(cfg, steps, |steps|);
  }

  lemma LosingIsStale(cfg: Config, steps: seq<Step>, i: nat)
    requires i < |steps| && LosesAt(cfg, steps, i)
    ensures StaleAt(cfg, steps, i)
  {
    hide Run, Unbacks, ReadIsStale;
    Reachable(cfg, steps[..i]);
    OnlyStaleReadsLose(cfg, Run(cfg, Start(), steps[..i]), steps[i]);
  }

  // ---------- what syncing never does to YNAB ----------

  lemma CreatesAdds(w: World, id: WorkerId, refused: bool, lost: bool)
    requires Bounded(w.ledger, w.nextTxn) && id in w.workers
    ensures var after := Creates(w, id, refused, lost).ledger;
            forall t | t in w.ledger :: t in after && after[t] == w.ledger[t]
  {
  }

  lemma WorkerKeepsTransactions(cfg: Config, w: World, id: WorkerId, step: Step, t: TxnId)
    requires Bounded(w.ledger, w.nextTxn) && t in w.ledger
    requires id in w.workers && WorkerOk(w.workers[id], w.receipts, w.rows)
    ensures var after := WorkerStep(cfg, w, id, step).ledger;
            t in after && after[t].importOf == w.ledger[t].importOf && after[t].live == w.ledger[t].live
  {
    hide Creates, Updates, Bounded, IsFresh, PriorGone;
    match step {
      case Create(_, refused, lost) => CreatesAdds(w, id, refused, lost);
      case _ =>
    }
  }

  lemma UsersKeepTransactions(cfg: Config, w: World, step: Step, t: TxnId)
    requires Bounded(w.ledger, w.nextTxn) && t in w.ledger
    ensures var after := OutsideStep(cfg, w, step).ledger;
            && t in after && after[t].importOf == w.ledger[t].importOf
            && (after[t].live <==> w.ledger[t].live && step != UserDeletes(t))
  {
    hide Collides, PriorOk, HasRestorable, ResetRows, ResetReceipts, AfterDraft, SetStatus;
    assert t != TxnId(w.nextTxn);
  }

  /** Workers never delete a transaction and nobody changes an import id; only users delete. */
  lemma StepKeepsTransactions(cfg: Config, w: World, step: Step, t: TxnId)
    requires Bounded(w.ledger, w.nextTxn) && t in w.ledger
    ensures var after := Perform(cfg, w, step).ledger;
            && t in after && after[t].importOf == w.ledger[t].importOf
            && (after[t].live <==> w.ledger[t].live && step != UserDeletes(t))
  {
    hide WorkerStep, OutsideStep;
    match WorkerOf(step) {
      case None => UsersKeepTransactions(cfg, w, step, t);
      case Some(id) =>
        if id in w.workers && WorkerOk(w.workers[id], w.receipts, w.rows) {
          WorkerKeepsTransactions(cfg, w, id, step, t);
        }
    }
  }

  lemma LedgerBounded(cfg: Config, steps: seq<Step>)
    ensures var w := Run(cfg, Start(), steps); Bounded(w.ledger, w.nextTxn)
  {
    Reachable(cfg, steps);
  }

  /** Over a whole run a transaction keeps its import id. */
  lemma {:induction false} ImportIdsAreForever(cfg: Config, steps: seq<Step>, i: nat, t: TxnId)
    requires i <= |steps| && t in Run(cfg, Start(), steps[..i]).ledger
    ensures var before, after := Run(cfg, Start(), steps[..i]).ledger, Run(cfg, Start(), steps).ledger;
            t in after && after[t].importOf == before[t].importOf
    decreases |steps|
  {
    hide Perform, Inv;
    var n := |steps| - 1;
    if i == |steps| {
      assert steps[..i] == steps;
    } else {
      assert steps[..n][..i] == steps[..i];
      ImportIdsAreForever(cfg, steps[..n], i, t);
      LedgerBounded(cfg, steps[..n]);
      StepKeepsTransactions(cfg, Run(cfg, Start(), steps[..n]), steps[n], t);
    }
  }

  // ---------- a retried create ----------

  /** Ready to create, forced or without an earlier success. */
  ghost predicate AboutToCreate(w: World, id: WorkerId) {
    && id in w.workers && WorkerOk(w.workers[id], w.receipts, w.rows)
    && w.workers[id].pc == Ready && (w.workers[id].prior.None? || w.workers[id].key.force)
  }

  /**
   After a crash behind the remote write, or a forced create: a create for the same receipt
   and account adds nothing while the first transaction lives, and its conflict resolves to
   that transaction if nothing else carries the receipt's import id or marker.
   */
  lemma RetriedCreateFindsTheFirst(cfg: Config, w: World, id: WorkerId, t: TxnId, refused: bool)
    requires AboutToCreate(w, id) && Imported(w.ledger, t, w.workers[id].key.receipt, w.workers[id].account)
    ensures var w1 := Perform(cfg, w, Create(id, refused, false));
            && w1.ledger == w.ledger && w1.rows == w.rows
            && (var w2 := Perform(cfg, w1, Resolve(id, Some(t)));
                && w2.ledger == w.ledger && id in w2.workers
                && w2.workers[id].pc == Written(true) && w2.workers[id].created == Set(Some(t)))
            && forall u | !Carries(w.ledger, u, w.workers[id].key.receipt) ::
                 Perform(cfg, w1, Resolve(id, Some(u))) == w1
  {
    hide MayRefuse, Updates, PriorOk, HasRestorable, ResetRows, ResetReceipts;
    assert Conflicts(w.ledger, w.workers[id].key.receipt, w.workers[id].account);
    var w1 := Perform(cfg, w, Create(id, refused, false));
    assert w1.workers[id] == w.workers[id].(pc := Conflicted);
  }
}
