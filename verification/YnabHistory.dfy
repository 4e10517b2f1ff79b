/**
 Where stored created ids come from: each was answered to the worker that stored it, between
 its claim and its commit.
 */
module YnabHistory {
  import opened Prelude
  import opened YnabLedger
  import opened YnabSync

  /** Past the claim of its row. */
  predicate HasClaimed(pc: Pc) { !pc.Begun? && !pc.Admitted? }

  /** How one step changes the created id a worker is about to store: not at all, to none, or to an answer. */
  ghost predicate DraftStep(before: Worker, after: Worker, ledger: Ledger) {
    || after.created == before.created
    || after.created == Set(None)
    || (after.created.Set? && after.created.id.Some? && Carries(ledger, after.created.id.value, after.key.receipt))
  }

  /** Where a worker that is there after a step was before it. */
  ghost predicate CameFrom(w: World, step: Step, w': World, id: WorkerId)
    requires id in w'.workers
  {
    var after := w'.workers[id];
    if id !in w.workers then after.pc == Begun && after.created == Keep
    else
      var before := w.workers[id];
      && after.key == before.key
      && if HasClaimed(before.pc) then HasClaimed(after.pc) && DraftStep(before, after, w'.ledger)
         else if HasClaimed(after.pc) then step == Claim(id) && after.created == Keep
         else after.created == before.created
  }

  lemma OwnStep(cfg: Config, w: World, id: WorkerId, step: Step)
    requires WorkerOf(step) == Some(id) && id in w.workers && WorkerOk(w.workers[id], w.receipts, w.rows)
    ensures var w' := WorkerStep(cfg, w, id, step); id in w'.workers ==> CameFrom(w, step, w', id)
  {
    hide Collides, Conflicts, MayRefuse, IsFresh, PriorGone;
  }

  /** A worker's step leaves the other workers alone. */
  lemma OthersStay(cfg: Config, w: World, id: WorkerId, step: Step, other: WorkerId)
    requires WorkerOf(step) == Some(id) && id in w.workers && WorkerOk(w.workers[id], w.receipts, w.rows)
    requires other != id
    ensures var w' := WorkerStep(cfg, w, id, step);
            && (other in w.workers <==> other in w'.workers)
            && (other in w.workers ==> w.workers[other] == w'.workers[other])
  {
    hide Collides, Conflicts, MayRefuse, IsFresh, PriorGone, Carries, IsLive;
  }

  lemma OutsideStepsStay(cfg: Config, w: World, step: Step, id: WorkerId)
    ensures var w' := OutsideStep(cfg, w, step);
            if id in w.workers then id in w'.workers && w'.workers[id] == w.workers[id]
            else id in w'.workers ==> w'.workers[id].pc == Begun && w'.workers[id].created == Keep
  {
    hide Refused, Collides, PriorOk, HasRestorable, ResetRows, ResetReceipts, AfterDraft, Put, SetStatus;
  }

  lemma EveryoneCameFrom(cfg: Config, w: World, step: Step, id: WorkerId)
    requires id in Perform(cfg, w, step).workers
    ensures CameFrom(w, step, Perform(cfg, w, step), id)
  {
    hide WorkerStep, OutsideStep;
    match WorkerOf(step) {
      case None => OutsideStepsStay(cfg, w, step, id);
      case Some(own) =>
        if own in w.workers && WorkerOk(w.workers[own], w.receipts, w.rows) {
          if own == id {
            OwnStep(cfg, w, own, step);
          } else {
            OthersStay(cfg, w, own, step, id);
          }
        }
    }
  }

  lemma OutsideStepsStore(cfg: Config, w: World, step: Step, key: Key, t: TxnId)
    requires var w' := OutsideStep(cfg, w, step); key in w'.rows && w'.rows[key].created == Some(t)
    ensures key in w.rows && w.rows[key].created == Some(t)
  {
    hide Refused, Collides, PriorOk, HasRestorable, ResetReceipts, AfterDraft, Put, SetStatus;
  }

  /** A created id appears in a row only by the last commit of a worker on that row. */
  lemma StoredByCommit(cfg: Config, w: World, step: Step, key: Key, t: TxnId)
    requires var w' := Perform(cfg, w, step); key in w'.rows && w'.rows[key].created == Some(t)
    requires !(key in w.rows && w.rows[key].created == Some(t))
    ensures step.Commit? || step.Fail?
    ensures step.w in w.workers && w.workers[step.w].key == key && w.workers[step.w].created == Set(Some(t))
    ensures HasClaimed(w.workers[step.w].pc)
  {
    hide OutsideStep, Updates, Creates, Resolves, IsFresh, PriorGone;
    if WorkerOf(step).None? {
      OutsideStepsStore(cfg, w, step, key, t);
    }
  }
}
