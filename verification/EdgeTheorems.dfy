/** What delivery guarantees, over every run of steps, failures and crashes. */
module EdgeTheorems {
  import opened Prelude
  import opened DeliveryRecords
  import opened EdgeDelivery

  lemma StartOk(cfg: Config)
    ensures Inv(cfg, Start())
  {
  }

  lemma Reachable(cfg: Config, steps: seq<Step>)
    ensures Inv(cfg, Run(cfg, Start(), steps))
  {
    StartOk(cfg);
    RunKeeps(cfg, Start(), steps);
  }

  // ---------- a name never changes its content ----------

  lemma OtherStepsKeepHistory(cfg: Config, w: World, step: Step)
    requires !step.Enqueue? && !step.RemoteMove?
    ensures Perform(cfg, w, step).origin == w.origin && Perform(cfg, w, step).landed == w.landed
  {
    hide Ingested, BeginSend, CopySome, CopyAll, Cleaned, Failed, SetLive, Move;
  }

  /** What a single step may do to the history. */
  lemma StepExtends(cfg: Config, w: World, step: Step)
    ensures var w' := Perform(cfg, w, step);
            && w.landed <= w'.landed
            && (forall n | n in w.origin :: n in w'.origin && w'.origin[n] == w.origin[n])
            && (forall n | n in w'.landed && n !in w.landed :: n in w'.incoming)
  {
    hide Ingested, BeginSend, CopySome, CopyAll, Cleaned, Failed, SetLive;
    match step {
      case Enqueue(name, content) =>
      case RemoteMove(t) =>
      case _ => OtherStepsKeepHistory(cfg, w, step);
    }
  }

  lemma {:induction false} OriginStays(cfg: Config, w: World, steps: seq<Step>, i: nat)
    requires i <= |steps|
    ensures forall n | n in Run(cfg, w, steps[..i]).origin ::
              n in Run(cfg, w, steps).origin && Run(cfg, w, steps).origin[n] == Run(cfg, w, steps[..i]).origin[n]
    decreases |steps|
  {
    hide Inv, Perform;
    var n := |steps| - 1;
    if i == |steps| {
      assert steps[..i] == steps;
    } else {
      OriginStays(cfg, w, steps[..n], i);
      assert steps[..n][..i] == steps[..i];
      StepExtends(cfg, Run(cfg, w, steps[..n]), steps[n]);
    }
  }

  /** Whatever is under a delivered name in incoming, now or later, is the whole file that was enqueued. */
  lemma {:induction false} DeliveredIsNeverReplacedOrPartial(cfg: Config, steps: seq<Step>, i: nat, name: Name)
    requires i <= |steps| && name in Run(cfg, Start(), steps[..i]).incoming
    ensures var seen, w := Run(cfg, Start(), steps[..i]), Run(cfg, Start(), steps);
            && name in w.origin && seen.incoming[name] == w.origin[name]
            && (name in w.incoming ==> w.incoming[name] == seen.incoming[name])
  {
    StartOk(cfg);
    Reachable(cfg, steps);
    Reachable(cfg, steps[..i]);
    OriginStays(cfg, Start(), steps, i);
  }

  // ---------- nothing is lost ----------

  /** A name that landed really was in incoming, complete, at some moment of the run. */
  lemma {:induction false} LandedMeansSeenInIncoming(cfg: Config, steps: seq<Step>, name: Name)
    requires name in Run(cfg, Start(), steps).landed
    ensures exists i :: 0 <= i <= |steps| && WasIn(cfg, steps, i, name)
  {
    hide Inv, Perform;
    if steps != [] {
      var n := |steps| - 1;
      var before := Run(cfg, Start(), steps[..n]);
      if name in before.landed {
        LandedMeansSeenInIncoming(cfg, steps[..n], name);
        var i :| 0 <= i <= n && WasIn(cfg, steps[..n], i, name);
        assert steps[..n][..i] == steps[..i];
        assert WasIn(cfg, steps, i, name);
      } else {
        StepExtends(cfg, before, steps[n]);
        assert steps[..n + 1] == steps;
        assert WasIn(cfg, steps, n + 1, name);
      }
    }
  }

  ghost predicate WasIn(cfg: Config, steps: seq<Step>, i: nat, name: Name)
    requires i <= |steps|
  {
    name in Run(cfg, Start(), steps[..i]).incoming
  }

  /** A file leaves the outbox, and is recorded as sent, only after its full content was in incoming. */
  lemma {:induction false} LeavesOutboxOnlyAfterDelivery(cfg: Config, steps: seq<Step>, name: Name)
    ensures var w := Run(cfg, Start(), steps);
            name in w.origin && (name !in w.outbox || (name in w.records && w.records[name].status == Sent)) ==>
              exists i :: 0 <= i <= |steps| && WasIn(cfg, steps, i, name)
                          && Run(cfg, Start(), steps[..i]).incoming[name] == w.origin[name]
  {
    var w := Run(cfg, Start(), steps);
    Reachable(cfg, steps);
    if name in w.origin && (name !in w.outbox || (name in w.records && w.records[name].status == Sent)) {
      assert name in w.landed;
      hide Inv, Run;
      LandedMeansSeenInIncoming(cfg, steps, name);
      var i :| 0 <= i <= |steps| && WasIn(cfg, steps, i, name);
      DeliveredIsNeverReplacedOrPartial(cfg, steps, i, name);
    }
  }

  /**
   Every enqueued file is accounted for: it waits whole in the outbox or in incoming, or
   the server took its content in and has it live unless a user deleted it. With an
   archive, what left the outbox is also there.
   */
  lemma {:induction false} EveryFileIsAccountedFor(cfg: Config, steps: seq<Step>, name: Name)
    requires name in Run(cfg, Start(), steps).origin
    ensures var w := Run(cfg, Start(), steps);
            var content := w.origin[name];
            && (|| (name in w.outbox && w.outbox[name] == content)
                || (name in w.incoming && w.incoming[name] == content)
                || (content in w.taken && (content in w.deleted || HasLive(w.receipts, content))))
            && (cfg.keepSent ==> name in w.outbox || content in w.archive)
  {
    Reachable(cfg, steps);
  }

  /** However often a file is delivered again, one content has at most one receipt row, live or not. */
  lemma {:induction false} OneReceiptPerContent(cfg: Config, steps: seq<Step>, a: ReceiptId, b: ReceiptId)
    ensures var receipts := Run(cfg, Start(), steps).receipts;
            a in receipts && b in receipts && receipts[a].content == receipts[b].content ==> a == b
  {
    Reachable(cfg, steps);
  }

  /**
   Ingesting a content that is live already changes no receipt; otherwise it ends with one live
   receipt, a new one.
   */
  lemma {:induction false} RedeliveryAddsNothing(cfg: Config, steps: seq<Step>, name: Name)
    requires name in Run(cfg, Start(), steps).incoming
    ensures var w := Run(cfg, Start(), steps);
            var w' := Perform(cfg, w, Ingest(name));
            && name !in w'.incoming && HasLive(w'.receipts, w.incoming[name])
            && (HasLive(w.receipts, w.incoming[name]) <==> w'.receipts == w.receipts)
  {
    var w := Run(cfg, Start(), steps);
    Reachable(cfg, steps);
    var content := w.incoming[name];
    var newId := ReceiptId(w.nextReceipt);
    assert forall a | a in w.receipts && w.receipts[a].content == content :: Holds(w.receipts, a, content);
    var w' := Perform(cfg, w, Ingest(name));
    assert newId !in w.receipts;
    if HasLive(w.receipts, content) {
      assert w'.receipts == w.receipts;
    } else {
      assert Holds(w'.receipts, newId, content);
    }
  }

  /** A new file waits in the outbox as it is; a name that was used before is not taken again. */
  lemma NewFilesWait(cfg: Config, w: World, name: Name, content: Bytes)
    ensures var after := Perform(cfg, w, Enqueue(name, content));
            if name in w.origin then after == w
            else name in after.outbox && after.outbox[name] == content && after.records == w.records
                 && forall n | n in w.outbox && n != name :: n in after.outbox && after.outbox[n] == w.outbox[n]
  {
  }

  /**
   What users do to receipts: soft deletion and restoring switch one row, a purge takes a
   soft-deleted row, and confirming a duplicate takes any; files are not touched.
   */
  lemma UsersChangeReceipts(cfg: Config, w: World, id: ReceiptId)
    requires id in w.receipts
    ensures Perform(cfg, w, SoftDelete(id)).receipts == w.receipts[id := Receipt(w.receipts[id].content, false)]
    ensures Perform(cfg, w, Restore(id)).receipts == w.receipts[id := Receipt(w.receipts[id].content, true)]
    ensures Perform(cfg, w, Purge(id)).receipts == if w.receipts[id].live then w.receipts else w.receipts - {id}
    ensures Perform(cfg, w, ConfirmDuplicate(id)).receipts == w.receipts - {id}
    ensures forall step | step in {SoftDelete(id), Restore(id), Purge(id), ConfirmDuplicate(id)} ::
              var after := Perform(cfg, w, step);
              && after.outbox == w.outbox && after.incoming == w.incoming && after.taken == w.taken
              && after.deleted == if step in {SoftDelete(id), ConfirmDuplicate(id)}
                                  then w.deleted + {w.receipts[id].content} else w.deleted
  {
    hide BeginSend, CopySome, CopyAll, Move, Cleaned, Failed, Ingested;
  }

  /** A copy that stops leaves a part of the file in a staging file of its own, and nothing under its name. */
  lemma StoppedCopyIsHidden(cfg: Config, w: World, length: nat)
    requires w.pc.Copying? && w.pc.temp.name in w.outbox && length <= |w.outbox[w.pc.temp.name]|
    ensures var t := w.pc.temp;
            var after := Perform(cfg, w, CopyPart(length));
            && t in after.staging && after.staging[t] <= w.outbox[t.name] && |after.staging[t]| == length
            && after.incoming == w.incoming && after.landed == w.landed && after.promotes == w.promotes
  {
  }

  // ---------- a delivery can always be completed, and sent can be forgotten ----------

  lemma RunSnoc(cfg: Config, w: World, steps: seq<Step>, step: Step)
    ensures Run(cfg, w, steps + [step]) == Perform(cfg, Run(cfg, w, steps), step)
  {
    assert (steps + [step])[..|steps|] == steps;
  }

  lemma {:induction false} RunConcat(cfg: Config, w: World, a: seq<Step>, b: seq<Step>)
    ensures Run(cfg, w, a + b) == Run(cfg, Run(cfg, w, a), b)
  {
    hide Perform;
    if b == [] {
      assert a + b == a;
    } else {
      var n := |b| - 1;
      RunConcat(cfg, w, a, b[..n]);
      assert a + b == (a + b[..n]) + [b[n]];
      RunSnoc(cfg, w, a + b[..n], b[n]);
    }
  }

  /** The steps of one undisturbed send up to the sent mark. */
  function Undisturbed(name: Name, token: nat, now: nat): seq<Step> {
    [Begin(name, now), DirsReady, RemoteNotSeen, CopyDone] + [RemoteMove(Temp(name, token)), MoveDone, RecordSent]
  }

  lemma CopiedSend(cfg: Config, w: World, name: Name, now: nat)
    requires Inv(cfg, w) && w.pc == Idle && name in w.outbox && Due(w.records, name, now)
    ensures var w' := Run(cfg, w, [Begin(name, now), DirsReady, RemoteNotSeen, CopyDone]);
            && w'.pc == Promoting(Temp(name, w.tokens)) && w'.pc.temp in w'.promotes
            && w'.pc.temp in w'.staging && w'.outbox == w.outbox
  {
    hide Inv, FilesOk, StagingOk, MarksOk, ReceiptsOk, TakenOk, LiveOk, ArchiveOk, Ingested, Run;
    RunEmpty(cfg, w);
    RunSnoc(cfg, w, [], Begin(name, now));
    assert [] + [Begin(name, now)] == [Begin(name, now)];
    var w1 := Run(cfg, w, [Begin(name, now)]);
    assert w1.pc == Preparing(name) && w1.outbox == w.outbox && w1.tokens == w.tokens;
    RunSnoc(cfg, w, [Begin(name, now)], DirsReady);
    assert [Begin(name, now)] + [DirsReady] == [Begin(name, now), DirsReady];
    RunSnoc(cfg, w, [Begin(name, now), DirsReady], RemoteNotSeen);
    assert [Begin(name, now), DirsReady] + [RemoteNotSeen] == [Begin(name, now), DirsReady, RemoteNotSeen];
    var copying := [Begin(name, now), DirsReady, RemoteNotSeen];
    RunSnoc(cfg, w, copying, CopyDone);
    assert copying + [CopyDone] == [Begin(name, now), DirsReady, RemoteNotSeen, CopyDone];
  }

  lemma RunEmpty(cfg: Config, w: World)
    ensures Run(cfg, w, []) == w
  {
  }

  lemma PromoteSteps(cfg: Config, w: World, t: Temp)
    requires w.pc == Promoting(t) && t in w.promotes
    ensures var moved := Perform(cfg, w, RemoteMove(t));
            var returned := Perform(cfg, moved, MoveDone);
            returned.pc == Marking(t.name) && returned.outbox == w.outbox
  {
    hide Ingested, BeginSend, CopySome, CopyAll, Cleaned, Failed, SetLive;
  }

  lemma RecordStep(cfg: Config, w: World, name: Name)
    requires w.pc == Marking(name)
    ensures var w' := Perform(cfg, w, RecordSent);
            && w'.pc == Cleaning(name, true) && w'.outbox == w.outbox
            && name in w'.records && w'.records[name].status == Sent
  {
    hide Ingested, BeginSend, CopySome, CopyAll, Cleaned, Failed, SetLive, Move;
  }

  lemma PromotedSend(cfg: Config, w: World, t: Temp)
    requires w.pc == Promoting(t) && t in w.promotes
    ensures var w' := Run(cfg, w, [RemoteMove(t), MoveDone, RecordSent]);
            && w'.pc == Cleaning(t.name, true) && w'.outbox == w.outbox
            && t.name in w'.records && w'.records[t.name].status == Sent
  {
    hide Run, Perform;
    RunEmpty(cfg, w);
    RunSnoc(cfg, w, [], RemoteMove(t));
    assert [] + [RemoteMove(t)] == [RemoteMove(t)];
    RunSnoc(cfg, w, [RemoteMove(t)], MoveDone);
    assert [RemoteMove(t)] + [MoveDone] == [RemoteMove(t), MoveDone];
    PromoteSteps(cfg, w, t);
    RunSnoc(cfg, w, [RemoteMove(t), MoveDone], RecordSent);
    assert [RemoteMove(t), MoveDone] + [RecordSent] == [RemoteMove(t), MoveDone, RecordSent];
    RecordStep(cfg, Run(cfg, w, [RemoteMove(t), MoveDone]), t.name);
  }

  /** An undisturbed send marks the file sent, and has the cleanup before it. */
  lemma UndisturbedSendIsMarked(cfg: Config, w: World, name: Name, now: nat)
    requires Inv(cfg, w) && w.pc == Idle && name in w.outbox && Due(w.records, name, now)
    ensures var w' := Run(cfg, w, Undisturbed(name, w.tokens, now));
            && w'.pc == Cleaning(name, true) && w'.outbox == w.outbox
            && name in w'.records && w'.records[name].status == Sent
  {
    hide Inv, Run, Due;
    CopiedSend(cfg, w, name, now);
    PromotedSend(cfg, Run(cfg, w, [Begin(name, now), DirsReady, RemoteNotSeen, CopyDone]), Temp(name, w.tokens));
    RunConcat(cfg, w, [Begin(name, now), DirsReady, RemoteNotSeen, CopyDone],
              [RemoteMove(Temp(name, w.tokens)), MoveDone, RecordSent]);
  }

  /** The sent status is not final: a cleanup that fails after the mark puts the file up for another send. */
  lemma SentIsNotAbsorbing(cfg: Config, w: World, name: Name, now: nat)
    requires Inv(cfg, w) && w.pc == Idle && name in w.outbox && Due(w.records, name, now)
    ensures var sent := Run(cfg, w, Undisturbed(name, w.tokens, now));
            var again := Run(cfg, w, Undisturbed(name, w.tokens, now) + [Fail(now)]);
            && name in sent.records && sent.records[name].status == Sent
            && name in again.records && again.records[name].status == Retry
            && again.pc == Idle && name in again.outbox
  {
    hide Inv, Run, Backoff;
    UndisturbedSendIsMarked(cfg, w, name, now);
    RunSnoc(cfg, w, Undisturbed(name, w.tokens, now), Fail(now));
  }

  /** The time from which a file that was not sent may be tried. */
  function DueAt(rs: Records, name: Name): (t: nat)
    ensures (name in rs && rs[name].status == Sent) || Due(rs, name, t)
  {
    if name in rs && rs[name].nextRetry.Some? then rs[name].nextRetry.value else 0
  }

  /** The steps that get a file out of the outbox from wherever the sender was interrupted. */
  function Completion(w: World, name: Name): seq<Step> {
    if name in w.records && w.records[name].status == Sent then [Crash, Begin(name, 0), CleanUp]
    else [Crash] + (Undisturbed(name, w.tokens, DueAt(w.records, name)) + [CleanUp])
  }

  lemma SentCompletes(cfg: Config, w: World, name: Name)
    requires name in w.outbox && name in w.records && w.records[name].status == Sent
    ensures name !in Run(cfg, w, [Crash, Begin(name, 0), CleanUp]).outbox
  {
    hide Ingested, Run, CopySome, CopyAll, Move, Failed, SetLive, Due;
    RunEmpty(cfg, w);
    RunSnoc(cfg, w, [], Crash);
    assert [] + [Crash] == [Crash];
    RunSnoc(cfg, w, [Crash], Begin(name, 0));
    assert [Crash] + [Begin(name, 0)] == [Crash, Begin(name, 0)];
    var begun := Run(cfg, w, [Crash, Begin(name, 0)]);
    assert begun.pc == Cleaning(name, false) && begun.outbox == w.outbox;
    RunSnoc(cfg, w, [Crash, Begin(name, 0)], CleanUp);
    assert [Crash, Begin(name, 0)] + [CleanUp] == [Crash, Begin(name, 0), CleanUp];
  }

  lemma CrashStep(cfg: Config, w: World)
    ensures Perform(cfg, w, Crash) == w.(pc := Idle)
  {
  }

  lemma CleanUpStep(cfg: Config, w: World, name: Name)
    requires w.pc == Cleaning(name, true) && name in w.outbox
    ensures name !in Perform(cfg, w, CleanUp).outbox
  {
  }

  lemma UnsentCompletes(cfg: Config, w: World, name: Name, now: nat)
    requires Inv(cfg, w) && name in w.outbox && Due(w.records, name, now)
    ensures name !in Run(cfg, w, [Crash] + (Undisturbed(name, w.tokens, now) + [CleanUp])).outbox
  {
    hide Perform, Inv, Run, Due, Undisturbed;
    StepKeeps(cfg, w, Crash);
    var up := w.(pc := Idle);
    CrashStep(cfg, w);
    RunEmpty(cfg, w);
    RunSnoc(cfg, w, [], Crash);
    assert [] + [Crash] == [Crash];
    UndisturbedSendIsMarked(cfg, up, name, now);
    RunSnoc(cfg, up, Undisturbed(name, up.tokens, now), CleanUp);
    CleanUpStep(cfg, Run(cfg, up, Undisturbed(name, up.tokens, now)), name);
    RunConcat(cfg, w, [Crash], Undisturbed(name, up.tokens, now) + [CleanUp]);
  }

  /** Whatever went wrong before, a restart and an undisturbed pass complete the delivery. */
  lemma {:induction false} DeliveryCanAlwaysComplete(cfg: Config, steps: seq<Step>, name: Name)
    requires name in Run(cfg, Start(), steps).outbox
    ensures var w := Run(cfg, Start(), steps);
            name !in Run(cfg, Start(), steps + Completion(w, name)).outbox
  {
    var w := Run(cfg, Start(), steps);
    Reachable(cfg, steps);
    RunConcat(cfg, Start(), steps, Completion(w, name));
    hide Inv, Run, Due, Undisturbed;
    if name in w.records && w.records[name].status == Sent {
      SentCompletes(cfg, w, name);
    } else {
      UnsentCompletes(cfg, w, name, DueAt(w.records, name));
    }
  }
}
