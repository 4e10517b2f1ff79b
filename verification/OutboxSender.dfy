/**
 The sender loop of shipper/sender.py, proved to be a run of the delivery protocol. What
 goes wrong during one send is a value given in advance.
 */
module OutboxSender {
  import opened Prelude
  import opened DeliveryRecords
  import opened EdgeDelivery

  /**
   The outcome of each command of one send: the copy may stop after some bytes, and the
   rename may run without its success being reported.
   */
  datatype Faults = Faults(dirsFail: bool, checkFails: bool, copyStops: Option<nat>,
                           moveRuns: bool, moveReports: bool, cleanupFails: bool)

  /** Nothing that a send needs fails: the file is seen at the other end, or copied and renamed. */
  predicate Succeeds(f: Faults, there: bool) {
    && !f.dirsFail && !f.cleanupFails
    && ((there && !f.checkFails) || (f.copyStops.None? && f.moveRuns && f.moveReports))
  }

  /** The file is seen at the other end, or the send does not get that far. */
  predicate SeenThere(f: Faults, there: bool) {
    f.dirsFail || (there && !f.checkFails)
  }

  /** No staging file was written or named. */
  predicate CopiesNothing(before: World, after: World) {
    after.staging == before.staging && after.tokens == before.tokens
  }

  /** Nothing but this name's file and record differ. */
  ghost predicate OnlyTouches(before: World, after: World, name: Name) {
    && (forall n | n != name :: n in before.outbox <==> n in after.outbox)
    && OthersSame(before.records, after.records, name)
  }

  /** The steps the sender takes for one name. */
  predicate Concerns(pc: Pc, step: Step, name: Name) {
    match step
    case Begin(n, _) => n == name
    case Enqueue(_, _) => false
    case _ => !OnServer(step) && match pc { case Cleaning(n, _) => n == name case _ => NameOf(pc) == Some(name) }
  }

  lemma SameTable(rs: Records, name: Name)
    ensures OthersSame(rs, rs, name)
  {
  }

  lemma QuietStep(cfg: Config, w: World, step: Step)
    requires !OnServer(step)
    requires !step.Enqueue? && !step.Begin? && !step.RecordSent? && !step.CleanUp? && !step.Fail?
    ensures var w' := DeviceStep(cfg, w, step); w'.outbox == w.outbox && w'.records == w.records
  {
    hide CopySome, CopyAll, Move;
  }

  lemma StepTouchesOne(cfg: Config, w: World, step: Step, name: Name)
    requires Concerns(w.pc, step, name)
    ensures OnlyTouches(w, DeviceStep(cfg, w, step), name)
  {
    hide Due, Backoff, OthersSame, CopySome, CopyAll, Move, Ensured, Retried, MarkedSent;
    SameTable(w.records, name);
    match step {
      case Begin(_, _) =>
      case RecordSent =>
      case CleanUp =>
      case Fail(_) =>
      case _ => QuietStep(cfg, w, step);
    }
  }

  lemma TouchesTransitive(a: World, b: World, c: World, name: Name)
    requires OnlyTouches(a, b, name) && OnlyTouches(b, c, name)
    ensures OnlyTouches(a, c, name)
  {
  }

  /** One more step makes a longer run. */
  lemma StepInRun(cfg: Config, start: World, trace: seq<Step>, step: Step, name: Name, base: World)
    requires Inv(cfg, start)
    requires var w := Run(cfg, start, trace); Concerns(w.pc, step, name) && OnlyTouches(base, w, name)
    ensures !OnServer(step)
    ensures var w := Run(cfg, start, trace);
            var w' := DeviceStep(cfg, w, step);
            && Run(cfg, start, trace + [step]) == w'
            && Inv(cfg, w') && OnlyTouches(base, w', name)
  {
    hide Inv, OnlyTouches, DeviceStep;
    var w := Run(cfg, start, trace);
    assert (trace + [step])[..|trace|] == trace;
    RunKeeps(cfg, start, trace);
    StepKeeps(cfg, w, step);
    StepTouchesOne(cfg, w, step, name);
    TouchesTransitive(base, w, DeviceStep(cfg, w, step), name);
  }

  class RsyncSender {
    const cfg: Config
    var world: World
    ghost var start: World
    ghost var trace: seq<Step>

    /** The world is what the protocol makes of the start by the steps taken. */
    ghost predicate Valid()
      reads this
    {
      Inv(cfg, start) && world == Run(cfg, start, trace)
    }

    constructor (cfg: Config, w: World)
      requires Inv(cfg, w)
      ensures Valid() && this.cfg == cfg && world == start == w && trace == []
    {
      this.cfg := cfg;
      world, start, trace := w, w, [];
    }

    /** One step of the protocol, for one name. */
    method Do(step: Step, name: Name, ghost base: World)
      requires Valid() && Concerns(world.pc, step, name) && OnlyTouches(base, world, name)
      modifies this`world, this`trace
      ensures Valid() && OnlyTouches(base, world, name) && Inv(cfg, world)
      ensures world == DeviceStep(cfg, old(world), step) && trace == old(trace) + [step]
    {
      hide Inv, DeviceStep, OnlyTouches, Run, Concerns;
      StepInRun(cfg, start, trace, step, name, base);
      world := DeviceStep(cfg, world, step);
      trace := trace + [step];
    }

    /** The rename command: it may not run, or run without its success being seen. */
    method Promote(temp: Temp, f: Faults, ghost base: World) returns (ok: bool)
      requires Valid() && world.pc == Promoting(temp) && temp in world.promotes
      requires OnlyTouches(base, world, temp.name)
      modifies this`world, this`trace
      ensures Valid() && OnlyTouches(base, world, temp.name)
      ensures world.outbox == old(world.outbox) && world.records == old(world.records)
      ensures if ok then world.pc == Marking(temp.name) else NameOf(world.pc) == Some(temp.name)
      ensures ok <==> f.moveRuns && f.moveReports
    {
      hide Inv, Run, OnlyTouches, Due, Backoff, BeginSend, Failed, Cleaned, CopySome, CopyAll;
      if f.moveRuns {
        Do(RemoteMove(temp), temp.name, base);
      }
      if !f.moveRuns || !f.moveReports {
        return false;
      }
      assert world.pc == Promoting(temp) && temp !in world.promotes;
      Do(MoveDone, temp.name, base);
      ok := true;
    }

    /** Copy to a staging file of its own, then rename it into place. */
    method Upload(name: Name, f: Faults, ghost base: World) returns (ok: bool)
      requires Valid() && world.pc == Checking(name) && name in world.outbox
      requires OnlyTouches(base, world, name)
      modifies this`world, this`trace
      ensures Valid() && OnlyTouches(base, world, name)
      ensures world.outbox == old(world.outbox) && world.records == old(world.records)
      ensures if ok then world.pc == Marking(name) else NameOf(world.pc) == Some(name)
      ensures ok <==> f.copyStops.None? && f.moveRuns && f.moveReports
    {
      hide Inv, Run, OnlyTouches, Due, Backoff, BeginSend, Failed, Cleaned, Move;
      Do(RemoteNotSeen, name, base);
      var temp := world.pc.temp;
      if f.copyStops.Some? {
        Do(CopyPart(f.copyStops.value), name, base);
        return false;
      }
      Do(CopyDone, name, base);
      ok := Promote(temp, f, base);
    }

    /** Record the file as sent, then clean it up. */
    method Finish(name: Name, f: Faults, ghost base: World) returns (ok: bool)
      requires Valid() && world.pc == Marking(name) && name in world.outbox && name in world.records
      requires OnlyTouches(base, world, name)
      modifies this`world, this`trace
      ensures Valid() && OnlyTouches(base, world, name)
      ensures name in world.records
      ensures world.records[name] == old(world.records[name]).(status := Sent, nextRetry := None)
      ensures ok <==> !f.cleanupFails
      ensures world.staging == old(world.staging) && world.tokens == old(world.tokens)
      ensures if ok then world.pc == Idle && name !in world.outbox && name in world.landed
              else world.pc == Cleaning(name, true) && name in world.outbox
    {
      hide Inv, Run, OnlyTouches, Due, BeginSend, CopySome, CopyAll, Move, Failed;
      Do(RecordSent, name, base);
      if f.cleanupFails {
        return false;
      }
      MarkedHasLanded(cfg, world);
      Do(CleanUp, name, base);
      ok := true;
    }

    /** The body of the try block: how far one send gets. */
    method Attempt(name: Name, f: Faults, ghost base: World) returns (ok: bool)
      requires Valid() && world.pc == Preparing(name) && name in world.outbox && name in world.records
      requires OnlyTouches(base, world, name)
      modifies this`world, this`trace
      ensures Valid() && OnlyTouches(base, world, name)
      ensures name in world.records && world.records[name].attempts == old(world.records[name].attempts)
      ensures if ok then
                world.pc == Idle && name !in world.outbox && name in world.landed && world.records[name].status == Sent
              else NameOf(world.pc) == Some(name) && name in world.outbox
      ensures ok <==> Succeeds(f, name in old(world.incoming))
      ensures SeenThere(f, name in old(world.incoming)) ==> CopiesNothing(old(world), world)
    {
      hide Inv, Run, OnlyTouches, Due, BeginSend, CopySome, CopyAll, Move, Failed, Cleaned;
      if f.dirsFail {
        return false;
      }
      Do(DirsReady, name, base);
      if !f.checkFails && name in world.incoming {
        Do(RemoteSeen, name, base);
      } else {
        var uploaded := Upload(name, f, base);
        if !uploaded {
          return false;
        }
      }
      ok := Finish(name, f, base);
    }

    /** _send_one: a failure anywhere marks the file for a retry. */
    method SendOne(name: Name, now: nat, f: Faults, ghost base: World) returns (ok: bool)
      requires Valid() && world.pc == Preparing(name) && name in world.outbox && name in world.records
      requires OnlyTouches(base, world, name)
      modifies this`world, this`trace
      ensures Valid() && OnlyTouches(base, world, name) && world.pc == Idle && name in world.records
      ensures ok <==> Succeeds(f, name in old(world.incoming))
      ensures SeenThere(f, name in old(world.incoming)) ==> CopiesNothing(old(world), world)
      ensures ok ==> name !in world.outbox && name in world.landed && world.records[name].status == Sent
      ensures !ok ==> name in world.outbox
                      && var n := old(world.records[name].attempts) + 1;
                         var backoff := Backoff(n, cfg.initialBackoff, cfg.maxBackoff);
                         world.records[name] == Record(Retry, n, Some(now + backoff))
    {
      hide Inv, Run, OnlyTouches, Due, Backoff;
      ok := Attempt(name, f, base);
      if !ok {
        Do(Fail(now), name, base);
      }
    }

    /**
     send_available over a listing of the outbox. After a full pass nothing listed is left
     to do now: it is out of the outbox, or it waits for its retry. An unguarded cleanup
     that fails ends the pass like a crash.
     */
    method SendAvailable(names: seq<Name>, now: nat, faults: seq<Faults>)
      returns (summary: Summary, completed: bool, ghost turns: seq<Turn>)
      requires Valid() && world.pc == Idle && |faults| == |names|
      requires forall i | 0 <= i < |names| :: names[i] in world.outbox
      requires forall i, j | 0 <= i < j < |names| :: names[i] != names[j]
      requires cfg.initialBackoff > 0 && cfg.maxBackoff > 0
      modifies this`world, this`trace
      ensures Valid() && world.pc == Idle
      ensures summary == Summary(Count(turns, Delivered), Count(turns, NotDelivered), Count(turns, Skipped))
      ensures |turns| <= |names| && forall i | 0 <= i < |turns| :: TurnOk(old(world), world, names[i], now, turns[i])
      ensures completed ==> |turns| == |names| && forall i | 0 <= i < |names| :: Settled(world, names[i], now)
      ensures forall n | n !in names :: n in world.outbox <==> n in old(world.outbox)
    {
      hide Inv, Run, Due, Settled, DeviceStep, TurnOk, OnlyTouches, Count;
      turns, summary := [], Summary(0, 0, 0);
      NoTurns();
      for i := 0 to |names|
        invariant Valid() && world.pc == Idle && |turns| == i
        invariant summary == Summary(Count(turns, Delivered), Count(turns, NotDelivered), Count(turns, Skipped))
        invariant forall k | 0 <= k < i :: Settled(world, names[k], now)
        invariant forall k | 0 <= k < i :: TurnOk(old(world), world, names[k], now, turns[k])
        invariant forall k | i <= k < |names| :: SameFor(old(world), world, names[k])
        invariant forall n | n !in names :: n in world.outbox <==> n in old(world.outbox)
      {
        ghost var before := world;
        assert names[i] in world.outbox by {
          SameOutbox(old(world), world, names[i]);
        }
        var turn := SendIfDue(names[i], now, faults[i]);
        forall k | 0 <= k < |names| && k != i
          ensures SameFor(before, world, names[k])
        {
          TouchesNotOther(before, world, names[i], names[k]);
        }
        forall k | 0 <= k < i
          ensures Settled(world, names[k], now) && TurnOk(old(world), world, names[k], now, turns[k])
        {
          TurnStays(old(world), before, world, names[k], now, turns[k]);
        }
        forall k | i < k < |names| ensures SameFor(old(world), world, names[k]) {
          SameTransitive(old(world), before, world, names[k]);
        }
        OutboxOfOthers(before, world, names[i]);
        if turn == Broken {
          return summary, false, turns;
        }
        TurnFrom(old(world), before, world, names[i], now, turn);
        CountSnoc(turns, turn);
        turns := turns + [turn];
        match turn {
          case Delivered => summary := summary.(sent := summary.sent + 1);
          case NotDelivered => summary := summary.(failed := summary.failed + 1);
          case Skipped => summary := summary.(skipped := summary.skipped + 1);
        }
      }
      completed := true;
    }

    /** One turn of the loop. */
    method SendIfDue(name: Name, now: nat, f: Faults) returns (turn: Turn)
      requires Valid() && world.pc == Idle && name in world.outbox
      requires cfg.initialBackoff > 0 && cfg.maxBackoff > 0
      modifies this`world, this`trace
      ensures Valid() && world.pc == Idle && OnlyTouches(old(world), world, name)
      ensures turn != Broken ==> Settled(world, name, now) && TurnOk(old(world), world, name, now, turn)
    {
      hide Inv, Run, OnlyTouches, Backoff, CopySome, CopyAll, Move, Failed;
      ghost var base := world;
      NothingTouched(world, name);
      Do(Begin(name, now), name, base);
      if world.pc == Cleaning(name, false) {
        if f.cleanupFails {
          Do(Crash, name, base);
          return Broken;
        }
        Do(CleanUp, name, base);
        return Skipped;
      }
      if world.pc == Idle {
        return Skipped;
      }
      var ok := SendOne(name, now, f, base);
      BackoffIsPositive(world.records[name].attempts, cfg.initialBackoff, cfg.maxBackoff);
      turn := if ok then Delivered else NotDelivered;
    }
  }

  /**
   What a turn says about its name: it is tried exactly when due; delivered means gone and
   landed, not delivered means still there; skipped means cleaned up if it was sent, else untouched.
   */
  ghost predicate TurnOk(before: World, after: World, name: Name, now: nat, turn: Turn) {
    && (turn == Delivered || turn == NotDelivered <==> Due(before.records, name, now))
    && (turn == Delivered ==> name !in after.outbox && name in after.records && after.records[name].status == Sent)
    && (turn == NotDelivered ==> name in after.outbox && name in after.records && after.records[name].status == Retry)
    && (turn == Skipped ==>
          && name in before.records && name in after.records && after.records[name] == before.records[name]
          && (name in after.outbox <==> before.records[name].status != Sent))
    && turn != Broken
  }

  function Count(turns: seq<Turn>, t: Turn): nat {
    if turns == [] then 0 else Count(turns[..|turns| - 1], t) + if turns[|turns| - 1] == t then 1 else 0
  }

  lemma NoTurns()
    ensures forall t :: Count([], t) == 0
  {
  }

  lemma CountSnoc(turns: seq<Turn>, turn: Turn)
    ensures forall t :: Count(turns + [turn], t) == Count(turns, t) + if turn == t then 1 else 0
  {
    assert (turns + [turn])[..|turns|] == turns;
  }

  /** The worlds agree on this name's file and record. */
  ghost predicate SameFor(a: World, b: World, name: Name) {
    && (name in a.outbox <==> name in b.outbox)
    && (name in a.records <==> name in b.records)
    && (name in a.records ==> a.records[name] == b.records[name])
  }

  lemma SameOutbox(a: World, b: World, name: Name)
    requires SameFor(a, b, name)
    ensures name in a.outbox <==> name in b.outbox
  {
  }

  lemma SameTransitive(a: World, b: World, c: World, name: Name)
    requires SameFor(a, b, name) && SameFor(b, c, name)
    ensures SameFor(a, c, name)
  {
  }

  lemma TouchesNotOther(before: World, after: World, touched: Name, name: Name)
    requires OnlyTouches(before, after, touched) && name != touched
    ensures SameFor(before, after, name)
  {
  }

  lemma OutboxOfOthers(before: World, after: World, touched: Name)
    requires OnlyTouches(before, after, touched)
    ensures forall n | n != touched :: n in before.outbox <==> n in after.outbox
  {
  }

  lemma TurnStays(start: World, before: World, after: World, name: Name, now: nat, turn: Turn)
    requires Settled(before, name, now) && TurnOk(start, before, name, now, turn) && SameFor(before, after, name)
    ensures Settled(after, name, now) && TurnOk(start, after, name, now, turn)
  {
  }

  lemma TurnFrom(start: World, before: World, after: World, name: Name, now: nat, turn: Turn)
    requires SameFor(start, before, name) && TurnOk(before, after, name, now, turn)
    ensures TurnOk(start, after, name, now, turn)
  {
  }

  datatype Turn = Delivered | NotDelivered | Skipped | Broken

  datatype Summary = Summary(sent: nat, failed: nat, skipped: nat)

  /** Nothing to do for this name now. */
  ghost predicate Settled(w: World, name: Name, now: nat) {
    name in w.outbox ==> !Due(w.records, name, now)
  }

  lemma NothingTouched(w: World, name: Name)
    ensures OnlyTouches(w, w, name)
  {
  }

  lemma BackoffIsPositive(attempt: int, initial: nat, limit: nat)
    requires initial > 0 && limit > 0
    ensures Backoff(attempt, initial, limit) > 0
  {
    TimesMonotone(initial, 1, Power2(Min(Max(1, attempt) - 1, 20)));
  }

  lemma MarkedHasLanded(cfg: Config, w: World)
    requires Inv(cfg, w) && w.pc.Cleaning?
    ensures w.pc.name in w.landed
  {
  }
}
