/** The main results about the fire/water economy, each over every run. */
module FireTheorems {
  import opened Prelude
  import opened FireEconomy
  import opened FireReplay
  import opened FireRuns

  // ---------- what every run keeps ----------

  lemma ReachableOk(capacity: nat, fireUnits: nat, ops: seq<Op>)
    ensures Inv(Run(EmptyBoard(capacity, fireUnits), ops))
  {
    EmptyBoardOk(capacity, fireUnits);
    RunKeeps(EmptyBoard(capacity, fireUnits), ops);
  }

  /** Replaying the log from nothing gives the live week rows. */
  lemma {:induction false} EveryRunReplaysToLiveWeeks(capacity: nat, fireUnits: nat, ops: seq<Op>)
    ensures var b := Run(EmptyBoard(capacity, fireUnits), ops);
            SameFires(ReplayWeeks(b.log, KeysOf(b.log)), b.weeks)
  {
    ReachableOk(capacity, fireUnits, ops);
  }

  /** Water is earned minus spent, stays within capacity, and is what the log recomputes to. */
  lemma {:induction false} EveryRunRecomputesWater(capacity: nat, fireUnits: nat, ops: seq<Op>)
    ensures var b := Run(EmptyBoard(capacity, fireUnits), ops);
            && b.water == b.earned - b.spent && 0 <= b.water <= b.capacity
            && b.extinguished == b.spent
            && RecomputeWater(b.log, b.capacity) == WaterTally(b.water, b.earned, b.spent)
  {
    ReachableOk(capacity, fireUnits, ops);
  }

  /** Every effective fire is still active, was doused by hand, or was cleared by a burn. */
  lemma {:induction false} EveryRunConservesFlames(capacity: nat, fireUnits: nat, ops: seq<Op>)
    ensures var b := Run(EmptyBoard(capacity, fireUnits), ops);
            var t := FlameLedger(b.log, KeysOf(b.log));
            t.landed == TotalActive(b.weeks) + t.doused + t.cleared
  {
    ReachableOk(capacity, fireUnits, ops);
  }

  /** The board never carries more flames than the water capacity, and ash carries none. */
  lemma {:induction false} EveryRunCoversTheBoard(capacity: nat, fireUnits: nat, ops: seq<Op>)
    ensures var b := Run(EmptyBoard(capacity, fireUnits), ops);
            && TotalActive(b.weeks) <= capacity
            && forall w | w in b.weeks && b.weeks[w].burnt :: b.weeks[w].flames == 0
  {
    ReachableOk(capacity, fireUnits, ops);
    RunExtends(EmptyBoard(capacity, fireUnits), ops);
  }

  // ---------- what later operations never touch ----------

  /** b' comes after b: the log only grew, no old fire was doused late, ash stayed ash. */
  ghost predicate Extends(b: Board, b': Board) {
    && b.capacity == b'.capacity
    && b.log <= b'.log
    && KeysOf(b.log) <= KeysOf(b'.log)
    && (forall k | ForcedWaterKey(k) in KeysOf(b'.log) - KeysOf(b.log) :: k !in KeysOf(b.log))
    && (forall w | w in b.weeks :: w in b'.weeks && (b.weeks[w].burnt ==> b'.weeks[w].burnt))
  }

  lemma ExtendsTransitive(a: Board, b: Board, c: Board)
    requires Extends(a, b) && Extends(b, c)
    ensures Extends(a, c)
  {
    forall k | ForcedWaterKey(k) in KeysOf(c.log) - KeysOf(a.log) ensures k !in KeysOf(a.log) {
      if ForcedWaterKey(k) in KeysOf(b.log) {
        assert ForcedWaterKey(k) in KeysOf(b.log) - KeysOf(a.log);
      } else {
        assert ForcedWaterKey(k) in KeysOf(c.log) - KeysOf(b.log);
      }
    }
  }

  lemma KeysConcat(log: seq<Event>, more: seq<Event>)
    ensures KeysOf(log + more) == KeysOf(log) + KeysOf(more)
  {
    assert forall x :: x in log + more <==> x in log || x in more;
  }

  /** Operations that only append, and append no forced-douse key. */
  lemma PlainAppendExtends(b: Board, b': Board, more: seq<Event>)
    requires b'.capacity == b.capacity && b'.log == b.log + more
    requires forall e | e in more :: !e.key.ForcedWaterKey?
    requires forall w | w in b.weeks :: w in b'.weeks && (b.weeks[w].burnt ==> b'.weeks[w].burnt)
    ensures Extends(b, b')
  {
    KeysConcat(b.log, more);
  }

  lemma AutoDouseExtends(b: Board, week: Week, key: string, i: nat)
    requires UnitKey(key, i) !in KeysOf(b.log)
    ensures Extends(b, AutoDouse(b, week, key, i))
  {
    var more := AutoDouse(b, week, key, i).log[|b.log|..];
    KeysConcat(b.log, more);
  }

  lemma FireUnitExtends(b: Board, week: Week, key: string, i: nat)
    requires week in b.weeks
    ensures Extends(b, FireUnit(b, week, key, i))
  {
    hide Extends;
    var b' := FireUnit(b, week, key, i);
    if !b.weeks[week].burnt && UnitKey(key, i) !in KeysOf(b.log)
       && TotalActive(b.weeks) + 1 > b.water && b.water > 0 {
      AutoDouseExtends(b, week, key, i);
    } else {
      PlainAppendExtends(b, b', b'.log[|b.log|..]);
    }
  }

  lemma {:induction false} FireUnitsExtend(b: Board, week: Week, key: string, n: nat)
    requires week in b.weeks
    ensures Extends(b, FireUnits(b, week, key, n))
  {
    hide FireUnit;
    if n > 0 {
      var b1 := FireUnits(b, week, key, n - 1);
      FireUnitsExtend(b, week, key, n - 1);
      FireUnitExtends(b1, week, key, n - 1);
      ExtendsTransitive(b, b1, FireUnit(b1, week, key, n - 1));
    }
  }

  lemma PerformExtends(b: Board, op: Op)
    ensures Extends(b, Perform(b, op))
  {
    var b' := Perform(b, op);
    match op
    case OpFire(units, week, key) =>
      if units > 0 {
        var touched := Touch(b, week);
        PlainAppendExtends(b, touched, []);
        FireUnitsExtend(touched, week, key, units);
        ExtendsTransitive(b, touched, b');
      } else {
        PlainAppendExtends(b, b', []);
      }
    case OpAward(units, key) => PlainAppendExtends(b, b', b'.log[|b.log|..]);
    case OpDouse(units, key, scope) => PlainAppendExtends(b, b', b'.log[|b.log|..]);
  }

  lemma {:induction false} RunExtends(b: Board, ops: seq<Op>)
    ensures Extends(b, Run(b, ops))
  {
    hide Perform, Extends;
    if ops == [] {
      ExtendsSelf(b);
    } else {
      var b1 := Run(b, ops[..|ops| - 1]);
      RunExtends(b, ops[..|ops| - 1]);
      PerformExtends(b1, ops[|ops| - 1]);
      ExtendsTransitive(b, b1, Perform(b1, ops[|ops| - 1]));
    }
  }

  lemma ExtendsSelf(b: Board)
    ensures Extends(b, b)
  {
  }

  /** Replay looks keys up in the whole log, yet nothing appended later changes how earlier events replay. */
  lemma {:induction false} LaterEventsNeverChangeEarlierReplay(b: Board, ops: seq<Op>)
    ensures var b' := Run(b, ops);
            && b.log <= b'.log
            && ReplayWeeks(b.log, KeysOf(b'.log)) == ReplayWeeks(b.log, KeysOf(b.log))
            && FlameLedger(b.log, KeysOf(b'.log)) == FlameLedger(b.log, KeysOf(b.log))
  {
    RunExtends(b, ops);
    AppendFrame(b.log, KeysOf(Run(b, ops).log));
  }

  /** Ash stays ash with no flames, whatever happens later. */
  lemma {:induction false} BurntForever(b: Board, ops: seq<Op>, w: Week)
    requires Inv(b) && w in b.weeks && b.weeks[w].burnt
    ensures var b' := Run(b, ops);
            w in b'.weeks && b'.weeks[w] == WeekFire(0, true)
  {
    RunExtends(b, ops);
    RunKeeps(b, ops);
  }

  // ---------- a dry board ----------

  lemma FireUnitOnDryBoard(b: Board, week: Week, key: string, i: nat)
    requires week in b.weeks && b.water == 0
    ensures var b' := FireUnit(b, week, key, i);
            b'.water == 0 && TotalActive(b'.weeks) <= TotalActive(b.weeks)
  {
    if !b.weeks[week].burnt && UnitKey(key, i) !in KeysOf(b.log) {
      BurnClears(b, week, key, i);
    }
  }

  lemma {:induction false} FireUnitsOnDryBoard(b: Board, week: Week, key: string, n: nat)
    requires week in b.weeks && b.water == 0
    ensures var b' := FireUnits(b, week, key, n);
            b'.water == 0 && TotalActive(b'.weeks) <= TotalActive(b.weeks)
  {
    hide FireUnit, TotalActive;
    if n > 0 {
      FireUnitsOnDryBoard(b, week, key, n - 1);
      FireUnitOnDryBoard(FireUnits(b, week, key, n - 1), week, key, n - 1);
    }
  }

  /** Without water no call of add_fire raises the total: each burn takes at least the flame just landed. */
  lemma DryBoardNeverGrows(b: Board, units: int, week: Week, key: string)
    requires b.water == 0
    ensures TotalActive(AddFire(b, units, week, key).weeks) <= TotalActive(b.weeks)
  {
    if units > 0 {
      TotalAfterUpdate(b.weeks, week, RowAt(b.weeks, week));
      FireUnitsOnDryBoard(Touch(b, week), week, key, units);
    }
  }

  // ---------- retries ----------

  /** The first n units of this call have had their effect, or can have none. */
  ghost predicate Settled(b: Board, week: Week, key: string, n: nat) {
    && week in b.weeks
    && forall i | 0 <= i < n :: b.weeks[week].burnt || UnitKey(key, i) in KeysOf(b.log)
  }

  lemma FireUnitSettles(b: Board, week: Week, key: string, i: nat)
    requires week in b.weeks
    ensures Settled(b, week, key, i) ==> Settled(FireUnit(b, week, key, i), week, key, i + 1)
  {
    FireUnitExtends(b, week, key, i);
    var b' := FireUnit(b, week, key, i);
    if !b.weeks[week].burnt && UnitKey(key, i) !in KeysOf(b.log) {
      var e := b'.log[|b.log|];
      assert e.key == UnitKey(key, i) && e in b'.log;
    }
  }

  lemma {:induction false} AddFireSettles(b: Board, week: Week, key: string, n: nat)
    requires week in b.weeks
    ensures Settled(FireUnits(b, week, key, n), week, key, n)
  {
    hide FireUnit;
    if n > 0 {
      AddFireSettles(b, week, key, n - 1);
      FireUnitSettles(FireUnits(b, week, key, n - 1), week, key, n - 1);
    }
  }

  /** What a settled unit may still do: nothing, or one audit event. */
  ghost predicate Silent(b: Board, b': Board) {
    && b' == b.(log := b'.log)
    && b.log <= b'.log
    && forall e | e in b'.log[|b.log|..] :: e.FireAdded? && e.alreadyBurnt
  }

  lemma SilentTransitive(a: Board, b: Board, c: Board)
    requires Silent(a, b) && Silent(b, c)
    ensures Silent(a, c)
  {
    assert c.log[|a.log|..] == b.log[|a.log|..] + c.log[|b.log|..];
  }

  lemma SettledUnitIsSilent(b: Board, week: Week, key: string, i: nat)
    requires week in b.weeks && (b.weeks[week].burnt || UnitKey(key, i) in KeysOf(b.log))
    ensures Silent(b, FireUnit(b, week, key, i))
  {
  }

  lemma {:induction false} SettledUnitsAreSilent(b: Board, week: Week, key: string, n: nat, m: nat)
    requires Settled(b, week, key, m) && n <= m
    ensures Silent(b, FireUnits(b, week, key, n))
  {
    hide FireUnit, Silent;
    if n > 0 {
      var b1 := FireUnits(b, week, key, n - 1);
      SettledUnitsAreSilent(b, week, key, n - 1, m);
      FireUnitsExtend(b, week, key, n - 1);
      SilentKeepsWeeks(b, b1);
      SettledUnitIsSilent(b1, week, key, n - 1);
      SilentTransitive(b, b1, FireUnit(b1, week, key, n - 1));
    } else {
      SilentSelf(b);
    }
  }

  lemma SilentKeepsWeeks(b: Board, b': Board)
    requires Silent(b, b')
    ensures b'.weeks == b.weeks
  {
  }

  lemma SilentSelf(b: Board)
    ensures Silent(b, b)
  {
  }

  /**
   A retry of add_fire, after any other operations, changes no flames, no water, no
   counter and no burnt flag, whichever branch each unit now takes. At most it records
   audit events of a burnt week, which replay skips.
   */
  lemma {:induction false} RepeatedAddFireChangesNothing(b: Board, units: int, again: int,
                                                        week: Week, key: string, ops: seq<Op>)
    requires again <= units
    ensures var b1 := Run(AddFire(b, units, week, key), ops);
            var b2 := AddFire(b1, again, week, key);
            && b2 == b1.(log := b2.log)
            && b1.log <= b2.log
            && forall e | e in b2.log[|b1.log|..] :: e.FireAdded? && e.alreadyBurnt
  {
    if again > 0 {
      var b0 := AddFire(b, units, week, key);
      var b1 := Run(b0, ops);
      AddFireSettles(Touch(b, week), week, key, units);
      RunExtends(b0, ops);
      assert Settled(b1, week, key, units);
      assert Touch(b1, week) == b1;
      SettledUnitsAreSilent(b1, week, key, again, units);
    }
  }
}
