/**
 services/correctness.py in its own form: an object whose methods update the water
 counters, the week rows and the event log in place. Each method is tied to the state
 machine of FireEconomy, whose runs are what FireTheorems talks about.
 */
module GameBoards {
  import opened Prelude
  import opened FireEconomy
  import opened FireRuns

  /** How many fires the log counts, and how many burns. */
  function CountFires(log: seq<Event>): nat {
    if log == [] then 0
    else CountFires(log[..|log| - 1]) + if log[|log| - 1].FireAdded? && !log[|log| - 1].alreadyBurnt then 1 else 0
  }

  function CountBurns(log: seq<Event>): nat {
    if log == [] then 0
    else CountBurns(log[..|log| - 1]) + if log[|log| - 1].WeekBurned? then 1 else 0
  }

  /** The counts add_fire reports (fires_extinguished and waters_spent repeat forcedWatersSpent). */
  datatype FireSummary = FireSummary(firesAdded: nat, forcedWatersSpent: nat, burnsTriggered: nat)

  class GameBoard {
    const capacity: nat
    var waterUnits: int
    var waterEarned: int
    var waterSpent: int
    var fireExtinguished: int
    var fireUnits: int
    var weeks: map<Week, WeekFire>
    var log: seq<Event>

    ghost function Snapshot(): Board
      reads this
    {
      Board(capacity, waterUnits, waterEarned, waterSpent, fireExtinguished, fireUnits, weeks, log)
    }

    ghost predicate Valid()
      reads this
    {
      Inv(Snapshot())
    }

    constructor (capacity: nat, legacyFireUnits: nat)
      ensures Valid() && Snapshot() == EmptyBoard(capacity, legacyFireUnits)
    {
      this.capacity := capacity;
      waterUnits, waterEarned, waterSpent, fireExtinguished := 0, 0, 0, 0;
      fireUnits, weeks, log := legacyFireUnits, map[], [];
    }

    /** _record_event: appends unless the key is taken. */
    method RecordEvent(e: Event) returns (recorded: bool)
      modifies `log
      ensures recorded == (e.key !in old(KeysOf(log)))
      ensures log == if recorded then old(log) + [e] else old(log)
      ensures KeysOf(log) == old(KeysOf(log)) + {e.key}
      ensures CountFires(log) == old(CountFires(log)) + if recorded && e.FireAdded? && !e.alreadyBurnt then 1 else 0
      ensures CountBurns(log) == old(CountBurns(log)) + if recorded && e.WeekBurned? then 1 else 0
    {
      recorded := e.key !in KeysOf(log);
      if recorded {
        KeysSnoc(log, e);
        log := log + [e];
        assert log[..|log| - 1] == old(log);
      }
    }

    /** get_total_active_flames. */
    method GetTotalActiveFlames() returns (total: nat)
      ensures total == TotalActive(weeks)
    {
      total := 0;
      var todo := weeks.Keys;
      while todo != {}
        invariant todo <= weeks.Keys
        invariant total + SumFlames(weeks, todo) == TotalActive(weeks)
        decreases todo
      {
        ghost var some := AnElement(todo);
        var w :| w in todo;
        SumSplit(weeks, todo, w);
        if !weeks[w].burnt {
          total := total + weeks[w].flames;
        }
        todo := todo - {w};
      }
    }

    method AddFire(units: int, week: Week, key: string) returns (r: FireSummary)
      requires Valid()
      modifies this
      ensures Snapshot() == old(FireEconomy.AddFire(Snapshot(), units, week, key))
      ensures Valid()
      ensures waterUnits == old(waterUnits) - r.forcedWatersSpent
      ensures CountFires(log) == old(CountFires(log)) + r.firesAdded
      ensures CountBurns(log) == old(CountBurns(log)) + r.burnsTriggered
    {
      hide FireUnit, Inv, CountFires, CountBurns;
      ghost var before := Snapshot();
      PerformKeeps(before, OpFire(units, week, key));
      r := FireSummary(0, 0, 0);
      if units <= 0 {
        return;
      }
      weeks := weeks[week := RowAt(weeks, week)];
      ghost var start := Snapshot();
      TouchKeeps(before, week);
      var i := 0;
      while i < units
        invariant 0 <= i <= units
        invariant start == Touch(before, week) && week in weeks
        invariant Snapshot() == FireUnits(start, week, key, i)
        invariant waterUnits == before.water - r.forcedWatersSpent
        invariant CountFires(log) == CountFires(before.log) + r.firesAdded
        invariant CountBurns(log) == CountBurns(before.log) + r.burnsTriggered
      {
        FireUnitsKeep(start, week, key, i);
        var s := AddOneFire(week, key, i);
        r := FireSummary(r.firesAdded + s.firesAdded, r.forcedWatersSpent + s.forcedWatersSpent,
                         r.burnsTriggered + s.burnsTriggered);
        i := i + 1;
      }
    }

    /** The body of add_fire's loop: one unit, in the source's order of branches. */
    method AddOneFire(week: Week, key: string, i: nat) returns (s: FireSummary)
      requires Valid() && week in weeks
      modifies this
      ensures Snapshot() == old(FireUnit(Snapshot(), week, key, i)) && week in weeks
      ensures waterUnits == old(waterUnits) - s.forcedWatersSpent
      ensures CountFires(log) == old(CountFires(log)) + s.firesAdded
      ensures CountBurns(log) == old(CountBurns(log)) + s.burnsTriggered
    {
      hide Inv, TotalActive, CountFires, CountBurns, Land, FireEconomy.AutoDouse, Burn;
      s := FireSummary(0, 0, 0);
      if weeks[week].burnt {
        var _ := RecordEvent(FireAdded(BurntWeekKey(key, i), week, true));
        return;
      }
      InvUnfold(Snapshot());
      var totalActive := GetTotalActiveFlames();
      if totalActive + 1 <= waterUnits {
        s := LandFlame(week, key, i);
      } else if waterUnits > 0 {
        s := AutoDouse(week, key, i);
      } else {
        s := BurnWorst(week, key, i);
      }
    }

    /** Covered: the flame lands, no water spent. */
    method LandFlame(week: Week, key: string, i: nat) returns (s: FireSummary)
      requires week in weeks
      modifies this
      ensures Snapshot() == old(if UnitKey(key, i) in KeysOf(log) then Snapshot() else Land(Snapshot(), week, key, i))
      ensures KeysOf(log) == old(KeysOf(log)) + {UnitKey(key, i)}
      ensures waterUnits == old(waterUnits) && week in weeks
      ensures s == FireSummary(if UnitKey(key, i) in old(KeysOf(log)) then 0 else 1, 0, 0)
      ensures CountFires(log) == old(CountFires(log)) + s.firesAdded
      ensures CountBurns(log) == old(CountBurns(log))
    {
      hide CountFires, CountBurns, KeysOf;
      var newFlames := weeks[week].flames + 1;
      s := FireSummary(0, 0, 0);
      var recorded := RecordEvent(FireAdded(UnitKey(key, i), week, false));
      if recorded {
        weeks := weeks[week := weeks[week].(flames := newFlames)];
        s := FireSummary(1, 0, 0);
      }
    }

    /** Uncovered, but there is water: one droplet smothers the incoming flame. */
    method AutoDouse(week: Week, key: string, i: nat) returns (s: FireSummary)
      requires KeysOk(log) && week in weeks
      modifies this
      ensures Snapshot() == old(if UnitKey(key, i) in KeysOf(log) then Snapshot()
                                else FireEconomy.AutoDouse(Snapshot(), week, key, i))
      ensures s == if UnitKey(key, i) in old(KeysOf(log)) then FireSummary(0, 0, 0) else FireSummary(1, 1, 0)
      ensures waterUnits == old(waterUnits) - s.forcedWatersSpent && week in weeks
      ensures CountFires(log) == old(CountFires(log)) + s.firesAdded
      ensures CountBurns(log) == old(CountBurns(log))
    {
      hide CountFires, CountBurns, KeysOf, KeysOk;
      var fire := UnitKey(key, i);
      FreshDerivedKeys(log, key, i);
      s := FireSummary(0, 0, 0);
      var recorded := RecordEvent(FireAdded(fire, week, false));
      if recorded {
        waterUnits, waterSpent, fireExtinguished := waterUnits - 1, waterSpent + 1, fireExtinguished + 1;
        s := FireSummary(1, 1, 0);
        var _ := RecordEvent(WaterSpent(ForcedWaterKey(fire), Some(week), 1, true));
        var _ := RecordEvent(FireExtinguished(ForcedExtinguishedKey(fire), Some(week), 1));
      }
    }

    /** No water left: the flame lands, then the worst week burns. */
    method BurnWorst(week: Week, key: string, i: nat) returns (s: FireSummary)
      requires KeysOk(log) && week in weeks && !weeks[week].burnt
      modifies this
      ensures Snapshot() == old(if UnitKey(key, i) in KeysOf(log) then Snapshot() else Burn(Snapshot(), week, key, i))
      ensures s == if UnitKey(key, i) in old(KeysOf(log)) then FireSummary(0, 0, 0) else FireSummary(1, 0, 1)
      ensures waterUnits == old(waterUnits) && week in weeks
      ensures CountFires(log) == old(CountFires(log)) + s.firesAdded
      ensures CountBurns(log) == old(CountBurns(log)) + s.burnsTriggered
    {
      hide CountFires, CountBurns, KeysOf, KeysOk, TotalActive;
      FreshDerivedKeys(log, key, i);
      s := LandFlame(week, key, i);
      if s.firesAdded == 1 {
        var victim := WorstWeek(weeks, week);
        var flamesCleared := weeks[victim].flames;
        weeks := weeks[victim := WeekFire(0, true)];
        var recorded := RecordEvent(WeekBurned(BurnedKey(victim, key, i), victim, flamesCleared));
        s := FireSummary(1, 0, 1);
      }
    }

    method AwardWater(units: int, key: string) returns (added: int)
      requires Valid()
      modifies this
      ensures Snapshot() == old(FireEconomy.AwardWater(Snapshot(), units, key))
      ensures Valid()
      ensures 0 <= added && waterUnits == old(waterUnits) + added
    {
      hide Inv, CountFires, CountBurns, KeysOf, KeysOk;
      PerformKeeps(Snapshot(), OpAward(units, key));
      InvUnfold(Snapshot());
      if units <= 0 || AwardKey(key) in KeysOf(log) {
        return 0;
      }
      var before := waterUnits;
      waterUnits := Min(waterUnits + units, capacity);
      added := Max(waterUnits - before, 0);
      if added <= 0 {
        return 0;
      }
      waterEarned := waterEarned + added;
      var _ := RecordEvent(WaterEarned(AwardKey(key), added));
    }

    /** Returns what was spent: waters_spent and fires_extinguished are the same number. */
    method SpendWaterToExtinguish(units: int, key: string, scope: Option<Week>) returns (spent: int)
      requires Valid()
      modifies this
      ensures Snapshot() == old(ManualDouse(Snapshot(), units, key, scope))
      ensures Valid()
      ensures 0 <= spent && waterUnits == old(waterUnits) - spent
    {
      hide Inv, CountFires, CountBurns, KeysOf, KeysOk;
      PerformKeeps(Snapshot(), OpDouse(units, key, scope));
      InvUnfold(Snapshot());
      if units <= 0 || ManualWaterKey(key) in KeysOf(log) {
        return 0;
      }
      match scope {
        case Some(w) =>
          if w !in weeks {
            return 0;
          }
          spent := Min(units, Min(waterUnits, weeks[w].flames));
          if spent <= 0 {
            return 0;
          }
          waterUnits := Max(waterUnits - spent, 0);
          weeks := weeks[w := weeks[w].(flames := Max(weeks[w].flames - spent, 0))];
        case None =>
          spent := Min(units, Min(waterUnits, fireUnits));
          if spent <= 0 {
            return 0;
          }
          waterUnits := Max(waterUnits - spent, 0);
          fireUnits := Max(fireUnits - spent, 0);
      }
      waterSpent, fireExtinguished := waterSpent + spent, fireExtinguished + spent;
      FreshManualKey(log, key);
      var _ := RecordEvent(WaterSpent(ManualWaterKey(key), scope, spent, false));
      var _ := RecordEvent(FireExtinguished(ManualExtinguishedKey(key), scope, spent));
    }
  }

  lemma InvUnfold(b: Board)
    requires Inv(b)
    ensures CountersOk(b) && KeysOk(b.log)
  {
  }

  /** While a fire's key is fresh, so is every key derived from it. */
  lemma FreshDerivedKeys(log: seq<Event>, key: string, i: nat)
    requires KeysOk(log)
    ensures UnitKey(key, i) !in KeysOf(log) ==>
              && ForcedWaterKey(UnitKey(key, i)) !in KeysOf(log)
              && ForcedExtinguishedKey(UnitKey(key, i)) !in KeysOf(log)
              && forall v :: BurnedKey(v, key, i) !in KeysOf(log)
  {
    hide KeysOf;
    var fire, keys := UnitKey(key, i), KeysOf(log);
    if fire !in keys {
      assert !BaseRecorded(ForcedWaterKey(fire), keys) && !BaseRecorded(ForcedExtinguishedKey(fire), keys);
      forall v ensures BurnedKey(v, key, i) !in keys {
        assert !BaseRecorded(BurnedKey(v, key, i), keys);
      }
    }
  }

  lemma FreshManualKey(log: seq<Event>, key: string)
    requires KeysOk(log) && ManualWaterKey(key) !in KeysOf(log)
    ensures ManualExtinguishedKey(key) !in KeysOf(log)
  {
    assert !BaseRecorded(ManualExtinguishedKey(key), KeysOf(log));
  }
}
