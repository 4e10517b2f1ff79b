/**
 What every run of add-fire, award and douse keeps: the log replays to the live
 board, water is the recomputed water, flames are conserved, the board stays covered.
 */
module FireRuns {
  import opened Prelude
  import opened FireEconomy
  import opened FireReplay

  // ---------- the invariant ----------

  ghost predicate CountersOk(b: Board) {
    && 0 <= b.water <= b.capacity && 0 <= b.fireUnits
    && b.water == b.earned - b.spent
    && b.extinguished == b.spent
  }

  ghost predicate RowsOk(b: Board) {
    && (forall w | w in b.weeks && b.weeks[w].burnt :: b.weeks[w].flames == 0)
    && TotalActive(b.weeks) <= b.capacity
  }

  /** A derived key needs the key it derives from. */
  ghost predicate BaseRecorded(k: Key, keys: set<Key>) {
    match k
    case ForcedWaterKey(fire) => fire in keys
    case ForcedExtinguishedKey(fire) => fire in keys
    case BurnedKey(_, base, i) => UnitKey(base, i) in keys
    case ManualExtinguishedKey(base) => ManualWaterKey(base) in keys
    case _ => true
  }

  /** Keys are unique, and a derived key is only there beside the key it derives from. */
  ghost predicate KeysOk(log: seq<Event>) {
    && (forall i, j | 0 <= i < j < |log| :: log[i].key != log[j].key)
    && (forall k | k in KeysOf(log) :: BaseRecorded(k, KeysOf(log)))
  }

  ghost predicate Replays(b: Board) {
    SameFires(ReplayWeeks(b.log, KeysOf(b.log)), b.weeks)
  }

  ghost predicate Recomputes(b: Board) {
    RecomputeWater(b.log, b.capacity) == WaterTally(b.water, b.earned, b.spent)
  }

  ghost predicate Conserves(b: Board) {
    var t := FlameLedger(b.log, KeysOf(b.log));
    t.landed == TotalActive(b.weeks) + t.doused + t.cleared
  }

  ghost predicate Inv(b: Board) {
    CountersOk(b) && RowsOk(b) && KeysOk(b.log) && Replays(b) && Recomputes(b) && Conserves(b)
  }

  // ---------- appending one event ----------

  lemma KeysSnoc(log: seq<Event>, e: Event)
    ensures KeysOf(log + [e]) == KeysOf(log) + {e.key}
  {
    assert forall x :: x in log + [e] <==> x in log || x == e;
  }

  /** The three readings of a log that has one more event. */
  lemma ReadSnoc(log: seq<Event>, e: Event, keys: set<Key>, capacity: nat)
    ensures ReplayWeeks(log + [e], keys) == ReplayEvent(ReplayWeeks(log, keys), e, keys)
    ensures FlameLedger(log + [e], keys) == LedgerEvent(FlameLedger(log, keys), e, keys)
    ensures RecomputeWater(log + [e], capacity) == TallyEvent(RecomputeWater(log, capacity), e, capacity)
  {
    ReplaySnoc(log, e, keys);
    LedgerSnoc(log, e, keys);
    RecomputeSnoc(log, e, capacity);
  }

  /** The lookups of the old log survive every append that brings no forced-douse key of an old event. */
  lemma AppendFrame(log: seq<Event>, keys': set<Key>)
    requires KeysOf(log) <= keys'
    requires forall k | ForcedWaterKey(k) in keys' - KeysOf(log) :: k !in KeysOf(log)
    ensures SameLookups(log, KeysOf(log), keys')
    ensures ReplayWeeks(log, keys') == ReplayWeeks(log, KeysOf(log))
    ensures FlameLedger(log, keys') == FlameLedger(log, KeysOf(log))
  {
    forall e | e in log && e.FireAdded? && !e.alreadyBurnt
      ensures ForcedWaterKey(e.key) in KeysOf(log) <==> ForcedWaterKey(e.key) in keys'
    {
      assert e.key in KeysOf(log);
    }
    ReplayFrame(log, KeysOf(log), keys');
    LedgerFrame(log, KeysOf(log), keys');
  }

  lemma KeysOkSnoc(log: seq<Event>, e: Event)
    requires KeysOk(log) && e.key !in KeysOf(log)
    requires BaseRecorded(e.key, KeysOf(log))
    ensures KeysOk(log + [e])
  {
    KeysSnoc(log, e);
    var log' := log + [e];
    forall i, j | 0 <= i < j < |log'| ensures log'[i].key != log'[j].key {
      assert log[i] in log;
    }
  }

  /** Appending one event that is not a forced douse: each reading makes exactly its step. */
  lemma AppendOne(log: seq<Event>, e: Event, capacity: nat)
    requires KeysOk(log) && e.key !in KeysOf(log) && !e.key.ForcedWaterKey?
    requires BaseRecorded(e.key, KeysOf(log))
    ensures var keys' := KeysOf(log + [e]);
            && keys' == KeysOf(log) + {e.key}
            && KeysOk(log + [e])
            && ReplayWeeks(log + [e], keys') == ReplayEvent(ReplayWeeks(log, KeysOf(log)), e, keys')
            && FlameLedger(log + [e], keys') == LedgerEvent(FlameLedger(log, KeysOf(log)), e, keys')
            && RecomputeWater(log + [e], capacity) == TallyEvent(RecomputeWater(log, capacity), e, capacity)
  {
    KeysSnoc(log, e);
    KeysOkSnoc(log, e);
    AppendFrame(log, KeysOf(log + [e]));
    ReadSnoc(log, e, KeysOf(log + [e]), capacity);
  }

  // ---------- each transition keeps the invariant ----------

  lemma TouchKeeps(b: Board, week: Week)
    requires Inv(b)
    ensures Inv(Touch(b, week))
  {
    TotalAfterUpdate(b.weeks, week, RowAt(b.weeks, week));
  }

  lemma RecordOnlyKeeps(b: Board, week: Week, key: string, i: nat)
    requires Inv(b)
    ensures Inv(RecordOnly(b, week, key, i))
  {
    var e := FireAdded(BurntWeekKey(key, i), week, true);
    if e.key !in KeysOf(b.log) {
      AppendOne(b.log, e, b.capacity);
    }
  }

  lemma LandKeeps(b: Board, week: Week, key: string, i: nat)
    requires Inv(b) && week in b.weeks && !b.weeks[week].burnt
    requires UnitKey(key, i) !in KeysOf(b.log)
    requires TotalActive(b.weeks) + 1 <= b.water
    ensures Inv(Land(b, week, key, i))
  {
    LandReplays(b, week, key, i);
    TotalAfterUpdate(b.weeks, week, b.weeks[week].(flames := b.weeks[week].flames + 1));
  }

  /** Landing keeps everything but the bound on the total. */
  lemma LandReplays(b: Board, week: Week, key: string, i: nat)
    requires Inv(b) && week in b.weeks && !b.weeks[week].burnt
    requires UnitKey(key, i) !in KeysOf(b.log)
    ensures var b' := Land(b, week, key, i);
            KeysOk(b'.log) && Replays(b') && Recomputes(b') && Conserves(b')
            && TotalActive(b'.weeks) == TotalActive(b.weeks) + 1
            && KeysOf(b'.log) == KeysOf(b.log) + {UnitKey(key, i)}
  {
    var e := FireAdded(UnitKey(key, i), week, false);
    AppendOne(b.log, e, b.capacity);
    assert ForcedWaterKey(e.key) !in KeysOf(b.log + [e]) by {
      assert !BaseRecorded(ForcedWaterKey(e.key), KeysOf(b.log));
    }
    var row' := b.weeks[week].(flames := b.weeks[week].flames + 1);
    TotalAfterUpdate(b.weeks, week, row');
    var rows := ReplayWeeks(b.log, KeysOf(b.log));
    assert RowAt(rows, week) == RowAt(b.weeks, week);
    SameFiresUpdate(rows, b.weeks, week, row');
  }

  /** The keys of the three events of an auto-douse. */
  lemma AutoDouseKeys(log: seq<Event>, e0: Event, e1: Event, e2: Event)
    requires KeysOk(log) && e0.key.UnitKey? && e0.key !in KeysOf(log)
    requires e1.key == ForcedWaterKey(e0.key) && e2.key == ForcedExtinguishedKey(e0.key)
    ensures KeysOk(log + [e0] + [e1] + [e2])
    ensures KeysOf(log + [e0] + [e1] + [e2]) == KeysOf(log) + {e0.key, e1.key, e2.key}
  {
    assert e1.key !in KeysOf(log) && e2.key !in KeysOf(log) by {
      assert !BaseRecorded(e1.key, KeysOf(log)) && !BaseRecorded(e2.key, KeysOf(log));
    }
    hide KeysOk;
    KeysSnoc(log, e0);
    KeysOkSnoc(log, e0);
    KeysSnoc(log + [e0], e1);
    KeysOkSnoc(log + [e0], e1);
    KeysSnoc(log + [e0] + [e1], e2);
    KeysOkSnoc(log + [e0] + [e1], e2);
  }

  /** The three events of an auto-douse, read back: only water moves. */
  lemma AutoDouseEvents(log: seq<Event>, week: Week, fire: Key, capacity: nat)
    requires KeysOk(log) && fire.UnitKey? && fire !in KeysOf(log)
    ensures var e0 := FireAdded(fire, week, false);
            var e1 := WaterSpent(ForcedWaterKey(fire), Some(week), 1, true);
            var log' := log + [e0, e1, FireExtinguished(ForcedExtinguishedKey(fire), Some(week), 1)];
            var rows := ReplayWeeks(log, KeysOf(log));
            && KeysOk(log')
            && ReplayWeeks(log', KeysOf(log')) == rows[week := RowAt(rows, week)]
            && FlameLedger(log', KeysOf(log')) == FlameLedger(log, KeysOf(log))
            && RecomputeWater(log', capacity) == TallyEvent(RecomputeWater(log, capacity), e1, capacity)
  {
    hide ReplayWeeks, FlameLedger, RecomputeWater, KeysOk;
    var e0 := FireAdded(fire, week, false);
    var e1 := WaterSpent(ForcedWaterKey(fire), Some(week), 1, true);
    var e2 := FireExtinguished(ForcedExtinguishedKey(fire), Some(week), 1);
    var l1 := log + [e0];
    var l2 := l1 + [e1];
    AutoDouseKeys(log, e0, e1, e2);
    var keys := KeysOf(l2 + [e2]);
    AppendFrame(log, keys);
    ReadSnoc(log, e0, keys, capacity);
    ReadSnoc(l1, e1, keys, capacity);
    ReadSnoc(l2, e2, keys, capacity);
    assert log + [e0, e1, e2] == l2 + [e2];
  }

  lemma AutoDouseKeeps(b: Board, week: Week, key: string, i: nat)
    requires Inv(b) && week in b.weeks && !b.weeks[week].burnt
    requires UnitKey(key, i) !in KeysOf(b.log)
    requires b.water > 0
    ensures Inv(AutoDouse(b, week, key, i))
  {
    hide ReplayWeeks, FlameLedger, RecomputeWater, KeysOk;
    AutoDouseEvents(b.log, week, UnitKey(key, i), b.capacity);
    var rows := ReplayWeeks(b.log, KeysOf(b.log));
    SameFiresUpdate(rows, b.weeks, week, RowAt(rows, week));
  }

  /** The victim holds at least the flame just landed, so a burn never raises the total. */
  lemma BurnClears(b: Board, week: Week, key: string, i: nat)
    requires week in b.weeks && !b.weeks[week].burnt
    ensures var landed := Land(b, week, key, i);
            var victim := WorstWeek(landed.weeks, week);
            landed.weeks[victim].flames >= 1 && !landed.weeks[victim].burnt
            && TotalActive(Burn(b, week, key, i).weeks)
               == TotalActive(b.weeks) + 1 - landed.weeks[victim].flames
  {
    var landed := Land(b, week, key, i);
    var victim := WorstWeek(landed.weeks, week);
    assert NotBetterThan(landed.weeks, victim, week);
    TotalAfterUpdate(b.weeks, week, landed.weeks[week]);
    TotalAfterUpdate(landed.weeks, victim, WeekFire(0, true));
  }

  lemma BurnKeeps(b: Board, week: Week, key: string, i: nat)
    requires Inv(b) && week in b.weeks && !b.weeks[week].burnt
    requires UnitKey(key, i) !in KeysOf(b.log)
    ensures Inv(Burn(b, week, key, i))
  {
    LandReplays(b, week, key, i);
    BurnClears(b, week, key, i);
    var landed := Land(b, week, key, i);
    var victim := WorstWeek(landed.weeks, week);
    var e := WeekBurned(BurnedKey(victim, key, i), victim, landed.weeks[victim].flames);
    assert e.key !in KeysOf(b.log) by {
      assert !BaseRecorded(e.key, KeysOf(b.log));
    }
    AppendOne(landed.log, e, b.capacity);
    SameFiresUpdate(ReplayWeeks(landed.log, KeysOf(landed.log)), landed.weeks, victim, WeekFire(0, true));
  }

  lemma FireUnitKeeps(b: Board, week: Week, key: string, i: nat)
    requires Inv(b) && week in b.weeks
    ensures Inv(FireUnit(b, week, key, i))
  {
    if b.weeks[week].burnt {
      RecordOnlyKeeps(b, week, key, i);
    } else if UnitKey(key, i) !in KeysOf(b.log) {
      if TotalActive(b.weeks) + 1 <= b.water {
        LandKeeps(b, week, key, i);
      } else if b.water > 0 {
        AutoDouseKeeps(b, week, key, i);
      } else {
        BurnKeeps(b, week, key, i);
      }
    }
  }

  lemma {:induction false} FireUnitsKeep(b: Board, week: Week, key: string, n: nat)
    requires Inv(b) && week in b.weeks
    ensures Inv(FireUnits(b, week, key, n))
  {
    hide FireUnit, Inv;
    if n > 0 {
      FireUnitsKeep(b, week, key, n - 1);
      FireUnitKeeps(FireUnits(b, week, key, n - 1), week, key, n - 1);
    }
  }

  lemma AwardKeeps(b: Board, units: int, key: string)
    requires Inv(b)
    ensures Inv(AwardWater(b, units, key))
  {
    hide ReplayWeeks, FlameLedger, RecomputeWater, KeysOk;
    var water' := Min(b.water + units, b.capacity);
    if units > 0 && AwardKey(key) !in KeysOf(b.log) && water' > b.water {
      var e := WaterEarned(AwardKey(key), water' - b.water);
      AppendOne(b.log, e, b.capacity);
    }
  }

  /** The two events of a manual douse, read back. */
  lemma DouseEvents(log: seq<Event>, n: nat, key: string, scope: Option<Week>, capacity: nat)
    requires KeysOk(log) && ManualWaterKey(key) !in KeysOf(log)
    ensures var e0 := WaterSpent(ManualWaterKey(key), scope, n, false);
            var log' := log + [e0, FireExtinguished(ManualExtinguishedKey(key), scope, n)];
            var keys, keys' := KeysOf(log), KeysOf(log');
            && KeysOk(log')
            && ReplayWeeks(log', keys') == ReplayEvent(ReplayWeeks(log, keys), e0, keys')
            && FlameLedger(log', keys') == LedgerEvent(FlameLedger(log, keys), e0, keys')
            && RecomputeWater(log', capacity) == TallyEvent(RecomputeWater(log, capacity), e0, capacity)
  {
    hide ReplayWeeks, FlameLedger, RecomputeWater;
    var e0 := WaterSpent(ManualWaterKey(key), scope, n, false);
    var e1 := FireExtinguished(ManualExtinguishedKey(key), scope, n);
    var l1 := log + [e0];
    AppendOne(log, e0, capacity);
    assert e1.key !in KeysOf(l1) by {
      assert !BaseRecorded(e1.key, KeysOf(log));
    }
    AppendOne(l1, e1, capacity);
    assert log + [e0, e1] == l1 + [e1];
  }

  lemma DouseKeeps(b: Board, units: int, key: string, scope: Option<Week>)
    requires Inv(b)
    ensures Inv(ManualDouse(b, units, key, scope))
  {
    hide ReplayWeeks, FlameLedger, RecomputeWater, KeysOk;
    var n := Spendable(b, units, scope);
    if units > 0 && ManualWaterKey(key) !in KeysOf(b.log) && n > 0 {
      DouseEvents(b.log, n, key, scope, b.capacity);
      if scope.Some? {
        var w := scope.value;
        var row' := b.weeks[w].(flames := b.weeks[w].flames - n);
        TotalAfterUpdate(b.weeks, w, row');
        var rows := ReplayWeeks(b.log, KeysOf(b.log));
        assert RowAt(rows, w) == RowAt(b.weeks, w);
        SameFiresUpdate(rows, b.weeks, w, row');
      }
    }
  }

  lemma PerformKeeps(b: Board, op: Op)
    requires Inv(b)
    ensures Inv(Perform(b, op))
  {
    match op
    case OpFire(units, week, key) =>
      if units > 0 {
        TouchKeeps(b, week);
        FireUnitsKeep(Touch(b, week), week, key, units);
      }
    case OpAward(units, key) => AwardKeeps(b, units, key);
    case OpDouse(units, key, scope) => DouseKeeps(b, units, key, scope);
  }

  lemma {:induction false} RunKeeps(b: Board, ops: seq<Op>)
    requires Inv(b)
    ensures Inv(Run(b, ops))
  {
    if ops != [] {
      RunKeeps(b, ops[..|ops| - 1]);
      PerformKeeps(Run(b, ops[..|ops| - 1]), ops[|ops| - 1]);
    }
  }

  lemma EmptyBoardOk(capacity: nat, fireUnits: nat)
    ensures Inv(EmptyBoard(capacity, fireUnits))
  {
  }
}
