/**
 What one call of add_fire, award_water and spend_water_to_extinguish does to a board, said
 without the branches of a unit: covered flames land, then each costs a droplet, and on a dry
 board each burns a week.
 */
module FirePhases {
  import opened Prelude
  import opened FireEconomy
  import opened FireRuns

  /** A call of add_fire that is not a retry, on a week that is not ash. */
  ghost predicate FreshCall(b: Board, units: int, week: Week, key: string) {
    && !RowAt(b.weeks, week).burnt
    && forall i: nat | i < units :: UnitKey(key, i) !in KeysOf(b.log)
  }

  /** The flames the water still covers. */
  ghost function Room(b: Board): nat {
    Max(b.water - TotalActive(b.weeks), 0)
  }

  lemma LogKeys(log: seq<Event>, more: seq<Event>, k: Key)
    ensures k in KeysOf(log + more) <==> k in KeysOf(log) || exists e :: e in more && e.key == k
  {
    if k in KeysOf(log + more) {
      var e :| e in log + more && e.key == k;
    }
    if e :| e in more && e.key == k {
      assert e in log + more;
    }
    if e :| e in log && e.key == k {
      assert e in log + more;
    }
  }

  /** The board after n fresh units: the covered ones landed, each of the others took a droplet. */
  ghost predicate InPhase(b: Board, after: Board, week: Week, n: nat)
    requires week in b.weeks
  {
    var landed := Min(n, Room(b));
    var doused := n - landed;
    && after.capacity == b.capacity && after.earned == b.earned && after.fireUnits == b.fireUnits
    && after.water == b.water - doused
    && after.spent == b.spent + doused && after.extinguished == b.extinguished + doused
    && after.weeks == b.weeks[week := b.weeks[week].(flames := b.weeks[week].flames + landed)]
    && |after.log| == |b.log| + landed + 3 * doused
  }

  /** No unit from n on has been recorded. */
  ghost predicate StillFresh(b: Board, key: string, n: nat) {
    forall i: nat | i >= n :: UnitKey(key, i) !in KeysOf(b.log)
  }

  lemma UnitRecordsOne(b: Board, week: Week, key: string, i: nat, j: nat)
    requires week in b.weeks && UnitKey(key, j) !in KeysOf(b.log) && i != j
    ensures UnitKey(key, j) !in KeysOf(FireUnit(b, week, key, i).log)
  {
    var after := FireUnit(b, week, key, i);
    LogKeys(b.log, after.log[|b.log|..], UnitKey(key, j));
    assert after.log == b.log + after.log[|b.log|..];
  }

  lemma {:induction false} UnitsRecordTheirs(b: Board, week: Week, key: string, n: nat, j: nat)
    requires week in b.weeks && UnitKey(key, j) !in KeysOf(b.log) && n <= j
    ensures UnitKey(key, j) !in KeysOf(FireUnits(b, week, key, n).log)
  {
    hide FireUnit, KeysOf;
    if n > 0 {
      UnitsRecordTheirs(b, week, key, n - 1, j);
      UnitRecordsOne(FireUnits(b, week, key, n - 1), week, key, n - 1, j);
    }
  }

  lemma OneMoreUnit(b: Board, mid: Board, week: Week, key: string, n: nat)
    requires week in b.weeks && !b.weeks[week].burnt && b.water >= 0
    requires n + 1 <= Room(b) + b.water
    requires InPhase(b, mid, week, n) && UnitKey(key, n) !in KeysOf(mid.log)
    ensures InPhase(b, FireUnit(mid, week, key, n), week, n + 1)
  {
    hide TotalActive, KeysOf;
    TotalAfterUpdate(b.weeks, week, mid.weeks[week]);
    assert TotalActive(mid.weeks) == TotalActive(b.weeks) + Min(n, Room(b));
  }

  lemma {:induction false} UnitsInPhase(b: Board, week: Week, key: string, n: nat)
    requires week in b.weeks && !b.weeks[week].burnt && b.water >= 0
    requires forall i: nat | i < n :: UnitKey(key, i) !in KeysOf(b.log)
    requires n <= Room(b) + b.water
    ensures InPhase(b, FireUnits(b, week, key, n), week, n)
  {
    hide FireUnit, KeysOf, Room;
    if n > 0 {
      UnitsInPhase(b, week, key, n - 1);
      UnitsRecordTheirs(b, week, key, n - 1, n - 1);
      OneMoreUnit(b, FireUnits(b, week, key, n - 1), week, key, n - 1);
    } else {
      NothingYet(b, week);
    }
  }

  lemma NothingYet(b: Board, week: Week)
    requires week in b.weeks
    ensures InPhase(b, b, week, 0)
  {
  }

  /**
   A fresh call of add_fire, as far as the water goes: the flames it covers land on the week at
   no cost, each further one takes exactly one droplet, and no other row changes.
   */
  lemma AddFireInPhases(b: Board, units: nat, week: Week, key: string)
    requires Inv(b) && FreshCall(b, units, week, key)
    requires 0 < units <= Room(b) + b.water
    ensures var after := AddFire(b, units, week, key);
            var landed := Min(units, Room(b));
            var doused := units - landed;
            && after.water == b.water - doused && after.earned == b.earned
            && after.spent == b.spent + doused && after.extinguished == b.extinguished + doused
            && after.fireUnits == b.fireUnits
            && after.weeks == b.weeks[week := WeekFire(RowAt(b.weeks, week).flames + landed, false)]
            && |after.log| == |b.log| + landed + 3 * doused
  {
    hide Inv, FireUnits, KeysOf, TotalActive;
    TotalAfterUpdate(b.weeks, week, RowAt(b.weeks, week));
    WaterIsThere(b);
    UnitsInPhase(Touch(b, week), week, key, units);
  }

  lemma WaterIsThere(b: Board)
    requires Inv(b)
    ensures b.water >= 0
  {
  }

  /** With water for all of them, incoming flames only land. */
  lemma CoveredFlamesLand(b: Board, units: nat, week: Week, key: string)
    requires Inv(b) && FreshCall(b, units, week, key)
    requires 0 < units && TotalActive(b.weeks) + units <= b.water
    ensures var after := AddFire(b, units, week, key);
            && after.water == b.water && after.spent == b.spent && after.extinguished == b.extinguished
            && after.weeks == b.weeks[week := WeekFire(RowAt(b.weeks, week).flames + units, false)]
            && |after.log| == |b.log| + units
  {
    hide Inv, FreshCall, AddFire, KeysOf, TotalActive;
    AddFireInPhases(b, units, week, key);
  }

  /** On a full board with water, a flame takes one droplet and changes no row. */
  lemma UncoveredFlameTakesOneDroplet(b: Board, week: Week, key: string)
    requires Inv(b) && FreshCall(b, 1, week, key)
    requires TotalActive(b.weeks) >= b.water > 0
    ensures var after := AddFire(b, 1, week, key);
            && after.water == b.water - 1 && after.spent == b.spent + 1 && after.extinguished == b.extinguished + 1
            && forall w :: RowAt(after.weeks, w) == RowAt(b.weeks, w)
  {
    hide Inv, AddFire, KeysOf, TotalActive;
    AddFireInPhases(b, 1, week, key);
  }

  /** Unburnt, with the most flames of all, and the earliest of those that have as many. */
  ghost predicate BurnsFirst(weeks: map<Week, WeekFire>, victim: Week) {
    && victim in weeks && !weeks[victim].burnt
    && (forall w | w in weeks && !weeks[w].burnt :: weeks[w].flames <= weeks[victim].flames)
    && (forall w | w in weeks && !weeks[w].burnt && weeks[w].flames == weeks[victim].flames :: victim.start <= w.start)
  }

  /** On a dry board a flame lands and exactly one week, the worst then, turns to ash. */
  lemma DryFlameBurnsOneWeek(b: Board, week: Week, key: string)
    requires Inv(b) && FreshCall(b, 1, week, key) && b.water == 0
    ensures var after := AddFire(b, 1, week, key);
            var landed := b.weeks[week := WeekFire(RowAt(b.weeks, week).flames + 1, false)];
            && after.water == 0 && after.spent == b.spent && after.extinguished == b.extinguished
            && exists victim ::
                 && BurnsFirst(landed, victim)
                 && after.weeks == landed[victim := WeekFire(0, true)]
  {
    hide TotalActive, Inv, KeysOf;
    var touched := Touch(b, week);
    var landed := Land(touched, week, key, 0);
    assert landed.weeks == b.weeks[week := WeekFire(RowAt(b.weeks, week).flames + 1, false)];
    assert AddFire(b, 1, week, key) == FireUnit(FireUnits(touched, week, key, 0), week, key, 0);
    var victim := WorstWeek(landed.weeks, week);
    assert IsWorst(landed.weeks, victim);
    forall w | w in landed.weeks && !landed.weeks[w].burnt
      ensures landed.weeks[w].flames <= landed.weeks[victim].flames
      ensures landed.weeks[w].flames == landed.weeks[victim].flames ==> victim.start <= w.start
    {
      assert NotBetterThan(landed.weeks, victim, w);
    }
    assert BurnsFirst(landed.weeks, victim);
  }

  /** The fire of a burnt week changes no flame, water or counter. */
  lemma BurntWeekOnlyRecords(b: Board, week: Week, key: string)
    requires RowAt(b.weeks, week).burnt
    requires BurntWeekKey(key, 0) !in KeysOf(b.log)
    ensures AddFire(b, 1, week, key) == b.(log := b.log + [FireAdded(BurntWeekKey(key, 0), week, true)])
  {
    hide TotalActive, KeysOf;
    assert Touch(b, week) == b;
    assert AddFire(b, 1, week, key) == FireUnit(FireUnits(b, week, key, 0), week, key, 0);
  }

  // ---------- water ----------

  /** A fresh award fills up to the capacity and no further, and what it adds is what was earned. */
  lemma FreshAwardFills(b: Board, units: int, key: string)
    requires Inv(b) && AwardKey(key) !in KeysOf(b.log)
    ensures var after := AwardWater(b, units, key);
            && after.earned - b.earned == after.water - b.water
            && (units <= 0 ==> after == b)
            && (0 < units <= b.capacity - b.water ==> after.water == b.water + units)
            && (units > b.capacity - b.water >= 0 && units > 0 ==> after.water == b.capacity)
            && after.weeks == b.weeks && after.spent == b.spent
  {
    hide KeysOf, TotalActive;
  }

  /** The flames a manual douse may reach. */
  function Reach(b: Board, scope: Option<Week>): int {
    match scope
    case Some(w) => RowAt(b.weeks, w).flames
    case None => b.fireUnits
  }

  /**
   A fresh douse spends as much as was asked for, as there is water, and as there are flames in
   reach, no more, and one of the three is used up. Those flames are gone, and nothing else changes.
   */
  lemma FreshDouseSpends(b: Board, units: int, key: string, scope: Option<Week>)
    requires Inv(b) && ManualWaterKey(key) !in KeysOf(b.log) && units >= 0
    ensures var after := ManualDouse(b, units, key, scope);
            var n := b.water - after.water;
            && 0 <= n <= units && n <= b.water && n <= Reach(b, scope)
            && (n == units || n == b.water || n == Reach(b, scope))
            && after.spent == b.spent + n && after.extinguished == b.extinguished + n && after.earned == b.earned
            && Reach(after, scope) == Reach(b, scope) - n
            && (forall w | scope != Some(w) :: RowAt(after.weeks, w) == RowAt(b.weeks, w))
            && (scope.Some? ==> after.fireUnits == b.fireUnits)
  {
    hide KeysOf, TotalActive;
  }
}
