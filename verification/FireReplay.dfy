/**
 The three ways the event log is read back: the week-fire replay of services/game.py,
 the water recompute of services/correctness.py, and the flame ledger.
 */
module FireReplay {
  import opened Prelude
  import opened FireEconomy

  // ---------- week rows from the log ----------

  /** One event of the replay; keys is the key set of the WHOLE log. */
  function ReplayEvent(m: map<Week, WeekFire>, e: Event, keys: set<Key>): map<Week, WeekFire> {
    match e
    case FireAdded(key, w, alreadyBurnt) =>
      if alreadyBurnt then m
      else
        var row := RowAt(m, w);
        if row.burnt || ForcedWaterKey(key) in keys then m[w := row]
        else m[w := row.(flames := row.flames + 1)]
    case WeekBurned(_, w, _) => m[w := WeekFire(0, true)]
    case WaterSpent(_, scope, units, forced) =>
      if forced || scope.None? then m
      else
        var row := RowAt(m, scope.value);
        m[scope.value := row.(flames := Max(row.flames - units, 0))]
    case _ => m
  }

  function ReplayWeeks(log: seq<Event>, keys: set<Key>): map<Week, WeekFire> {
    if log == [] then map[] else ReplayEvent(ReplayWeeks(log[..|log| - 1], keys), log[|log| - 1], keys)
  }

  /** Equal up to rows that are zero and unburnt. */
  ghost predicate SameFires(m: map<Week, WeekFire>, m': map<Week, WeekFire>) {
    forall w: Week :: RowAt(m, w) == RowAt(m', w)
  }

  lemma SameFiresUpdate(m: map<Week, WeekFire>, m': map<Week, WeekFire>, w: Week, row: WeekFire)
    requires SameFires(m, m')
    ensures SameFires(m[w := row], m'[w := row])
    ensures SameFires(m[w := RowAt(m, w)], m')
  {
    var n, n', k := m[w := row], m'[w := row], m[w := RowAt(m, w)];
    forall v: Week
      ensures RowAt(n, v) == RowAt(n', v) && RowAt(k, v) == RowAt(m', v)
    {
      assert RowAt(m, v) == RowAt(m', v);
    }
  }

  /** The lookups that replaying the log makes have the same answers in both key sets. */
  ghost predicate SameLookups(log: seq<Event>, keys: set<Key>, keys': set<Key>) {
    forall e | e in log && e.FireAdded? && !e.alreadyBurnt ::
      ForcedWaterKey(e.key) in keys <==> ForcedWaterKey(e.key) in keys'
  }

  lemma {:induction false} ReplayFrame(log: seq<Event>, keys: set<Key>, keys': set<Key>)
    requires SameLookups(log, keys, keys')
    ensures ReplayWeeks(log, keys) == ReplayWeeks(log, keys')
  {
    if log != [] {
      var init, last := log[..|log| - 1], log[|log| - 1];
      assert last in log;
      ReplayFrame(init, keys, keys');
    }
  }

  lemma ReplaySnoc(log: seq<Event>, e: Event, keys: set<Key>)
    ensures ReplayWeeks(log + [e], keys) == ReplayEvent(ReplayWeeks(log, keys), e, keys)
  {
    assert (log + [e])[..|log|] == log;
  }

  // ---------- water from the log ----------

  datatype WaterTally = WaterTally(units: int, earned: int, spent: int)

  function TallyEvent(t: WaterTally, e: Event, capacity: nat): WaterTally {
    match e
    case WaterEarned(_, n) => WaterTally(Min(t.units + n, capacity), t.earned + n, t.spent)
    case WaterSpent(_, _, n, _) => WaterTally(Max(t.units - n, 0), t.earned, t.spent + n)
    case _ => t
  }

  function RecomputeWater(log: seq<Event>, capacity: nat): WaterTally {
    if log == [] then WaterTally(0, 0, 0)
    else TallyEvent(RecomputeWater(log[..|log| - 1], capacity), log[|log| - 1], capacity)
  }

  lemma RecomputeSnoc(log: seq<Event>, e: Event, capacity: nat)
    ensures RecomputeWater(log + [e], capacity) == TallyEvent(RecomputeWater(log, capacity), e, capacity)
  {
    assert (log + [e])[..|log|] == log;
  }

  // ---------- where every flame went ----------

  /** landed: effective fires; doused: by hand; cleared: by burns. */
  datatype Ledger = Ledger(landed: nat, doused: nat, cleared: nat)

  function LedgerEvent(t: Ledger, e: Event, keys: set<Key>): Ledger {
    match e
    case FireAdded(key, _, alreadyBurnt) =>
      if alreadyBurnt || ForcedWaterKey(key) in keys then t else t.(landed := t.landed + 1)
    case WeekBurned(_, _, cleared) => t.(cleared := t.cleared + cleared)
    case WaterSpent(_, scope, units, forced) =>
      if forced || scope.None? then t else t.(doused := t.doused + units)
    case _ => t
  }

  function FlameLedger(log: seq<Event>, keys: set<Key>): Ledger {
    if log == [] then Ledger(0, 0, 0)
    else LedgerEvent(FlameLedger(log[..|log| - 1], keys), log[|log| - 1], keys)
  }

  lemma {:induction false} LedgerFrame(log: seq<Event>, keys: set<Key>, keys': set<Key>)
    requires SameLookups(log, keys, keys')
    ensures FlameLedger(log, keys) == FlameLedger(log, keys')
  {
    if log != [] {
      var init, last := log[..|log| - 1], log[|log| - 1];
      assert last in log;
      LedgerFrame(init, keys, keys');
    }
  }

  lemma LedgerSnoc(log: seq<Event>, e: Event, keys: set<Key>)
    ensures FlameLedger(log + [e], keys) == LedgerEvent(FlameLedger(log, keys), e, keys)
  {
    assert (log + [e])[..|log|] == log;
  }

  // ---------- the methods that read the log ----------

  /** _replay_week_fire_events on a log in (created_at, id) order, with no debug seed. */
  method ReplayWeekFireEvents(log: seq<Event>) returns (rows: map<Week, WeekFire>)
    ensures rows == ReplayWeeks(log, KeysOf(log))
  {
    rows := map[];
    var keys := KeysOf(log);
    for i := 0 to |log|
      invariant rows == ReplayWeeks(log[..i], keys)
    {
      assert log[..i + 1] == log[..i] + [log[i]];
      ReplaySnoc(log[..i], log[i], keys);
      match log[i] {
        case FireAdded(key, w, alreadyBurnt) =>
          if !alreadyBurnt {
            var row := RowAt(rows, w);
            rows := rows[w := row];
            if !row.burnt {
              if ForcedWaterKey(key) !in keys {
                rows := rows[w := row.(flames := row.flames + 1)];
              }
            }
          }
        case WeekBurned(_, w, _) =>
          rows := rows[w := WeekFire(0, true)];
        case WaterSpent(_, scope, units, forced) =>
          if scope.Some? && !forced {
            var row := RowAt(rows, scope.value);
            rows := rows[scope.value := row.(flames := Max(row.flames - units, 0))];
          }
        case _ =>
      }
    }
    assert log[..|log|] == log;
  }

  /** recompute_correctness_state_from_history with no debug seed. */
  method RecomputeCorrectnessState(log: seq<Event>, capacity: nat) returns (t: WaterTally)
    ensures t == RecomputeWater(log, capacity)
  {
    var units, earned, spent := 0, 0, 0;
    for i := 0 to |log|
      invariant WaterTally(units, earned, spent) == RecomputeWater(log[..i], capacity)
    {
      assert log[..i + 1] == log[..i] + [log[i]];
      RecomputeSnoc(log[..i], log[i], capacity);
      if log[i].WaterEarned? {
        earned := earned + log[i].units;
        units := Min(units + log[i].units, capacity);
      } else if log[i].WaterSpent? {
        spent := spent + log[i].units;
        units := Max(units - log[i].units, 0);
      }
    }
    assert log[..|log|] == log;
    t := WaterTally(units, earned, spent);
  }
}
