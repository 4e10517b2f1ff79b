/**
 The fire/water economy of services/correctness.py as a state machine: a board of
 week rows, a water counter and an append-only event log whose events carry
 idempotency keys. Keys are structured values instead of formatted strings.
 */
module FireEconomy {
  import opened Prelude

  /** A week, named by the index of its start. */
  datatype Week = Week(start: int)

  datatype WeekFire = WeekFire(flames: nat, burnt: bool)

  datatype Key =
    | UnitKey(base: string, i: nat)                // "{key}:unit:{i}"
    | BurntWeekKey(base: string, i: nat)           // "{key}:unit:{i}:burnt_week"
    | ForcedWaterKey(fire: Key)                    // "{fire}:forced_douse:water"
    | ForcedExtinguishedKey(fire: Key)             // "{fire}:forced_douse:extinguished"
    | BurnedKey(victim: Week, base: string, i: nat) // "week_burned:{victim}:{key}:unit:{i}"
    | AwardKey(base: string)                       // "{key}"
    | ManualWaterKey(base: string)                 // "{key}:water"
    | ManualExtinguishedKey(base: string)          // "{key}:extinguished"

  datatype Event =
    | FireAdded(key: Key, week: Week, alreadyBurnt: bool)
    | WeekBurned(key: Key, week: Week, cleared: nat)
    | WaterSpent(key: Key, scope: Option<Week>, units: nat, forced: bool)
    | WaterEarned(key: Key, units: nat)
    | FireExtinguished(key: Key, scope: Option<Week>, units: nat)

  /** Everything the game keeps; capacity is the fixed water capacity setting. */
  datatype Board = Board(
    capacity: nat,
    water: int, earned: int, spent: int, extinguished: int,
    fireUnits: int, // the legacy global fire counter
    weeks: map<Week, WeekFire>,
    log: seq<Event>)

  /** A board before any event; an old installation may still hold legacy fire units. */
  function EmptyBoard(capacity: nat, fireUnits: nat): Board {
    Board(capacity, 0, 0, 0, 0, fireUnits, map[], [])
  }

  function KeysOf(log: seq<Event>): set<Key> {
    set e | e in log :: e.key
  }

  // ---------- the board total ----------

  function ActiveFlames(row: WeekFire): nat {
    if row.burnt then 0 else row.flames
  }

  ghost function SumFlames(weeks: map<Week, WeekFire>, ws: set<Week>): nat
    requires ws <= weeks.Keys
  {
    if w :| w in ws then ActiveFlames(weeks[w]) + SumFlames(weeks, ws - {w}) else 0
  }

  /** The sum of flames over the weeks that are not burnt. */
  ghost function TotalActive(weeks: map<Week, WeekFire>): nat {
    SumFlames(weeks, weeks.Keys)
  }

  lemma {:induction false} SumSplit(weeks: map<Week, WeekFire>, ws: set<Week>, w: Week)
    requires ws <= weeks.Keys && w in ws
    ensures SumFlames(weeks, ws) == ActiveFlames(weeks[w]) + SumFlames(weeks, ws - {w})
    decreases ws
  {
    var v :| v in ws && SumFlames(weeks, ws) == ActiveFlames(weeks[v]) + SumFlames(weeks, ws - {v});
    if v != w {
      SumSplit(weeks, ws - {v}, w);
      SumSplit(weeks, ws - {w}, v);
      assert ws - {v} - {w} == ws - {w} - {v};
    }
  }

  lemma {:induction false} SumFrame(m: map<Week, WeekFire>, m': map<Week, WeekFire>, ws: set<Week>)
    requires ws <= m.Keys && ws <= m'.Keys
    requires forall w | w in ws :: m[w] == m'[w]
    ensures SumFlames(m, ws) == SumFlames(m', ws)
    decreases ws
  {
    if ws != {} {
      var w := AnElement(ws);
      SumSplit(m, ws, w);
      SumSplit(m', ws, w);
      SumFrame(m, m', ws - {w});
    }
  }

  function FlamesAt(weeks: map<Week, WeekFire>, w: Week): nat {
    ActiveFlames(RowAt(weeks, w))
  }

  /** The row of a week; a week without a row is like a zero row. */
  function RowAt(weeks: map<Week, WeekFire>, w: Week): WeekFire {
    if w in weeks then weeks[w] else WeekFire(0, false)
  }

  /** Writing one row moves the board total by that row's change and nothing else. */
  lemma TotalAfterUpdate(weeks: map<Week, WeekFire>, w: Week, row: WeekFire)
    ensures TotalActive(weeks[w := row]) == TotalActive(weeks) - FlamesAt(weeks, w) + ActiveFlames(row)
    ensures TotalActive(weeks) >= FlamesAt(weeks, w)
  {
    var m' := weeks[w := row];
    var rest := weeks.Keys - {w};
    SumSplit(m', m'.Keys, w);
    assert m'.Keys - {w} == rest;
    SumFrame(weeks, m', rest);
    if w in weeks {
      SumSplit(weeks, weeks.Keys, w);
    } else {
      assert weeks.Keys == rest;
    }
  }

  // ---------- the worst week ----------

  /** v comes before w in "most flames first, then earliest week". */
  predicate NotBetterThan(weeks: map<Week, WeekFire>, v: Week, w: Week)
    requires v in weeks && w in weeks
  {
    weeks[v].flames > weeks[w].flames || (weeks[v].flames == weeks[w].flames && v.start <= w.start)
  }

  predicate IsWorst(weeks: map<Week, WeekFire>, v: Week) {
    && v in weeks && !weeks[v].burnt
    && forall w | w in weeks && !weeks[w].burnt :: NotBetterThan(weeks, v, w)
  }

  lemma {:induction false} WorstAmong(weeks: map<Week, WeekFire>, ws: set<Week>) returns (v: Week)
    requires ws <= weeks.Keys && ws != {}
    requires forall w | w in ws :: !weeks[w].burnt
    ensures v in ws && forall w | w in ws :: NotBetterThan(weeks, v, w)
    decreases ws
  {
    var w := AnElement(ws);
    var rest := ws - {w};
    v := w;
    if rest != {} {
      var v' := WorstAmong(weeks, rest);
      v := if NotBetterThan(weeks, v', w) then v' else w;
    }
    assert forall u | u in ws :: u == w || u in rest;
  }

  /** The unburnt week with the most flames, the earliest of them on a tie. */
  function WorstWeek(weeks: map<Week, WeekFire>, ghost some: Week): (v: Week)
    requires some in weeks && !weeks[some].burnt
    ensures IsWorst(weeks, v)
  {
    ghost var unburnt := set w | w in weeks && !weeks[w].burnt;
    assert exists v :: v in weeks && IsWorst(weeks, v) by {
      assert some in unburnt;
      var v := WorstAmong(weeks, unburnt);
      assert IsWorst(weeks, v);
    }
    var v :| v in weeks && IsWorst(weeks, v);
    v
  }

  // ---------- operations ----------

  /** Get-or-create of a week row. */
  function Touch(b: Board, week: Week): Board {
    b.(weeks := b.weeks[week := RowAt(b.weeks, week)])
  }

  /** The flame lands normally. */
  ghost function Land(b: Board, week: Week, key: string, i: nat): Board
    requires week in b.weeks
  {
    b.(weeks := b.weeks[week := b.weeks[week].(flames := b.weeks[week].flames + 1)],
       log := b.log + [FireAdded(UnitKey(key, i), week, false)])
  }

  /** One droplet smothers the incoming flame; the week row keeps its count. */
  ghost function AutoDouse(b: Board, week: Week, key: string, i: nat): Board {
    var fire := UnitKey(key, i);
    b.(water := b.water - 1, spent := b.spent + 1, extinguished := b.extinguished + 1,
       log := b.log + [FireAdded(fire, week, false),
                       WaterSpent(ForcedWaterKey(fire), Some(week), 1, true),
                       FireExtinguished(ForcedExtinguishedKey(fire), Some(week), 1)])
  }

  /** The flame lands, then the worst week burns to ash. */
  ghost function Burn(b: Board, week: Week, key: string, i: nat): Board
    requires week in b.weeks && !b.weeks[week].burnt
  {
    var landed := Land(b, week, key, i);
    var victim := WorstWeek(landed.weeks, week);
    landed.(weeks := landed.weeks[victim := WeekFire(0, true)],
            log := landed.log + [WeekBurned(BurnedKey(victim, key, i), victim, landed.weeks[victim].flames)])
  }

  /** The fire of a burnt week is only recorded. */
  ghost function RecordOnly(b: Board, week: Week, key: string, i: nat): Board {
    if BurntWeekKey(key, i) in KeysOf(b.log) then b
    else b.(log := b.log + [FireAdded(BurntWeekKey(key, i), week, true)])
  }

  /** One unit of add_fire. */
  ghost function FireUnit(b: Board, week: Week, key: string, i: nat): Board
    requires week in b.weeks
  {
    if b.weeks[week].burnt then RecordOnly(b, week, key, i)
    else if UnitKey(key, i) in KeysOf(b.log) then b
    else if TotalActive(b.weeks) + 1 <= b.water then Land(b, week, key, i)
    else if b.water > 0 then AutoDouse(b, week, key, i)
    else Burn(b, week, key, i)
  }

  /** The first n units of one add_fire call. */
  ghost function FireUnits(b: Board, week: Week, key: string, n: nat): (r: Board)
    requires week in b.weeks
    ensures b.weeks.Keys <= r.weeks.Keys
  {
    if n == 0 then b else FireUnit(FireUnits(b, week, key, n - 1), week, key, n - 1)
  }

  ghost function AddFire(b: Board, units: int, week: Week, key: string): Board {
    if units <= 0 then b else FireUnits(Touch(b, week), week, key, units)
  }

  ghost function AwardWater(b: Board, units: int, key: string): Board {
    if units <= 0 || AwardKey(key) in KeysOf(b.log) then b
    else
      var water' := Min(b.water + units, b.capacity);
      var added := Max(water' - b.water, 0);
      if added == 0 then b.(water := water')
      else b.(water := water', earned := b.earned + added,
              log := b.log + [WaterEarned(AwardKey(key), added)])
  }

  /** What a manual douse may spend. */
  ghost function Spendable(b: Board, units: int, scope: Option<Week>): int {
    match scope
    case Some(w) => if w in b.weeks then Min(units, Min(b.water, b.weeks[w].flames)) else 0
    case None => Min(units, Min(b.water, b.fireUnits))
  }

  ghost function ManualDouse(b: Board, units: int, key: string, scope: Option<Week>): Board {
    var n := Spendable(b, units, scope);
    if units <= 0 || ManualWaterKey(key) in KeysOf(b.log) || n <= 0 then b
    else
      var paid := b.(water := b.water - n, spent := b.spent + n, extinguished := b.extinguished + n,
                     log := b.log + [WaterSpent(ManualWaterKey(key), scope, n, false),
                                     FireExtinguished(ManualExtinguishedKey(key), scope, n)]);
      match scope
      case Some(w) => paid.(weeks := b.weeks[w := b.weeks[w].(flames := b.weeks[w].flames - n)])
      case None => paid.(fireUnits := b.fireUnits - n)
  }

  // ---------- runs ----------

  datatype Op =
    | OpFire(units: int, week: Week, key: string)
    | OpAward(units: int, key: string)
    | OpDouse(units: int, key: string, scope: Option<Week>)

  ghost function Perform(b: Board, op: Op): Board {
    match op
    case OpFire(units, week, key) => AddFire(b, units, week, key)
    case OpAward(units, key) => AwardWater(b, units, key)
    case OpDouse(units, key, scope) => ManualDouse(b, units, key, scope)
  }

  ghost function Run(b: Board, ops: seq<Op>): Board {
    if ops == [] then b else Perform(Run(b, ops[..|ops| - 1]), ops[|ops| - 1])
  }
}
