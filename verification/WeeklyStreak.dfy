/**
 The weekly streak of services/game.py: the scan over completed weeks, what it returns,
 and how it moves when receipts are shredded, flames come and go, or thresholds rise.
 */
module WeeklyStreaks {
  import opened Prelude
  import opened FireEconomy

  datatype Grade = Green | Yellow | Brown

  /** A stored receipt state row; ageHours is the purchase-to-sync age. */
  datatype Row = Row(id: string, week: Week, grade: Grade, ageHours: real, shredded: bool)

  /** How one week enters the scan. */
  datatype Mark = Skip | Clean | Dirty

  datatype Streak = Streak(run: nat, max: nat)

  function ClassifyAge(age: real, green: real, brown: real): Grade {
    if age <= green then Green else if age > brown then Brown else Yellow
  }

  predicate Quiet(fires: map<Week, WeekFire>, w: Week) {
    w in fires ==> fires[w].flames == 0 && !fires[w].burnt
  }

  predicate Scored(rows: seq<Row>, w: Week) {
    exists r | r in rows :: r.week == w && !r.shredded
  }

  predicate AllGreen(rows: seq<Row>, w: Week) {
    forall r | r in rows && r.week == w && !r.shredded :: r.grade == Green
  }

  /** The current week and weeks without a scored receipt neither count nor break. */
  function MarkOf(rows: seq<Row>, fires: map<Week, WeekFire>, now: Week, w: Week): Mark {
    if w.start >= now.start || !Scored(rows, w) then Skip
    else if AllGreen(rows, w) && Quiet(fires, w) then Clean
    else Dirty
  }

  function WeeksOf(rows: seq<Row>): set<Week> {
    set r | r in rows :: r.week
  }

  // ---------- chronological order ----------

  lemma {:induction false} EarliestAmong(ws: set<Week>) returns (w: Week)
    requires ws != {}
    ensures w in ws && forall v | v in ws :: w.start <= v.start
    decreases ws
  {
    w := AnElement(ws);
    var rest := ws - {w};
    if rest != {} {
      var v := EarliestAmong(rest);
      w := if v.start <= w.start then v else w;
    }
    assert forall u | u in ws :: u in rest || u in ws - rest;
  }

  function Earliest(ws: set<Week>): (w: Week)
    requires ws != {}
    ensures w in ws && forall v | v in ws :: w.start <= v.start
  {
    assert exists w :: w in ws && forall v | v in ws :: w.start <= v.start by {
      var w := EarliestAmong(ws);
    }
    var w :| w in ws && forall v | v in ws :: w.start <= v.start;
    w
  }

  /** The weeks from the earliest on. */
  function Chronological(ws: set<Week>): (s: seq<Week>)
    ensures forall w :: w in s <==> w in ws
    ensures forall i, j | 0 <= i < j < |s| :: s[i].start < s[j].start
  {
    if ws == {} then []
    else
      var w := Earliest(ws);
      [w] + Chronological(ws - {w})
  }

  // ---------- the scan ----------

  function MarksOf(weeks: seq<Week>, rows: seq<Row>, fires: map<Week, WeekFire>, now: Week): (m: seq<Mark>)
    ensures |m| == |weeks|
    ensures forall i | 0 <= i < |m| :: m[i] == MarkOf(rows, fires, now, weeks[i])
  {
    seq(|weeks|, i requires 0 <= i < |weeks| => MarkOf(rows, fires, now, weeks[i]))
  }

  function ScanStep(s: Streak, m: Mark): Streak {
    match m
    case Skip => s
    case Clean => Streak(s.run + 1, if s.run + 1 > s.max then s.run + 1 else s.max)
    case Dirty => Streak(0, s.max)
  }

  function Scan(marks: seq<Mark>): Streak {
    if marks == [] then Streak(0, 0) else ScanStep(Scan(marks[..|marks| - 1]), marks[|marks| - 1])
  }

  function StreakOf(rows: seq<Row>, fires: map<Week, WeekFire>, now: Week): Streak {
    Scan(MarksOf(Chronological(WeeksOf(rows)), rows, fires, now))
  }

  // ---------- what the scan returns ----------

  /** The weeks that count, in order: true when clean. */
  function Counted(marks: seq<Mark>): seq<bool> {
    if marks == [] then []
    else
      var init := Counted(marks[..|marks| - 1]);
      if marks[|marks| - 1] == Skip then init else init + [marks[|marks| - 1] == Clean]
  }

  ghost predicate AllClean(c: seq<bool>, lo: nat, hi: nat)
    requires lo <= hi <= |c|
  {
    forall i | lo <= i < hi :: c[i]
  }

  ghost predicate LongestCleanSuffix(c: seq<bool>, k: nat) {
    k <= |c| && AllClean(c, |c| - k, |c|) && (k < |c| ==> !c[|c| - k - 1])
  }

  ghost predicate LongestCleanRun(c: seq<bool>, k: nat) {
    && (exists lo: nat, hi: nat :: lo <= hi <= |c| && hi - lo == k && AllClean(c, lo, hi))
    && (forall lo: nat, hi: nat | lo <= hi <= |c| && AllClean(c, lo, hi) :: hi - lo <= k)
  }

  lemma CleanSnoc(c: seq<bool>, x: bool, s: Streak)
    requires LongestCleanSuffix(c, s.run) && LongestCleanRun(c, s.max)
    ensures var s' := ScanStep(s, if x then Clean else Dirty);
            LongestCleanSuffix(c + [x], s'.run) && LongestCleanRun(c + [x], s'.max)
  {
    var c' := c + [x];
    var s' := ScanStep(s, if x then Clean else Dirty);
    var n := |c|;
    assert forall i | 0 <= i < n :: c'[i] == c[i];
    var lo0: nat, hi0: nat :| lo0 <= hi0 <= n && hi0 - lo0 == s.max && AllClean(c, lo0, hi0);
    assert AllClean(c', lo0, hi0);
    if x {
      assert AllClean(c', n - s.run, n + 1);
    }
    assert s.run < n ==> !c'[n - s.run - 1];
    forall lo: nat, hi: nat | lo <= hi <= n + 1 && AllClean(c', lo, hi)
      ensures hi - lo <= s'.max
    {
      if hi <= n {
        assert AllClean(c, lo, hi);
      } else if lo <= n {
        assert c'[n];
      }
    }
  }

  /** The scan's two numbers are the longest clean suffix and the longest clean run of the weeks that count. */
  lemma {:induction false} ScanFindsLongestRuns(marks: seq<Mark>)
    ensures LongestCleanSuffix(Counted(marks), Scan(marks).run)
    ensures LongestCleanRun(Counted(marks), Scan(marks).max)
  {
    if marks == [] {
      assert AllClean([], 0, 0);
    } else {
      var init, last := marks[..|marks| - 1], marks[|marks| - 1];
      ScanFindsLongestRuns(init);
      if last != Skip {
        CleanSnoc(Counted(init), last == Clean, Scan(init));
      }
    }
  }

  lemma LongestAreUnique(c: seq<bool>, s: Streak, s': Streak)
    requires LongestCleanSuffix(c, s.run) && LongestCleanRun(c, s.max)
    requires LongestCleanSuffix(c, s'.run) && LongestCleanRun(c, s'.max)
    ensures s == s'
  {
    var lo: nat, hi: nat :| lo <= hi <= |c| && hi - lo == s.max && AllClean(c, lo, hi);
    var lo': nat, hi': nat :| lo' <= hi' <= |c| && hi' - lo' == s'.max && AllClean(c, lo', hi');
  }

  /** A completed week with a receipt that is not shredded. */
  ghost predicate IsPlayed(rows: seq<Row>, now: Week, w: Week) {
    w.start < now.start && exists i :: 0 <= i < |rows| && rows[i].week == w && !rows[i].shredded
  }

  /** All its receipts that are not shredded are green, and it has no flames and is not ash. */
  ghost predicate IsClean(rows: seq<Row>, fires: map<Week, WeekFire>, w: Week) {
    && (forall i | 0 <= i < |rows| && rows[i].week == w && !rows[i].shredded :: rows[i].grade == Green)
    && (w !in fires || fires[w] == WeekFire(0, false))
  }

  /** The played weeks, in order. */
  ghost predicate PlayedInOrder(rows: seq<Row>, now: Week, played: seq<Week>) {
    && InOrder(played)
    && (forall w :: w in played <==> IsPlayed(rows, now, w))
  }

  /** The weeks of a list that count. */
  function Played(weeks: seq<Week>, rows: seq<Row>, fires: map<Week, WeekFire>, now: Week): seq<Week> {
    if weeks == [] then []
    else
      var w := weeks[|weeks| - 1];
      Played(weeks[..|weeks| - 1], rows, fires, now) + if MarkOf(rows, fires, now, w) == Skip then [] else [w]
  }

  lemma PlayedMark(rows: seq<Row>, fires: map<Week, WeekFire>, now: Week, w: Week)
    ensures MarkOf(rows, fires, now, w) != Skip <==> IsPlayed(rows, now, w)
    ensures IsPlayed(rows, now, w) ==> (MarkOf(rows, fires, now, w) == Clean <==> IsClean(rows, fires, w))
    ensures IsPlayed(rows, now, w) ==> w in WeeksOf(rows)
  {
    forall i | 0 <= i < |rows| ensures rows[i] in rows {
    }
    if AllGreen(rows, w) && Quiet(fires, w) {
      assert IsClean(rows, fires, w);
    }
    if IsClean(rows, fires, w) {
      forall r | r in rows && r.week == w && !r.shredded ensures r.grade == Green {
        var i :| 0 <= i < |rows| && rows[i] == r;
      }
    }
  }

  lemma {:induction false} PlayedAre(weeks: seq<Week>, rows: seq<Row>, fires: map<Week, WeekFire>, now: Week)
    ensures forall w :: w in Played(weeks, rows, fires, now) <==> w in weeks && MarkOf(rows, fires, now, w) != Skip
  {
    hide MarkOf;
    if weeks != [] {
      var n := |weeks| - 1;
      PlayedAre(weeks[..n], rows, fires, now);
      assert weeks == weeks[..n] + [weeks[n]];
    }
  }

  ghost predicate InOrder(weeks: seq<Week>) {
    forall i, j | 0 <= i < j < |weeks| :: weeks[i].start < weeks[j].start
  }

  lemma InOrderSnoc(weeks: seq<Week>, w: Week)
    requires InOrder(weeks) && forall v | v in weeks :: v.start < w.start
    ensures InOrder(weeks + [w])
  {
  }

  lemma {:induction false} PlayedAscend(weeks: seq<Week>, rows: seq<Row>, fires: map<Week, WeekFire>, now: Week)
    requires InOrder(weeks)
    ensures InOrder(Played(weeks, rows, fires, now))
  {
    hide MarkOf;
    if weeks != [] {
      var n := |weeks| - 1;
      var before := Played(weeks[..n], rows, fires, now);
      PlayedAscend(weeks[..n], rows, fires, now);
      PlayedAre(weeks[..n], rows, fires, now);
      forall v | v in before ensures v.start < weeks[n].start {
        var k :| 0 <= k < n && weeks[..n][k] == v;
        assert weeks[k] == v;
      }
      InOrderSnoc(before, weeks[n]);
      assert before + [] == before;
    }
  }

  lemma {:induction false} PlayedAreCounted(weeks: seq<Week>, rows: seq<Row>, fires: map<Week, WeekFire>, now: Week)
    ensures var played := Played(weeks, rows, fires, now);
            Counted(MarksOf(weeks, rows, fires, now))
            == seq(|played|, i requires 0 <= i < |played| => MarkOf(rows, fires, now, played[i]) == Clean)
  {
    hide MarkOf;
    if weeks != [] {
      var n := |weeks| - 1;
      PlayedAreCounted(weeks[..n], rows, fires, now);
      assert MarksOf(weeks, rows, fires, now)[..n] == MarksOf(weeks[..n], rows, fires, now);
    }
  }

  /**
   The two numbers, said without the scan: over the completed weeks that have a receipt, in order,
   the longest clean stretch up to the last of them, and the longest clean stretch at all.
   */
  lemma StreakIsLongestCleanRuns(rows: seq<Row>, fires: map<Week, WeekFire>, now: Week) returns (played: seq<Week>)
    ensures PlayedInOrder(rows, now, played)
    ensures var clean := seq(|played|, i requires 0 <= i < |played| => IsClean(rows, fires, played[i]));
            && LongestCleanSuffix(clean, StreakOf(rows, fires, now).run)
            && LongestCleanRun(clean, StreakOf(rows, fires, now).max)
  {
    hide Scan, MarkOf, LongestCleanRun, LongestCleanSuffix, IsPlayed, IsClean, Counted;
    var weeks := Chronological(WeeksOf(rows));
    played := Played(weeks, rows, fires, now);
    PlayedAre(weeks, rows, fires, now);
    PlayedAscend(weeks, rows, fires, now);
    PlayedAreCounted(weeks, rows, fires, now);
    forall w ensures w in played <==> IsPlayed(rows, now, w) {
      PlayedMark(rows, fires, now, w);
    }
    var marks := MarksOf(weeks, rows, fires, now);
    ScanFindsLongestRuns(marks);
    var clean := seq(|played|, i requires 0 <= i < |played| => IsClean(rows, fires, played[i]));
    forall i | 0 <= i < |played| ensures clean[i] == (MarkOf(rows, fires, now, played[i]) == Clean) {
      assert played[i] in played;
      PlayedMark(rows, fires, now, played[i]);
    }
    assert clean == Counted(marks);
  }

  /** Regrading changes nothing but grades: green up to one threshold, yellow up to the other, then brown. */
  lemma RegradedByAge(rows: seq<Row>, green: real, brown: real, i: nat)
    requires i < |rows| && green <= brown
    ensures var row := Reclassify(rows, green, brown)[i];
            && row == rows[i].(grade := row.grade)
            && (row.grade == Green <==> row.ageHours <= green)
            && (row.grade == Yellow <==> green < row.ageHours <= brown)
            && (row.grade == Brown <==> brown < row.ageHours)
  {
  }

  /** Older is never greener; exactly on a threshold the better grade counts. */
  lemma OlderIsNeverGreener(a: real, b: real, green: real, brown: real)
    requires a <= b && green <= brown
    ensures Rank(ClassifyAge(a, green, brown)) <= Rank(ClassifyAge(b, green, brown))
    ensures ClassifyAge(green, green, brown) == Green
    ensures green < brown ==> ClassifyAge(brown, green, brown) == Yellow
    ensures a > green ==> ClassifyAge(a, green, brown) != Green
    ensures a > brown ==> ClassifyAge(a, green, brown) == Brown
  {
  }

  // ---------- how the streak moves ----------

  /** m' is at least as good as m. */
  predicate NoWorse(m: Mark, m': Mark) {
    m == Dirty || m' == Clean || m == m'
  }

  lemma {:induction false} ScanMonotone(marks: seq<Mark>, marks': seq<Mark>)
    requires |marks| == |marks'|
    requires forall i | 0 <= i < |marks| :: NoWorse(marks[i], marks'[i])
    ensures Scan(marks).run <= Scan(marks').run && Scan(marks).max <= Scan(marks').max
  {
    if marks != [] {
      ScanMonotone(marks[..|marks| - 1], marks'[..|marks| - 1]);
      assert NoWorse(marks[|marks| - 1], marks'[|marks| - 1]);
    }
  }

  ghost predicate NeverLower(s: Streak, s': Streak) {
    s.run <= s'.run && s.max <= s'.max
  }

  /** Two histories over the same weeks, the second no worse in any week. */
  lemma StreakMonotone(rows: seq<Row>, fires: map<Week, WeekFire>, rows': seq<Row>, fires': map<Week, WeekFire>,
                       now: Week)
    requires WeeksOf(rows) == WeeksOf(rows')
    requires forall w :: NoWorse(MarkOf(rows, fires, now, w), MarkOf(rows', fires', now, w))
    ensures NeverLower(StreakOf(rows, fires, now), StreakOf(rows', fires', now))
  {
    var ws := Chronological(WeeksOf(rows));
    ScanMonotone(MarksOf(ws, rows, fires, now), MarksOf(ws, rows', fires', now));
  }

  /** Row by row the same receipt in the same week. */
  ghost predicate SameReceipts(rows: seq<Row>, rows': seq<Row>) {
    |rows| == |rows'| && forall i | 0 <= i < |rows| :: rows[i].id == rows'[i].id && rows[i].week == rows'[i].week
  }

  lemma SameReceiptsSameWeeks(rows: seq<Row>, rows': seq<Row>)
    requires SameReceipts(rows, rows')
    ensures WeeksOf(rows) == WeeksOf(rows')
  {
    forall w | w in WeeksOf(rows) ensures w in WeeksOf(rows') {
      var i :| 0 <= i < |rows| && rows[i].week == w;
      assert rows'[i] in rows';
    }
    forall w | w in WeeksOf(rows') ensures w in WeeksOf(rows) {
      var i :| 0 <= i < |rows'| && rows'[i].week == w;
      assert rows[i] in rows;
    }
  }

  /** The row that spend_shred_token marks. */
  function ShredRow(rows: seq<Row>, i: nat): seq<Row>
    requires i < |rows|
  {
    rows[i := rows[i].(shredded := true)]
  }

  /** Shredding a yellow or brown receipt never lowers the current or the longest streak. */
  lemma ShreddingNeverLowers(rows: seq<Row>, i: nat, fires: map<Week, WeekFire>, now: Week)
    requires i < |rows| && rows[i].grade != Green
    ensures NeverLower(StreakOf(rows, fires, now), StreakOf(ShredRow(rows, i), fires, now))
  {
    var rows' := ShredRow(rows, i);
    SameReceiptsSameWeeks(rows, rows');
    forall w ensures NoWorse(MarkOf(rows, fires, now, w), MarkOf(rows', fires, now, w)) {
      var m := MarkOf(rows, fires, now, w);
      if m != Dirty {
        // then row i was not a scored row of week w
        assert rows[i] in rows;
        assert forall r | r in rows' && !r.shredded :: r in rows;
        if m == Clean {
          var j :| 0 <= j < |rows| && rows[j].week == w && !rows[j].shredded;
          assert rows'[j] == rows[j] && rows'[j] in rows';
        }
      }
    }
    StreakMonotone(rows, fires, rows', fires, now);
  }

  function Reclassify(rows: seq<Row>, green: real, brown: real): (r: seq<Row>)
    ensures |r| == |rows|
  {
    seq(|rows|, i requires 0 <= i < |rows| => rows[i].(grade := ClassifyAge(rows[i].ageHours, green, brown)))
  }

  lemma ReclassifiedNoWorse(rows: seq<Row>, fires: map<Week, WeekFire>, now: Week, w: Week,
                            green: real, brown: real, green': real, brown': real)
    requires green <= green'
    ensures NoWorse(MarkOf(Reclassify(rows, green, brown), fires, now, w),
                    MarkOf(Reclassify(rows, green', brown'), fires, now, w))
  {
    var a, b := Reclassify(rows, green, brown), Reclassify(rows, green', brown');
    if r :| r in a && r.week == w && !r.shredded {
      var i :| 0 <= i < |a| && a[i] == r;
      assert b[i] in b && Scored(b, w);
    }
    forall r | r in b && r.week == w && !r.shredded
      ensures Scored(a, w) && (AllGreen(a, w) ==> r.grade == Green)
    {
      var i :| 0 <= i < |b| && b[i] == r;
      assert a[i] in a;
    }
  }

  /** Raising both timeliness thresholds never lowers either number. */
  lemma RaisingThresholdsNeverLowers(rows: seq<Row>, fires: map<Week, WeekFire>, now: Week,
                                     green: real, brown: real, green': real, brown': real)
    requires green <= green' && brown <= brown'
    ensures NeverLower(StreakOf(Reclassify(rows, green, brown), fires, now),
                       StreakOf(Reclassify(rows, green', brown'), fires, now))
  {
    hide MarkOf, StreakOf;
    var a, b := Reclassify(rows, green, brown), Reclassify(rows, green', brown');
    SameReceiptsSameWeeks(a, b);
    forall w ensures NoWorse(MarkOf(a, fires, now, w), MarkOf(b, fires, now, w)) {
      ReclassifiedNoWorse(rows, fires, now, w, green, brown, green', brown');
    }
    StreakMonotone(a, fires, b, fires, now);
  }

  /** Fewer troubled weeks never lower the streak. */
  lemma CalmerFiresNeverLower(rows: seq<Row>, fires: map<Week, WeekFire>, fires': map<Week, WeekFire>, now: Week)
    requires forall w :: Quiet(fires, w) ==> Quiet(fires', w)
    ensures NeverLower(StreakOf(rows, fires, now), StreakOf(rows, fires', now))
  {
    StreakMonotone(rows, fires, rows, fires', now);
  }

  /** Dousing flames by hand never lowers the streak. */
  lemma DousingNeverLowers(rows: seq<Row>, b: Board, units: int, key: string, scope: Option<Week>, now: Week)
    ensures NeverLower(StreakOf(rows, b.weeks, now),
                       StreakOf(rows, ManualDouse(b, units, key, scope).weeks, now))
  {
    CalmerFiresNeverLower(rows, b.weeks, ManualDouse(b, units, key, scope).weeks, now);
  }

  /** One incoming flame leaves every troubled week troubled, even when it burns one to ash. */
  lemma FireUnitCalmsNothing(b: Board, week: Week, key: string, i: nat, w: Week)
    requires week in b.weeks
    ensures Quiet(FireUnit(b, week, key, i).weeks, w) ==> Quiet(b.weeks, w)
  {
  }

  lemma {:induction false} FireUnitsCalmNothing(b: Board, week: Week, key: string, n: nat, w: Week)
    requires week in b.weeks
    ensures Quiet(FireUnits(b, week, key, n).weeks, w) ==> Quiet(b.weeks, w)
  {
    hide FireUnit;
    if n > 0 {
      FireUnitsCalmNothing(b, week, key, n - 1, w);
      FireUnitCalmsNothing(FireUnits(b, week, key, n - 1), week, key, n - 1, w);
    }
  }

  /** Adding fires never raises either number. */
  lemma AddingFiresNeverRaises(rows: seq<Row>, b: Board, units: int, week: Week, key: string, now: Week)
    ensures NeverLower(StreakOf(rows, AddFire(b, units, week, key).weeks, now), StreakOf(rows, b.weeks, now))
  {
    var after := AddFire(b, units, week, key).weeks;
    forall w ensures Quiet(after, w) ==> Quiet(b.weeks, w) {
      if units > 0 {
        FireUnitsCalmNothing(Touch(b, week), week, key, units, w);
      }
    }
    CalmerFiresNeverLower(rows, after, b.weeks, now);
  }

  // ---------- the method ----------

  /** Keeps only one week's rows, in order. */
  function RowsOf(rows: seq<Row>, w: Week): (r: seq<Row>)
    ensures forall x :: x in r <==> x in rows && x.week == w
  {
    if rows == [] then []
    else
      var init, last := rows[..|rows| - 1], rows[|rows| - 1];
      assert rows == init + [last];
      RowsOf(init, w) + if last.week == w then [last] else []
  }

  lemma NoRowsOf(rows: seq<Row>, w: Week)
    requires w !in WeeksOf(rows)
    ensures RowsOf(rows, w) == []
  {
    if rows != [] {
      var init, last := rows[..|rows| - 1], rows[|rows| - 1];
      assert rows == init + [last];
      assert last.week in WeeksOf(rows);
      NoRowsOf(init, w);
    }
  }

  /** The rows_by_week dictionary. */
  method GroupByWeek(rows: seq<Row>) returns (byWeek: map<Week, seq<Row>>)
    ensures byWeek.Keys == WeeksOf(rows)
    ensures forall w | w in byWeek :: byWeek[w] == RowsOf(rows, w)
  {
    byWeek := map[];
    for i := 0 to |rows|
      invariant byWeek.Keys == WeeksOf(rows[..i])
      invariant forall w | w in byWeek :: byWeek[w] == RowsOf(rows[..i], w)
    {
      var w := rows[i].week;
      assert rows[..i + 1] == rows[..i] + [rows[i]];
      if w !in byWeek {
        NoRowsOf(rows[..i], w);
      }
      byWeek := byWeek[w := (if w in byWeek then byWeek[w] else []) + [rows[i]]];
    }
    assert rows[..|rows|] == rows;
  }

  method SortWeeks(ws: set<Week>) returns (s: seq<Week>)
    ensures s == Chronological(ws)
  {
    s := [];
    var todo := ws;
    while todo != {}
      invariant s + Chronological(todo) == Chronological(ws)
      decreases todo
    {
      var w := Earliest(todo);
      s := s + [w];
      todo := todo - {w};
    }
  }

  function Rank(g: Grade): nat {
    match g case Green => 0 case Yellow => 1 case Brown => 2
  }

  /** A week is judged on its own rows. */
  lemma JudgedAlone(rows: seq<Row>, w: Week)
    ensures Scored(RowsOf(rows, w), w) == Scored(rows, w)
    ensures AllGreen(RowsOf(rows, w), w) == AllGreen(rows, w)
  {
    if Scored(rows, w) {
      var r :| r in rows && r.week == w && !r.shredded;
      assert r in RowsOf(rows, w);
    }
  }

  /** Whether a week counts, and whether it is clean: the body shared by the streak and pass loops. */
  method JudgeWeek(ghost rows: seq<Row>, weekRows: seq<Row>, fires: map<Week, WeekFire>, w: Week)
    returns (counts: bool, clean: bool)
    requires weekRows == RowsOf(rows, w)
    ensures counts == Scored(rows, w)
    ensures counts ==> clean == (AllGreen(rows, w) && Quiet(fires, w))
  {
    counts := false;
    var worst := 0;
    for i := 0 to |weekRows|
      invariant counts == Scored(weekRows[..i], w)
      invariant worst == 0 <==> AllGreen(weekRows[..i], w)
    {
      assert weekRows[..i + 1] == weekRows[..i] + [weekRows[i]];
      assert weekRows[i].week == w;
      if !weekRows[i].shredded {
        counts := true;
        if Rank(weekRows[i].grade) > worst {
          worst := Rank(weekRows[i].grade);
        }
      }
      assert forall r :: r in weekRows[..i + 1] <==> r in weekRows[..i] || r == weekRows[i];
    }
    assert weekRows[..|weekRows|] == weekRows;
    JudgedAlone(rows, w);
    var hasFlames := w in fires && (fires[w].flames > 0 || fires[w].burnt);
    clean := worst == 0 && !hasFlames;
  }

  lemma ScanSnoc(marks: seq<Mark>, i: nat)
    requires i < |marks|
    ensures Scan(marks[..i + 1]) == ScanStep(Scan(marks[..i]), marks[i])
  {
    assert marks[..i + 1][..i] == marks[..i];
  }

  lemma ScanEmpty(marks: seq<Mark>)
    ensures Scan(marks[..0]) == Streak(0, 0)
  {
  }

  lemma NoRowsNoStreak(fires: map<Week, WeekFire>, now: Week)
    ensures StreakOf([], fires, now) == Streak(0, 0)
  {
    assert WeeksOf([]) == {};
  }

  /** _derive_weekly_streak: returns (current_streak, max_streak). */
  method DeriveWeeklyStreak(rows: seq<Row>, fires: map<Week, WeekFire>, now: Week) returns (current: nat, max: nat)
    ensures Streak(current, max) == StreakOf(rows, fires, now)
  {
    hide Scored, AllGreen, Quiet, RowsOf, MarksOf, Chronological, Scan;
    if rows == [] {
      NoRowsNoStreak(fires, now);
      return 0, 0;
    }
    var byWeek := GroupByWeek(rows);
    var sorted := SortWeeks(byWeek.Keys);
    ghost var marks := MarksOf(sorted, rows, fires, now);
    var run := 0;
    max := 0;
    ScanEmpty(marks);
    for i := 0 to |sorted|
      invariant Streak(run, max) == Scan(marks[..i])
    {
      ScanSnoc(marks, i);
      var w := sorted[i];
      if w.start >= now.start {
        continue;
      }
      var counts, clean := JudgeWeek(rows, byWeek[w], fires, w);
      if !counts {
        continue;
      }
      if clean {
        run := run + 1;
        if run > max {
          max := run;
        }
      } else {
        run := 0;
      }
    }
    assert marks[..|sorted|] == marks;
    current := run;
  }
}
