/**
 Skip passes of services/game.py: awarding a pass at every threshold-th week of a clean
 run, and spending one to shred a yellow or brown receipt.
 */
module SkipPasses {
  import opened Prelude
  import opened FireEconomy
  import opened WeeklyStreaks

  /** The events of the token ledger, keyed by week and by receipt. */
  datatype TokenEvent =
    | PassEarned(week: Week, position: nat)
    | TokenSpent(receipt: string, day: int)

  datatype Forest = Forest(rows: seq<Row>, balance: int, earned: int, spent: int, log: seq<TokenEvent>)

  function EmptyForest(): Forest { Forest([], 0, 0, 0, []) }

  function PassWeeks(log: seq<TokenEvent>): set<Week> {
    set e | e in log && e.PassEarned? :: e.week
  }

  function PaidReceipts(log: seq<TokenEvent>): set<string> {
    set e | e in log && e.TokenSpent? :: e.receipt
  }

  // ---------- awarding ----------

  /** Week i completes a clean run whose length is a multiple of the threshold. */
  predicate EarnsAt(marks: seq<Mark>, i: nat, threshold: nat)
    requires i < |marks| && 1 <= threshold
  {
    marks[i] == Clean && Scan(marks[..i + 1]).run % threshold == 0
  }

  function Award(f: Forest, w: Week, position: nat): Forest {
    if w in PassWeeks(f.log) then f
    else f.(earned := f.earned + 1, balance := f.balance + 1, log := f.log + [PassEarned(w, position)])
  }

  /** The first n weeks of an evaluation. */
  function AwardUpTo(f: Forest, weeks: seq<Week>, marks: seq<Mark>, threshold: nat, n: nat): (g: Forest)
    requires |weeks| == |marks| && n <= |weeks| && 1 <= threshold
    ensures g.rows == f.rows && g.spent == f.spent && f.log <= g.log
  {
    if n == 0 then f
    else
      var g := AwardUpTo(f, weeks, marks, threshold, n - 1);
      if EarnsAt(marks, n - 1, threshold) then Award(g, weeks[n - 1], Scan(marks[..n]).run) else g
  }

  function Evaluate(f: Forest, fires: map<Week, WeekFire>, now: Week, threshold: nat): Forest
    requires 1 <= threshold
  {
    var weeks := Chronological(WeeksOf(f.rows));
    AwardUpTo(f, weeks, MarksOf(weeks, f.rows, fires, now), threshold, |weeks|)
  }

  // ---------- spending ----------

  /** The weeks a receipt stays shreddable, the current one included: never less than one. */
  type Window = n: nat | 1 <= n witness 1

  datatype ShredOutcome = Spent | AlreadyShredded | AlreadyPaid
    | NotInForest | NotDecayed | OutsideWindow | CapReached | NoTokens

  function FindRow(rows: seq<Row>, id: string): (r: Option<nat>)
    ensures r.Some? ==> r.value < |rows| && rows[r.value].id == id
    ensures r.None? ==> forall q | q in rows :: q.id != id
  {
    if rows == [] then None
    else if rows[0].id == id then Some(0)
    else match FindRow(rows[1..], id)
      case Some(i) => Some(i + 1)
      case None => None
  }

  function SpentOn(log: seq<TokenEvent>, day: int): nat {
    if log == [] then 0
    else SpentOn(log[..|log| - 1], day) + if log[|log| - 1].TokenSpent? && log[|log| - 1].day == day then 1 else 0
  }

  /** The refusals of spend_shred_token, in order, then what it does. */
  function Shred(f: Forest, id: string, day: int, now: Week, window: Window, cap: nat): (Forest, ShredOutcome) {
    var found := FindRow(f.rows, id);
    if found.None? then (f, NotInForest)
    else
      var i := found.value;
      var row := f.rows[i];
      if row.shredded then (f, AlreadyShredded)
      else if row.grade == Green then (f, NotDecayed)
      else if !(now.start - (window - 1) <= row.week.start <= now.start) then (f, OutsideWindow)
      else if cap > 0 && SpentOn(f.log, day) >= cap then (f, CapReached)
      else if f.balance <= 0 then (f, NoTokens)
      else if id in PaidReceipts(f.log) then (f.(rows := ShredRow(f.rows, i)), AlreadyPaid)
      else (f.(rows := ShredRow(f.rows, i), balance := f.balance - 1, spent := f.spent + 1,
               log := f.log + [TokenSpent(id, day)]), Spent)
  }

  // ---------- runs ----------

  datatype Op =
    | OpEvaluate(fires: map<Week, WeekFire>, now: Week)
    | OpShred(id: string, day: int, at: Week, window: Window, cap: nat)
    | OpClassify(row: Row)              // a newly synced receipt enters the forest
    | OpRegrade(green: real, brown: real) // an admin changes the thresholds

  function Perform(f: Forest, op: Op, threshold: nat): Forest
    requires 1 <= threshold
  {
    match op
    case OpEvaluate(fires, now) => Evaluate(f, fires, now, threshold)
    case OpShred(id, day, at, window, cap) => Shred(f, id, day, at, window, cap).0
    case OpClassify(row) =>
      if FindRow(f.rows, row.id).Some? then f else f.(rows := f.rows + [row.(shredded := false)])
    case OpRegrade(green, brown) => f.(rows := Reclassify(f.rows, green, brown))
  }

  function Run(f: Forest, ops: seq<Op>, threshold: nat): Forest
    requires 1 <= threshold
  {
    if ops == [] then f else Perform(Run(f, ops[..|ops| - 1], threshold), ops[|ops| - 1], threshold)
  }

  // ---------- the ledger invariant ----------

  /** Counters are the distinct weeks and receipts of the log; no event repeats a key. */
  ghost predicate LedgerOk(f: Forest) {
    && f.earned == |PassWeeks(f.log)|
    && f.spent == |PaidReceipts(f.log)|
    && |f.log| == f.earned + f.spent
    && f.balance == f.earned - f.spent
    && 0 <= f.balance
  }

  lemma PassSnoc(log: seq<TokenEvent>, e: TokenEvent)
    ensures PassWeeks(log + [e]) == PassWeeks(log) + if e.PassEarned? then {e.week} else {}
    ensures PaidReceipts(log + [e]) == PaidReceipts(log) + if e.TokenSpent? then {e.receipt} else {}
  {
    assert forall x :: x in log + [e] <==> x in log || x == e;
  }

  lemma AwardKeeps(f: Forest, w: Week, position: nat)
    requires LedgerOk(f)
    ensures LedgerOk(Award(f, w, position))
    ensures PassWeeks(Award(f, w, position).log) == PassWeeks(f.log) + {w}
  {
    PassSnoc(f.log, PassEarned(w, position));
  }

  lemma {:induction false} AwardUpToKeeps(f: Forest, weeks: seq<Week>, marks: seq<Mark>, threshold: nat, n: nat)
    requires |weeks| == |marks| && n <= |weeks| && 1 <= threshold
    requires LedgerOk(f)
    ensures LedgerOk(AwardUpTo(f, weeks, marks, threshold, n))
  {
    if n > 0 {
      AwardUpToKeeps(f, weeks, marks, threshold, n - 1);
      AwardKeeps(AwardUpTo(f, weeks, marks, threshold, n - 1), weeks[n - 1], Scan(marks[..n]).run);
    }
  }

  lemma ShredKeeps(f: Forest, id: string, day: int, now: Week, window: Window, cap: nat)
    requires LedgerOk(f)
    ensures LedgerOk(Shred(f, id, day, now, window, cap).0)
  {
    PassSnoc(f.log, TokenSpent(id, day));
    hide PassWeeks, PaidReceipts, SpentOn;
  }

  lemma PerformKeeps(f: Forest, op: Op, threshold: nat)
    requires 1 <= threshold && LedgerOk(f)
    ensures LedgerOk(Perform(f, op, threshold))
  {
    hide PassWeeks, PaidReceipts, Shred, AwardUpTo;
    match op
    case OpEvaluate(fires, now) =>
      var weeks := Chronological(WeeksOf(f.rows));
      AwardUpToKeeps(f, weeks, MarksOf(weeks, f.rows, fires, now), threshold, |weeks|);
    case OpShred(id, day, now, window, cap) => ShredKeeps(f, id, day, now, window, cap);
    case OpClassify(_) =>
    case OpRegrade(_, _) =>
  }

  /** Over every run: passes earned, tokens spent and the balance are what the log says, and no key pays twice. */
  lemma {:induction false} EveryRunKeepsTheLedger(ops: seq<Op>, threshold: nat)
    requires 1 <= threshold
    ensures LedgerOk(Run(EmptyForest(), ops, threshold))
  {
    if ops == [] {
      assert PassWeeks([]) == {} && PaidReceipts([]) == {};
    } else {
      EveryRunKeepsTheLedger(ops[..|ops| - 1], threshold);
      PerformKeeps(Run(EmptyForest(), ops[..|ops| - 1], threshold), ops[|ops| - 1], threshold);
    }
  }

  function TimesPaid(log: seq<TokenEvent>, id: string): nat {
    if log == [] then 0
    else TimesPaid(log[..|log| - 1], id) + if log[|log| - 1].TokenSpent? && log[|log| - 1].receipt == id then 1 else 0
  }

  lemma {:induction false} AtMostOneTokenEach(ops: seq<Op>, threshold: nat, id: string)
    requires 1 <= threshold
    ensures var log := Run(EmptyForest(), ops, threshold).log;
            TimesPaid(log, id) <= 1 && (TimesPaid(log, id) == 1 <==> id in PaidReceipts(log))
  {
    EveryRunKeepsTheLedger(ops, threshold);
    PaidOnce(Run(EmptyForest(), ops, threshold).log, id);
  }

  /** A log no longer than its distinct keys repeats none. */
  lemma {:induction false} PaidOnce(log: seq<TokenEvent>, id: string)
    ensures |PassWeeks(log)| + |PaidReceipts(log)| <= |log|
    ensures |PassWeeks(log)| + |PaidReceipts(log)| == |log| ==> TimesPaid(log, id) <= 1
    ensures TimesPaid(log, id) >= 1 <==> id in PaidReceipts(log)
  {
    if log != [] {
      var init, e := log[..|log| - 1], log[|log| - 1];
      assert log == init + [e];
      PassSnoc(init, e);
      PaidOnce(init, id);
    }
  }

  // ---------- what a spend may do ----------

  /** The receipt's row: the first with its id. */
  ghost predicate IsRowOf(rows: seq<Row>, id: string, i: nat) {
    i < |rows| && rows[i].id == id && forall k | 0 <= k < i :: rows[k].id != id
  }

  lemma {:induction false} FoundIsRowOf(rows: seq<Row>, id: string)
    ensures forall i: nat :: FindRow(rows, id) == Some(i) <==> IsRowOf(rows, id, i)
  {
    if rows != [] {
      FoundIsRowOf(rows[1..], id);
      forall i: nat ensures FindRow(rows, id) == Some(i) <==> IsRowOf(rows, id, i) {
        if IsRowOf(rows, id, i) && i > 0 {
          assert rows[0].id != id && IsRowOf(rows[1..], id, i - 1);
        } else if i > 0 && rows[0].id != id && IsRowOf(rows[1..], id, i - 1) {
          forall k | 0 <= k < i ensures rows[k].id != id {
            assert k > 0 ==> rows[1..][k - 1] == rows[k];
          }
        }
      }
    }
  }

  /** The places of the log that spent a token on that day. */
  function SpendsOn(log: seq<TokenEvent>, day: int): set<nat> {
    set i: nat | i < |log| && log[i].TokenSpent? && log[i].day == day
  }

  lemma {:induction false} SpentOnCounts(log: seq<TokenEvent>, day: int)
    ensures SpentOn(log, day) == |SpendsOn(log, day)|
  {
    if log != [] {
      var n := |log| - 1;
      SpentOnCounts(log[..n], day);
      var before, after := SpendsOn(log[..n], day), SpendsOn(log, day);
      assert after == if log[n].TokenSpent? && log[n].day == day then before + {n} else before;
    }
  }

  /** Yellow or brown, not yet shredded, of one of the window's weeks up to now. */
  ghost predicate MayBeShredded(row: Row, now: Week, window: Window) {
    && !row.shredded && row.grade in {Yellow, Brown}
    && row.week.start <= now.start && now.start < row.week.start + window
  }

  /**
   A spend changes the forest exactly when the receipt may be shredded, a token is left, and the
   day's cap is not reached. It then shreds that receipt and nothing else, and takes one token
   exactly when the receipt was never paid for.
   */
  lemma ShredChangesExactly(f: Forest, id: string, day: int, now: Week, window: Window, cap: nat)
    ensures var g := Shred(f, id, day, now, window, cap).0;
            && (g != f <==>
                  && (exists i: nat :: IsRowOf(f.rows, id, i) && MayBeShredded(f.rows[i], now, window))
                  && f.balance > 0
                  && (cap == 0 || |SpendsOn(f.log, day)| < cap))
            && (g != f ==>
                  && (exists i: nat :: IsRowOf(f.rows, id, i) && g.rows == f.rows[i := f.rows[i].(shredded := true)])
                  && g.earned == f.earned
                  && if id in PaidReceipts(f.log) then g == f.(rows := g.rows)
                     else g == f.(rows := g.rows, balance := f.balance - 1, spent := f.spent + 1,
                                  log := f.log + [TokenSpent(id, day)]))
  {
    hide SpentOn, SpendsOn, PaidReceipts;
    FoundIsRowOf(f.rows, id);
    SpentOnCounts(f.log, day);
    match FindRow(f.rows, id) {
      case None =>
      case Some(i) =>
        assert IsRowOf(f.rows, id, i);
        assert ShredRow(f.rows, i)[i].shredded;
    }
  }

  /** It never answers anything else than what it did. */
  lemma ShredAnswers(f: Forest, id: string, day: int, now: Week, window: Window, cap: nat)
    ensures var (g, r) := Shred(f, id, day, now, window, cap);
            && (r == Spent <==> g.spent == f.spent + 1)
            && (g != f <==> r in {Spent, AlreadyPaid})
            && (r == NotInForest <==> forall q | q in f.rows :: q.id != id)
  {
    hide SpentOn, PaidReceipts;
    match FindRow(f.rows, id) {
      case None =>
      case Some(i) => assert ShredRow(f.rows, i)[i].shredded;
    }
  }

  /** No spend in any run lowers the current or the longest streak. */
  lemma SpendingNeverLowers(ops: seq<Op>, i: nat, threshold: nat, fires: map<Week, WeekFire>, now: Week)
    requires 1 <= threshold && i < |ops| && ops[i].OpShred?
    ensures var f := Run(EmptyForest(), ops[..i], threshold);
            NeverLower(StreakOf(f.rows, fires, now), StreakOf(Perform(f, ops[i], threshold).rows, fires, now))
  {
    hide Run, StreakOf, SpentOn, PaidReceipts;
    var f := Run(EmptyForest(), ops[..i], threshold);
    var found := FindRow(f.rows, ops[i].id);
    if found.Some? && f.rows[found.value].grade != Green {
      ShreddingNeverLowers(f.rows, found.value, fires, now);
    }
  }

  /** In every run a shredded receipt was paid for: no row enters shredded, and none is shredded for nothing. */
  lemma {:induction false} ShreddedWasPaid(ops: seq<Op>, threshold: nat)
    requires 1 <= threshold
    ensures var f := Run(EmptyForest(), ops, threshold);
            forall r | r in f.rows && r.shredded :: r.id in PaidReceipts(f.log)
  {
    hide Perform, PaidReceipts;
    if ops != [] {
      var n := |ops| - 1;
      ShreddedWasPaid(ops[..n], threshold);
      StepShredsThePaid(Run(EmptyForest(), ops[..n], threshold), ops[n], threshold);
    }
  }

  lemma StepShredsThePaid(f: Forest, op: Op, threshold: nat)
    requires 1 <= threshold
    requires forall r | r in f.rows && r.shredded :: r.id in PaidReceipts(f.log)
    ensures var g := Perform(f, op, threshold);
            forall r | r in g.rows && r.shredded :: r.id in PaidReceipts(g.log)
  {
    hide SpentOn, AwardUpTo;
    var g := Perform(f, op, threshold);
    match op
    case OpEvaluate(_, _) =>
    case OpShred(id, day, _, _, _) =>
      PassSnoc(f.log, TokenSpent(id, day));
      hide PaidReceipts;
      forall r | r in g.rows && r.shredded ensures r.id in PaidReceipts(g.log) {
        var i :| 0 <= i < |g.rows| && g.rows[i] == r;
        assert f.rows[i] in f.rows;
      }
    case OpClassify(_) =>
    case OpRegrade(green, brown) =>
      hide PaidReceipts;
      forall r | r in g.rows && r.shredded ensures r.id in PaidReceipts(g.log) {
        var i :| 0 <= i < |g.rows| && g.rows[i] == r;
        assert f.rows[i] in f.rows;
      }
  }

  /** With a daily cap, no run spends more than that on any day. */
  lemma {:induction false} EveryRunKeepsTheCap(ops: seq<Op>, threshold: nat, cap: nat, day: int)
    requires 1 <= threshold && cap > 0
    requires forall i | 0 <= i < |ops| && ops[i].OpShred? :: ops[i].cap == cap
    ensures |SpendsOn(Run(EmptyForest(), ops, threshold).log, day)| <= cap
  {
    hide Perform, SpendsOn;
    SpentOnCounts(Run(EmptyForest(), ops, threshold).log, day);
    if ops == [] {
      assert SpentOn([], day) == 0;
    } else {
      var n := |ops| - 1;
      EveryRunKeepsTheCap(ops[..n], threshold, cap, day);
      var f := Run(EmptyForest(), ops[..n], threshold);
      SpentOnCounts(f.log, day);
      StepKeepsTheCap(f, ops[n], threshold, cap, day);
    }
  }

  lemma StepKeepsTheCap(f: Forest, op: Op, threshold: nat, cap: nat, day: int)
    requires 1 <= threshold && cap > 0 && SpentOn(f.log, day) <= cap
    requires op.OpShred? ==> op.cap == cap
    ensures SpentOn(Perform(f, op, threshold).log, day) <= cap
  {
    hide PaidReceipts, AwardUpTo;
    match op
    case OpEvaluate(fires, now) =>
      var weeks := Chronological(WeeksOf(f.rows));
      AwardsSpendNothing(f, weeks, MarksOf(weeks, f.rows, fires, now), threshold, |weeks|, day);
    case OpShred(id, on, at, window, _) =>
      assert (f.log + [TokenSpent(id, on)])[..|f.log|] == f.log;
    case _ =>
  }

  lemma {:induction false} AwardsSpendNothing(f: Forest, weeks: seq<Week>, marks: seq<Mark>, threshold: nat, n: nat,
                                              day: int)
    requires |weeks| == |marks| && n <= |weeks| && 1 <= threshold
    ensures SpentOn(AwardUpTo(f, weeks, marks, threshold, n).log, day) == SpentOn(f.log, day)
  {
    hide EarnsAt, PassWeeks;
    if n > 0 {
      AwardsSpendNothing(f, weeks, marks, threshold, n - 1, day);
      var g := AwardUpTo(f, weeks, marks, threshold, n - 1);
      assert (g.log + [PassEarned(weeks[n - 1], Scan(marks[..n]).run)])[..|g.log|] == g.log;
    }
  }

  // ---------- evaluating again ----------

  lemma {:induction false} AwardedWeeks(f: Forest, weeks: seq<Week>, marks: seq<Mark>, threshold: nat, n: nat)
    requires |weeks| == |marks| && n <= |weeks| && 1 <= threshold
    ensures var g := AwardUpTo(f, weeks, marks, threshold, n);
            PassWeeks(g.log) == PassWeeks(f.log) + set i | 0 <= i < n && EarnsAt(marks, i, threshold) :: weeks[i]
  {
    if n > 0 {
      AwardedWeeks(f, weeks, marks, threshold, n - 1);
      PassSnoc(AwardUpTo(f, weeks, marks, threshold, n - 1).log, PassEarned(weeks[n - 1], Scan(marks[..n]).run));
    }
  }

  lemma {:induction false} NothingLeftToAward(f: Forest, weeks: seq<Week>, marks: seq<Mark>, threshold: nat, n: nat)
    requires |weeks| == |marks| && n <= |weeks| && 1 <= threshold
    requires forall i | 0 <= i < n && EarnsAt(marks, i, threshold) :: weeks[i] in PassWeeks(f.log)
    ensures AwardUpTo(f, weeks, marks, threshold, n) == f
  {
    if n > 0 {
      NothingLeftToAward(f, weeks, marks, threshold, n - 1);
    }
  }

  /** Evaluating again on the same history awards nothing. */
  lemma ReevaluationAddsNothing(f: Forest, fires: map<Week, WeekFire>, now: Week, threshold: nat)
    requires 1 <= threshold
    ensures var g := Evaluate(f, fires, now, threshold);
            Evaluate(g, fires, now, threshold) == g
  {
    var weeks := Chronological(WeeksOf(f.rows));
    var marks := MarksOf(weeks, f.rows, fires, now);
    AwardedWeeks(f, weeks, marks, threshold, |weeks|);
    NothingLeftToAward(Evaluate(f, fires, now, threshold), weeks, marks, threshold, |weeks|);
  }

  // ---------- how much one evaluation awards ----------

  /** The lengths of the maximal clean runs (some may be empty): the blocks between dirty weeks. */
  function CleanBlocks(c: seq<bool>): (b: seq<nat>)
    ensures |b| > 0
  {
    if c == [] then [0] else NextBlocks(CleanBlocks(c[..|c| - 1]), c[|c| - 1])
  }

  /** A clean week lengthens the last block, a dirty one opens a new block. */
  function NextBlocks(b: seq<nat>, clean: bool): (r: seq<nat>)
    requires |b| > 0
    ensures |r| > 0
  {
    if clean then b[|b| - 1 := b[|b| - 1] + 1] else b + [0]
  }

  /** Each run gives its length divided by the threshold, rounded down. */
  function PassesFor(blocks: seq<nat>, threshold: nat): nat
    requires 1 <= threshold
  {
    if blocks == [] then 0
    else PassesFor(blocks[..|blocks| - 1], threshold) + blocks[|blocks| - 1] / threshold
  }

  lemma DivStep(r: nat, t: nat)
    requires 1 <= t
    ensures (r + 1) / t == r / t + if (r + 1) % t == 0 then 1 else 0
  {
    var q, m := r / t, r % t;
    DivMod(r, t);
    if m + 1 == t {
      assert (q + 1) * t == q * t + t;
      DivUnique(r + 1, t, q + 1, 0);
    } else {
      DivUnique(r + 1, t, q, m + 1);
    }
  }

  lemma GrownBlock(b: seq<nat>, t: nat)
    requires |b| > 0 && 1 <= t
    ensures var last := b[|b| - 1];
            PassesFor(b[|b| - 1 := last + 1], t) == PassesFor(b, t) + if (last + 1) % t == 0 then 1 else 0
  {
    var b' := b[|b| - 1 := b[|b| - 1] + 1];
    assert b'[..|b'| - 1] == b[..|b| - 1];
    DivStep(b[|b| - 1], t);
  }

  lemma NewBlock(b: seq<nat>, t: nat)
    requires 1 <= t
    ensures PassesFor(b + [0], t) == PassesFor(b, t)
  {
    assert (b + [0])[..|b|] == b;
  }

  lemma {:induction false} LastBlockIsTheRun(marks: seq<Mark>)
    ensures var b := CleanBlocks(Counted(marks)); b[|b| - 1] == Scan(marks).run
  {
    if marks != [] {
      LastBlockIsTheRun(marks[..|marks| - 1]);
      CountedSnoc(marks);
    }
  }

  /** CleanBlocks follows the marks one week at a time. */
  lemma CountedSnoc(marks: seq<Mark>)
    requires marks != []
    ensures var b := CleanBlocks(Counted(marks[..|marks| - 1]));
            CleanBlocks(Counted(marks)) == match marks[|marks| - 1]
              case Skip => b
              case Clean => b[|b| - 1 := b[|b| - 1] + 1]
              case Dirty => b + [0]
  {
    hide CleanBlocks;
    var init := Counted(marks[..|marks| - 1]);
    BlocksSnoc(init, true);
    BlocksSnoc(init, false);
  }

  lemma BlocksSnoc(c: seq<bool>, x: bool)
    ensures CleanBlocks(c + [x]) == NextBlocks(CleanBlocks(c), x)
  {
    hide NextBlocks;
    assert (c + [x])[..|c|] == c;
  }

  /** One week moves the awards and the per-run count alike. */
  lemma AwardsOneWeek(marks: seq<Mark>, n: nat, threshold: nat)
    requires n < |marks| && 1 <= threshold
    ensures PassesFor(CleanBlocks(Counted(marks[..n + 1])), threshold)
            == PassesFor(CleanBlocks(Counted(marks[..n])), threshold)
               + if EarnsAt(marks, n, threshold) then 1 else 0
  {
    hide Counted, CleanBlocks, PassesFor, Scan;
    var m := marks[..n + 1];
    assert m[..n] == marks[..n];
    CountedSnoc(m);
    LastBlockIsTheRun(marks[..n]);
    ScanSnoc(marks, n);
    var b := CleanBlocks(Counted(marks[..n]));
    GrownBlock(b, threshold);
    NewBlock(b, threshold);
  }

  lemma {:induction false} AwardsPerRun(f: Forest, weeks: seq<Week>, marks: seq<Mark>, threshold: nat, n: nat)
    requires |weeks| == |marks| && n <= |weeks| && 1 <= threshold
    requires forall i, j | 0 <= i < j < |weeks| :: weeks[i] != weeks[j]
    requires forall i | 0 <= i < |weeks| :: weeks[i] !in PassWeeks(f.log)
    ensures AwardUpTo(f, weeks, marks, threshold, n).earned
            == f.earned + PassesFor(CleanBlocks(Counted(marks[..n])), threshold)
  {
    hide EarnsAt, PassWeeks;
    if n == 0 {
      assert Counted(marks[..0]) == [];
    } else {
      AwardsPerRun(f, weeks, marks, threshold, n - 1);
      AwardsOneWeek(marks, n - 1, threshold);
      AwardedWeeks(f, weeks, marks, threshold, n - 1);
      assert weeks[n - 1] !in PassWeeks(AwardUpTo(f, weeks, marks, threshold, n - 1).log);
    }
  }

  /**
   The first evaluation of a history awards, for every maximal clean run of the weeks that
   count, the run's length divided by the threshold, rounded down.
   */
  lemma FirstEvaluationAwardsEveryRun(f: Forest, fires: map<Week, WeekFire>, now: Week, threshold: nat)
    requires 1 <= threshold && PassWeeks(f.log) == {}
    ensures var marks := MarksOf(Chronological(WeeksOf(f.rows)), f.rows, fires, now);
            Evaluate(f, fires, now, threshold).earned
            == f.earned + PassesFor(CleanBlocks(Counted(marks)), threshold)
  {
    var weeks := Chronological(WeeksOf(f.rows));
    var marks := MarksOf(weeks, f.rows, fires, now);
    AwardsPerRun(f, weeks, marks, threshold, |weeks|);
    assert marks[..|weeks|] == marks;
  }

  // ---------- the dashboard's countdown ----------

  function NextPassInWeeks(current: nat, passEvery: nat): nat
    requires 1 <= passEvery
  {
    var mod := current % passEvery;
    if mod == 0 && current > 0 then passEvery else passEvery - mod
  }

  /** It is positive and completes a multiple, and no smaller positive k does. */
  lemma NextPassIsTheNextMultiple(current: nat, passEvery: nat, k: nat)
    requires 1 <= passEvery
    ensures var n := NextPassInWeeks(current, passEvery);
            && 1 <= n && (current + n) % passEvery == 0
            && (1 <= k < n ==> (current + k) % passEvery != 0)
  {
    var q, m := current / passEvery, current % passEvery;
    var n := NextPassInWeeks(current, passEvery);
    DivMod(current, passEvery);
    assert (q + 1) * passEvery == q * passEvery + passEvery;
    DivUnique(current + n, passEvery, q + 1, 0);
    if 1 <= k < n {
      DivUnique(current + k, passEvery, q, m + k);
    }
  }

  // ---------- the object ----------

  class PassBook {
    var rows: seq<Row>
    var balance: int
    var earnedCount: int
    var spentCount: int
    var log: seq<TokenEvent>

    ghost function Snapshot(): Forest
      reads this
    {
      Forest(rows, balance, earnedCount, spentCount, log)
    }

    constructor ()
      ensures Snapshot() == EmptyForest()
    {
      rows, balance, earnedCount, spentCount, log := [], 0, 0, 0, [];
    }

    /** _record_event for a PASS_EARNED event. */
    method RecordPass(w: Week, position: nat) returns (awarded: bool)
      modifies `log
      ensures awarded == (w !in old(PassWeeks(log)))
      ensures log == if awarded then old(log) + [PassEarned(w, position)] else old(log)
    {
      awarded := w !in PassWeeks(log);
      if awarded {
        log := log + [PassEarned(w, position)];
      }
    }

    /** A pass for a week that has none yet. */
    method AwardPass(w: Week, position: nat)
      modifies `balance, `earnedCount, `log
      ensures Snapshot() == old(Award(Snapshot(), w, position))
    {
      hide PassWeeks;
      var awarded := RecordPass(w, position);
      if awarded {
        earnedCount := earnedCount + 1;
        balance := balance + 1;
      }
    }

    /** _evaluate_passes. */
    method EvaluatePasses(fires: map<Week, WeekFire>, now: Week, threshold: nat)
      requires 1 <= threshold
      modifies `balance, `earnedCount, `log
      ensures Snapshot() == old(Evaluate(Snapshot(), fires, now, threshold))
    {
      hide Scored, AllGreen, Quiet, RowsOf, MarksOf, Chronological, Scan, Award;
      ghost var before := Snapshot();
      if rows == [] {
        NoWeeks(before, fires, now, threshold);
        return;
      }
      var byWeek := GroupByWeek(rows);
      var sorted := SortWeeks(byWeek.Keys);
      ghost var marks := MarksOf(sorted, rows, fires, now);
      ScanEmpty(marks);
      var run := 0;
      for i := 0 to |sorted|
        invariant rows == before.rows && spentCount == before.spent
        invariant Snapshot() == AwardUpTo(before, sorted, marks, threshold, i)
        invariant run == Scan(marks[..i]).run
      {
        ScanSnoc(marks, i);
        var w := sorted[i];
        if w.start < now.start {
          var counts, clean := JudgeWeek(rows, byWeek[w], fires, w);
          if counts {
            if clean {
              run := run + 1;
              if run % threshold == 0 {
                AwardPass(w, run);
              }
            } else {
              run := 0;
            }
          }
        }
      }
    }

    /** spend_shred_token: a refusal changes nothing. */
    method SpendShredToken(id: string, day: int, now: Week, window: Window, cap: nat) returns (r: ShredOutcome)
      modifies this
      ensures (Snapshot(), r) == old(Shred(Snapshot(), id, day, now, window, cap))
    {
      var found := FindRow(rows, id);
      if found.None? {
        return NotInForest;
      }
      var i := found.value;
      if rows[i].shredded {
        return AlreadyShredded;
      }
      if rows[i].grade == Green {
        return NotDecayed;
      }
      var windowStart := now.start - (window - 1);
      if !(windowStart <= rows[i].week.start <= now.start) {
        return OutsideWindow;
      }
      if cap > 0 && SpentOn(log, day) >= cap {
        return CapReached;
      }
      if balance <= 0 {
        return NoTokens;
      }
      if id in PaidReceipts(log) {
        rows := ShredRow(rows, i);
        return AlreadyPaid;
      }
      balance := balance - 1;
      spentCount := spentCount + 1;
      rows := ShredRow(rows, i);
      log := log + [TokenSpent(id, day)];
      r := Spent;
    }
  }

  lemma NoWeeks(f: Forest, fires: map<Week, WeekFire>, now: Week, threshold: nat)
    requires 1 <= threshold && f.rows == []
    ensures Evaluate(f, fires, now, threshold) == f
  {
    assert WeeksOf(f.rows) == {};
  }
}
