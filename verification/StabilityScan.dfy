/**
 When the ingestion scanner takes a file: the stability machine of scan_once in
 services/ingestion.py. A file is taken once it was seen with one size for long enough and
 often enough.
 */
module StabilityScan {
  import opened Prelude

  type Path = string

  datatype Config = Config(minAge: int, checks: int)

  /** The size last seen, since when, and how many checks it has passed. */
  datatype Pending = Pending(size: nat, since: int, passes: nat)

  /** What one scan sees of one path: its size, if it is there, at a time. */
  datatype Sight = Sight(size: Option<nat>, now: int)

  datatype Verdict = Verdict(pending: Option<Pending>, take: bool)

  /** One scan for one path. */
  function Next(cfg: Config, p: Option<Pending>, s: Sight): Verdict {
    if s.size.None? then Verdict(None, false)
    else if p.None? || s.size.value != p.value.size then Verdict(Some(Pending(s.size.value, s.now, 0)), false)
    else if s.now - p.value.since < cfg.minAge then Verdict(p, false)
    else if p.value.passes + 1 < cfg.checks then Verdict(Some(p.value.(passes := p.value.passes + 1)), false)
    else Verdict(None, true)
  }

  /** The verdict after a history of scans. */
  function After(cfg: Config, h: seq<Sight>): Verdict {
    if h == [] then Verdict(None, false) else Next(cfg, After(cfg, h[..|h| - 1]).pending, h[|h| - 1])
  }

  // ---------- the scanner ----------

  function PendingOf(pending: map<Path, Pending>, p: Path): Option<Pending> {
    if p in pending then Some(pending[p]) else None
  }

  function SizeOf(visible: map<Path, nat>, p: Path): Option<nat> {
    if p in visible then Some(visible[p]) else None
  }

  class IngestionScanner {
    const cfg: Config
    var pending: map<Path, Pending>

    constructor (cfg: Config)
      ensures this.cfg == cfg && pending == map[]
    {
      this.cfg, pending := cfg, map[];
    }

    /** scan_once over the visible files, listed in some order; due are those handed to ingestion. */
    method ScanOnce(visible: map<Path, nat>, order: seq<Path>, now: int) returns (due: seq<Path>)
      requires forall i | 0 <= i < |order| :: order[i] in visible
      requires forall p | p in visible :: Among(order, p)
      requires forall i, j | 0 <= i < j < |order| :: order[i] != order[j]
      modifies this`pending
      ensures forall p :: PendingOf(pending, p)
                          == Next(cfg, PendingOf(old(pending), p), Sight(SizeOf(visible, p), now)).pending
      ensures forall p :: Among(due, p)
                          <==> Next(cfg, PendingOf(old(pending), p), Sight(SizeOf(visible, p), now)).take
    {
      pending := map p | p in pending && p in visible :: pending[p];
      due := [];
      ghost var start := pending;
      for i := 0 to |order|
        invariant forall p :: PendingOf(pending, p) ==
                    if Among(order[..i], p) then Next(cfg, PendingOf(start, p), Sight(SizeOf(visible, p), now)).pending
                    else PendingOf(start, p)
        invariant forall p :: Among(due, p) <==>
                    Among(order[..i], p) && Next(cfg, PendingOf(start, p), Sight(SizeOf(visible, p), now)).take
      {
        var p := order[i];
        assert !Among(order[..i], p);
        assert order[..i + 1] == order[..i] + [p];
        AmongSnoc(order[..i], p);
        var before := PendingOf(pending, p);
        var verdict := Next(cfg, before, Sight(Some(visible[p]), now));
        match verdict.pending {
          case Some(row) => pending := pending[p := row];
          case None => pending := pending - {p};
        }
        if verdict.take {
          AmongSnoc(due, p);
          due := due + [p];
        }
      }
      assert order[..|order|] == order;
    }
  }

  ghost predicate Among(order: seq<Path>, p: Path) {
    exists i :: 0 <= i < |order| && order[i] == p
  }

  lemma AmongSnoc(order: seq<Path>, p: Path)
    ensures forall q :: Among(order + [p], q) <==> Among(order, q) || q == p
  {
    var longer := order + [p];
    forall q ensures Among(longer, q) <==> Among(order, q) || q == p {
      if Among(order, q) {
        var i :| 0 <= i < |order| && order[i] == q;
        assert longer[i] == q;
      }
      assert longer[|order|] == p;
    }
  }

  // ---------- what a taken file has been through ----------

  /** Every scan from i on saw this size. */
  ghost predicate Steady(h: seq<Sight>, i: nat, size: nat) {
    forall k | i <= k < |h| :: h[k].size == Some(size)
  }

  /** The scans after i that found the size old enough. */
  function Aged(cfg: Config, h: seq<Sight>, i: nat): nat
    requires i < |h|
  {
    if |h| == i + 1 then 0
    else Aged(cfg, h[..|h| - 1], i) + if h[|h| - 1].now - h[i].now >= cfg.minAge then 1 else 0
  }

  function Needed(cfg: Config): nat { Max(1, cfg.checks) }

  /** A pending file has had its size since the scan that set it, and its passes are the aged scans since. */
  ghost predicate Since(cfg: Config, h: seq<Sight>, p: Pending, i: nat) {
    i < |h| && Steady(h, i, p.size) && p.since == h[i].now && p.passes == Aged(cfg, h, i) < Needed(cfg)
  }

  lemma {:induction false} PendingHasHistory(cfg: Config, h: seq<Sight>)
    ensures After(cfg, h).pending.Some? ==> exists i: nat :: Since(cfg, h, After(cfg, h).pending.value, i)
  {
    if h != [] && After(cfg, h).pending.Some? {
      var n := |h| - 1;
      var p := After(cfg, h).pending.value;
      PendingHasHistory(cfg, h[..n]);
      var before := After(cfg, h[..n]).pending;
      if before.Some? && before.value.size == p.size {
        var i: nat :| Since(cfg, h[..n], before.value, i);
        assert forall k | i <= k < n :: h[k] == h[..n][k];
        assert Since(cfg, h, p, i);
      } else {
        assert Since(cfg, h, p, n);
      }
    }
  }

  /** What a file has been through when it is taken at the last scan. */
  ghost predicate WasStable(cfg: Config, h: seq<Sight>, i: nat, size: nat) {
    && i < |h| - 1 && Steady(h, i, size)
    && h[|h| - 1].now - h[i].now >= cfg.minAge
    && Aged(cfg, h, i) == Needed(cfg)
  }

  /**
   A file is taken only after its size was the same in every scan since one that is old enough, in as
   many aged scans as asked for.
   */
  lemma TakenWasStable(cfg: Config, h: seq<Sight>)
    requires After(cfg, h).take
    ensures exists i: nat, size: nat :: WasStable(cfg, h, i, size)
  {
    var n := |h| - 1;
    PendingHasHistory(cfg, h[..n]);
    var before := After(cfg, h[..n]).pending.value;
    var i: nat :| Since(cfg, h[..n], before, i);
    assert forall k | i <= k < n :: h[k] == h[..n][k];
    assert WasStable(cfg, h, i, before.size);
  }

  /** Taken at one of the scans after the first k. */
  ghost predicate TakenAfter(cfg: Config, h: seq<Sight>, k: nat) {
    exists n :: k < n <= |h| && After(cfg, h[..n]).take
  }

  lemma {:induction false} SteadyProgress(cfg: Config, h: seq<Sight>, i: nat, size: nat)
    requires i < |h| && Steady(h, i, size) && After(cfg, h[..i]).pending == None
    ensures || TakenAfter(cfg, h, i)
            || (&& After(cfg, h).pending == Some(Pending(size, h[i].now, Aged(cfg, h, i)))
                && Aged(cfg, h, i) < Needed(cfg))
    decreases |h|
  {
    var n := |h| - 1;
    if n == i {
      assert h[..i + 1] == h;
    } else {
      assert h[..n][..i] == h[..i];
      SteadyProgress(cfg, h[..n], i, size);
      if TakenAfter(cfg, h[..n], i) {
        var m :| i < m <= n && After(cfg, h[..n][..m]).take;
        assert h[..n][..m] == h[..m];
      } else {
        assert h[..n + 1] == h;
      }
    }
  }

  /** And a file that keeps its size through enough aged scans is taken by then. */
  lemma SteadyIsTaken(cfg: Config, h: seq<Sight>, i: nat, size: nat)
    requires i < |h| && Steady(h, i, size) && After(cfg, h[..i]).pending == None
    requires Aged(cfg, h, i) >= Needed(cfg)
    ensures TakenAfter(cfg, h, i)
  {
    SteadyProgress(cfg, h, i, size);
  }
}
