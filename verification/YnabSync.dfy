/**
 Syncing a receipt to YNAB as a protocol of steps: sync_receipt_to_ynab and its parts in
 services/ynab.py, the status steps around it in api/receipts.py, and the reset at start-up
 in main.py. Any number of workers interleave; each may crash between any two steps, and a
 remote call may fail after it took effect. A commit does not write a status that equals the
 one the session had loaded; every other field the code assigned it stores.
 */
module YnabSync {
  import opened Prelude
  import opened YnabLedger

  datatype Status = NeedsReview | DuplicateReview | Syncing | Synced | ErrorSync

  datatype RowStatus = Running | MatchedUpdated | Created | Failed | DryRun

  predicate Success(s: RowStatus) { s == MatchedUpdated || s == Created }

  /** What an idempotency key is hashed from. */
  datatype Key = Key(receipt: ReceiptId, validation: nat, force: bool, allowUpdate: bool)

  datatype Row = Row(status: RowStatus, created: Option<TxnId>, matched: Option<TxnId>, applied: bool, startedAt: nat)

  datatype ReceiptState = ReceiptState(status: Status, validation: nat, syncStarted: nat)

  /** An assignment to a column that is not stored yet. */
  datatype Change = Keep | Set(id: Option<TxnId>)

  function Apply(c: Change, stored: Option<TxnId>): Option<TxnId> {
    match c
    case Keep => stored
    case Set(id) => id
  }

  datatype WorkerId = WorkerId(n: nat)

  /** Admitted: a worker that inserted its row, or found it free, and has not claimed it yet. */
  datatype Pc = Begun | Admitted | Claimed | Ready | Conflicted | Written(structure: bool) | Failing

  /** The statuses a session has read since its last commit. */
  datatype Loaded = Loaded(receipt: Option<Status>, row: Option<RowStatus>)

  const EXPIRED := Loaded(None, None)

  /** What a commit leaves in a column: an assignment of the value that was loaded is no change. */
  function Stored<T(==)>(loaded: Option<T>, stored: T, written: T): T {
    if loaded == Some(written) then stored else written
  }

  /** prior: whether an earlier success was found, and the transaction it names. */
  datatype Worker = Worker(key: Key, account: Account, prior: Option<Option<TxnId>>, pc: Pc,
                           status: RowStatus, created: Change, matched: Change, loaded: Loaded)

  type Receipts = map<ReceiptId, ReceiptState>

  type Rows = map<Key, Row>

  type Workers = map<WorkerId, Worker>

  /** guardsMoves: YNAB refuses an update that would repeat an import id on an account. */
  datatype Config = Config(timeout: nat, guardsMoves: bool)

  datatype World = World(clock: nat, receipts: Receipts, rows: Rows, workers: Workers,
                         ledger: Ledger, nextTxn: nat)

  function Start(): World { World(0, map[], map[], map[], map[], 0) }

  datatype Step =
    // the users and the clock
    | Tick
    | Upload(receipt: ReceiptId)
    | SaveDraft(receipt: ReceiptId, changed: bool, duplicate: bool)
    | Request(receipt: ReceiptId)
    | RequestLost(receipt: ReceiptId)
    | FoundDuplicate(receipt: ReceiptId)
    | ResetToSynced(receipt: ReceiptId)
    | Restart
    | UserAdds(account: Account, markers: set<ReceiptId>)
    | UserEdits(target: TxnId, account: Account, markers: set<ReceiptId>)
    | UserDeletes(target: TxnId)
    // the workers
    | Begin(w: WorkerId, receipt: ReceiptId, force: bool, allowUpdate: bool, account: Account,
            prior: Option<Option<TxnId>>)
    | Insert(w: WorkerId)
    | Skip(w: WorkerId)
    | Admit(w: WorkerId, collided: bool)
    | Claim(w: WorkerId)
    | LoadReceipt(w: WorkerId)
    | DryRunDone(w: WorkerId)
    | Verify(w: WorkerId)
    | UpdatePrior(w: WorkerId, target: TxnId, markers: set<ReceiptId>, structure: bool, lost: bool)
    | PriorMissing(w: WorkerId)
    | UpdateMatched(w: WorkerId, target: TxnId, preserve: bool, markers: set<ReceiptId>, structure: bool, lost: bool)
    | Create(w: WorkerId, refused: bool, lost: bool)
    | Resolve(w: WorkerId, found: Option<TxnId>)
    | Commit(w: WorkerId)
    | Fail(w: WorkerId)
    | Crash(w: WorkerId)

  // ---------- receipts ----------

  function SetStatus(rs: Receipts, r: ReceiptId, s: Status): Receipts
    requires r in rs
  {
    rs[r := rs[r].(status := s)]
  }

  /** Saving a draft: a change reopens a settled receipt, and the duplicate check has the last word. */
  function AfterDraft(s: Status, changed: bool, duplicate: bool): Status {
    if duplicate then DuplicateReview
    else if s == DuplicateReview || (changed && s in {Synced, ErrorSync}) then NeedsReview
    else s
  }

  ghost predicate HasSuccess(rows: Rows, r: ReceiptId) {
    exists k :: k in rows && k.receipt == r && Success(rows[k].status)
  }

  ghost predicate HasRestorable(rows: Rows, r: ReceiptId) {
    exists k :: k in rows && k.receipt == r && Success(rows[k].status) && rows[k].applied
  }

  /** A running row too young to be taken over. */
  predicate IsFresh(cfg: Config, row: Row, clock: nat) {
    row.status == Running && row.startedAt + cfg.timeout > clock
  }

  /** _reset_stuck_jobs: what has been running or syncing for too long. */
  function ResetRows(cfg: Config, rows: Rows, clock: nat): (r: Rows)
    ensures r.Keys == rows.Keys
  {
    map k | k in rows ::
      if rows[k].status == Running && rows[k].startedAt + cfg.timeout < clock
      then rows[k].(status := Failed) else rows[k]
  }

  function ResetReceipts(cfg: Config, rs: Receipts, clock: nat): (r: Receipts)
    ensures r.Keys == rs.Keys
  {
    map i | i in rs ::
      if rs[i].status == Syncing && rs[i].syncStarted + cfg.timeout < clock
      then rs[i].(status := NeedsReview) else rs[i]
  }

  // ---------- workers ----------

  /** The earlier success a worker bases an update on: some successful row's transaction, or none. */
  ghost predicate PriorOk(rows: Rows, r: ReceiptId, prior: Option<Option<TxnId>>) {
    match prior
    case None => !HasSuccess(rows, r)
    case Some(target) =>
      exists k :: k in rows && k.receipt == r && Success(rows[k].status) && target == TargetOf(rows[k])
  }

  function TargetOf(row: Row): Option<TxnId> {
    if row.created.Some? then row.created else row.matched
  }

  /** Taking or taking over the row, with the receipt set to syncing in the same commit, if it is written. */
  function Claims(w: World, id: WorkerId): World
    requires id in w.workers && w.workers[id].key in w.rows && w.workers[id].key.receipt in w.receipts
  {
    var worker := w.workers[id];
    var key := worker.key;
    var row, receipt := w.rows[key], w.receipts[key.receipt];
    w.(rows := w.rows[key := row.(status := Stored(worker.loaded.row, row.status, Running), startedAt := w.clock)],
       receipts := w.receipts[key.receipt := receipt.(
         status := Stored(worker.loaded.receipt, receipt.status, Syncing), syncStarted := w.clock)],
       workers := w.workers[id := worker.(
         pc := Claimed, status := Running, created := Keep, matched := Keep, loaded := EXPIRED)])
  }

  /** The row and receipt after a worker's last commit. */
  function Settle(w: World, id: WorkerId, status: RowStatus, applied: bool, receiptStatus: Status): World
    requires id in w.workers && w.workers[id].key in w.rows && w.workers[id].key.receipt in w.receipts
  {
    var worker := w.workers[id];
    var key := worker.key;
    var row := w.rows[key];
    var created, matched := Apply(worker.created, row.created), Apply(worker.matched, row.matched);
    w.(rows := w.rows[key :=
         Row(Stored(worker.loaded.row, row.status, status), created, matched, applied, row.startedAt)],
       receipts := SetStatus(w.receipts, key.receipt,
                             Stored(worker.loaded.receipt, w.receipts[key.receipt].status, receiptStatus)),
       workers := w.workers - {id})
  }

  /**
   verify-before-create: a transaction this row created and that still exists ends the sync; a deleted
   one is forgotten.
   */
  function Verified(w: World, id: WorkerId): World
    requires id in w.workers && w.workers[id].key in w.rows
  {
    var worker := w.workers[id].(loaded := w.workers[id].loaded.(row := Some(w.rows[w.workers[id].key].status)));
    var next :=
      match w.rows[worker.key].created
      case None => worker.(pc := Ready)
      case Some(t) =>
        if IsLive(w.ledger, t) then worker.(pc := Written(true), status := Created)
        else worker.(pc := Ready, created := Set(None));
    w.(workers := w.workers[id := next])
  }

  ghost predicate Refused(cfg: Config, ledger: Ledger, t: TxnId, account: Account)
    requires t in ledger
  {
    cfg.guardsMoves && Collides(ledger, t, account)
  }

  /** The same transactions, live or deleted as before, with the same import ids. */
  ghost predicate SameTransactions(before: Ledger, after: Ledger) {
    && before.Keys == after.Keys
    && forall t | t in before :: after[t].importOf == before[t].importOf && after[t].live == before[t].live
  }

  /** An update of a live transaction, for a worker. */
  ghost function Updates(cfg: Config, w: World, id: WorkerId, t: TxnId, account: Account, markers: set<ReceiptId>,
                         structure: bool, lost: bool): (r: World)
    requires id in w.workers && IsLive(w.ledger, t)
    ensures SameTransactions(w.ledger, r.ledger) && r.rows == w.rows && r.receipts == w.receipts
  {
    var worker := w.workers[id];
    var refused := Refused(cfg, w.ledger, t, account);
    var next :=
      if refused || lost then worker.(pc := Failing)
      else worker.(pc := Written(structure), status := MatchedUpdated, matched := Set(Some(t)));
    w.(ledger := if refused then w.ledger else Put(w.ledger, t, account, markers), workers := w.workers[id := next])
  }

  /** Whether YNAB may answer a create with a conflict although no live transaction forces it to. */
  ghost predicate MayRefuse(ledger: Ledger, r: ReceiptId, account: Account) {
    exists t :: t in ledger && ledger[t].account == account && ledger[t].importOf == Some(r)
  }

  ghost function Creates(w: World, id: WorkerId, refused: bool, lost: bool): (after: World)
    requires id in w.workers
    ensures after.rows == w.rows && after.receipts == w.receipts
  {
    var worker := w.workers[id];
    var r := worker.key.receipt;
    if Conflicts(w.ledger, r, worker.account) || (refused && MayRefuse(w.ledger, r, worker.account)) then
      w.(workers := w.workers[id := worker.(pc := if lost then Failing else Conflicted)])
    else
      var t := TxnId(w.nextTxn);
      var next := if lost then worker.(pc := Failing)
                  else worker.(pc := Written(true), status := Created, created := Set(Some(t)));
      w.(ledger := WithNew(w.ledger, t, r, worker.account), nextTxn := w.nextTxn + 1,
         workers := w.workers[id := next])
  }

  /** A conflict resolved by a live transaction with the import id or the marker, or not at all. */
  function Resolves(w: World, id: WorkerId, found: Option<TxnId>): (after: World)
    requires id in w.workers
    ensures after.rows == w.rows && after.receipts == w.receipts
  {
    var worker := w.workers[id];
    var r := worker.key.receipt;
    match found
    case None => w.(workers := w.workers[id := worker.(pc := Failing)])
    case Some(t) =>
      if !Carries(w.ledger, t, r) then w
      else w.(workers := w.workers[id := worker.(pc := Written(true), status := Created, created := Set(Some(t)))])
  }

  /** The transaction of the earlier success is no longer there; an exact match may take its place. */
  predicate PriorGone(worker: Worker, ledger: Ledger)
    requires worker.prior.Some?
  {
    worker.prior.value.None? || !IsLive(ledger, worker.prior.value.value)
  }

  /** A worker refers to a receipt that exists, and to a row that exists from the insert on. */
  predicate WorkerOk(worker: Worker, receipts: Receipts, rows: Rows) {
    worker.key.receipt in receipts && (worker.pc != Begun ==> worker.key in rows)
  }

  predicate InTry(pc: Pc) { pc.Claimed? || pc.Ready? || pc.Conflicted? || pc.Written? || pc.Failing? }

  // ---------- steps ----------

  /** A step of a worker that exists. */
  ghost function WorkerStep(cfg: Config, w: World, id: WorkerId, step: Step): World
    requires id in w.workers && WorkerOk(w.workers[id], w.receipts, w.rows)
  {
    var worker := w.workers[id];
    var key := worker.key;
    var updating := worker.pc == Ready && worker.prior.Some? && !key.force;
    var creating := worker.pc == Ready && !(worker.prior.Some? && !key.force);
    match step
    case Insert(_) =>
      if worker.pc == Begun && key !in w.rows then
        w.(rows := w.rows[key := Row(Running, None, None, false, w.clock)],
           workers := w.workers[id := worker.(pc := Admitted, loaded := EXPIRED)])
      else w
    case Skip(_) =>
      if worker.pc == Begun && key in w.rows && IsFresh(cfg, w.rows[key], w.clock)
      then w.(workers := w.workers - {id}) else w
    case Admit(_, collided) =>
      // The row is read here; losing the race for the insert has rolled the session back.
      if worker.pc == Begun && key in w.rows && !IsFresh(cfg, w.rows[key], w.clock) then
        var loaded := Loaded(if collided then None else worker.loaded.receipt, Some(w.rows[key].status));
        w.(workers := w.workers[id := worker.(pc := Admitted, loaded := loaded)])
      else w
    case Claim(_) => if worker.pc == Admitted then Claims(w, id) else w
    case LoadReceipt(_) =>
      if InTry(worker.pc) && worker.loaded.receipt.None? then
        w.(workers := w.workers[id := worker.(
             loaded := worker.loaded.(receipt := Some(w.receipts[key.receipt].status)))])
      else w
    case DryRunDone(_) =>
      if worker.pc == Claimed
      then Settle(w.(workers := w.workers[id := worker.(created := Set(None), matched := Set(None))]), id,
                  DryRun, w.rows[key].applied, NeedsReview)
      else w
    case Verify(_) => if worker.pc == Claimed then Verified(w, id) else w
    case UpdatePrior(_, t, markers, structure, lost) =>
      if updating && IsLive(w.ledger, t) && (worker.prior.value == Some(t) || PriorGone(worker, w.ledger)) then
        Updates(cfg, w, id, t, worker.account, markers + {key.receipt}, structure, lost)
      else w
    case PriorMissing(_) =>
      if updating && PriorGone(worker, w.ledger) then
        w.(workers := w.workers[id := worker.(pc := Written(false), status := Failed)])
      else w
    case UpdateMatched(_, t, preserve, markers, structure, lost) =>
      if creating && !key.force && key.allowUpdate && IsLive(w.ledger, t) then
        // User data in YNAB is preserved: only the marker is added.
        if preserve then
          Updates(cfg, w, id, t, w.ledger[t].account, w.ledger[t].markers + {key.receipt}, structure, lost)
        else
          Updates(cfg, w, id, t, worker.account, markers + {key.receipt}, structure, lost)
      else w
    case Create(_, refused, lost) => if creating then Creates(w, id, refused, lost) else w
    case Resolve(_, found) => if worker.pc == Conflicted then Resolves(w, id, found) else w
    case Commit(_) =>
      if worker.pc.Written? then
        Settle(w, id, worker.status, worker.pc.structure, if worker.pc.structure then Synced else NeedsReview)
      else w
    case Fail(_) => if InTry(worker.pc) then Settle(w, id, Failed, w.rows[key].applied, ErrorSync) else w
    case Crash(_) => w.(workers := w.workers - {id})
    case _ => w
  }

  /** A step of the users or the clock. */
  ghost function OutsideStep(cfg: Config, w: World, step: Step): World {
    match step
    case Tick => w.(clock := w.clock + 1)
    case Upload(r) => if r in w.receipts then w else w.(receipts := w.receipts[r := ReceiptState(NeedsReview, 0, 0)])
    case SaveDraft(r, changed, duplicate) =>
      if r !in w.receipts then w
      else
        var s := w.receipts[r];
        var status := AfterDraft(s.status, changed, duplicate);
        w.(receipts := w.receipts[r := s.(status := status, validation := s.validation + 1)])
    case Request(r) =>
      if r !in w.receipts || w.receipts[r].status == Syncing then w
      else w.(receipts := w.receipts[r := w.receipts[r].(status := Syncing, syncStarted := w.clock)])
    case RequestLost(r) => if r !in w.receipts then w else w.(receipts := SetStatus(w.receipts, r, NeedsReview))
    case FoundDuplicate(r) => if r !in w.receipts then w else w.(receipts := SetStatus(w.receipts, r, DuplicateReview))
    case ResetToSynced(r) =>
      if r !in w.receipts || w.receipts[r].status == Syncing || !HasRestorable(w.rows, r) then w
      else w.(receipts := w.receipts[r := w.receipts[r].(status := Synced, validation := w.receipts[r].validation + 1)])
    case Restart => w.(rows := ResetRows(cfg, w.rows, w.clock), receipts := ResetReceipts(cfg, w.receipts, w.clock))
    case UserAdds(account, markers) =>
      w.(ledger := w.ledger[TxnId(w.nextTxn) := Txn(account, None, markers, true)], nextTxn := w.nextTxn + 1)
    case UserEdits(t, account, markers) =>
      if t !in w.ledger || Refused(cfg, w.ledger, t, account) then w
      else w.(ledger := Put(w.ledger, t, account, markers))
    case UserDeletes(t) => if t !in w.ledger then w else w.(ledger := w.ledger[t := w.ledger[t].(live := false)])
    case Begin(id, r, force, allowUpdate, account, prior) =>
      if id in w.workers || r !in w.receipts || !PriorOk(w.rows, r, prior) then w
      else
        var key := Key(r, w.receipts[r].validation, force, allowUpdate);
        var loaded := Loaded(Some(w.receipts[r].status), None);
        w.(workers := w.workers[id := Worker(key, account, prior, Begun, Running, Keep, Keep, loaded)])
    case _ => w
  }

  function WorkerOf(step: Step): Option<WorkerId> {
    match step
    case Insert(id) => Some(id)
    case Skip(id) => Some(id)
    case Admit(id, _) => Some(id)
    case Claim(id) => Some(id)
    case LoadReceipt(id) => Some(id)
    case DryRunDone(id) => Some(id)
    case Verify(id) => Some(id)
    case UpdatePrior(id, _, _, _, _) => Some(id)
    case PriorMissing(id) => Some(id)
    case UpdateMatched(id, _, _, _, _, _) => Some(id)
    case Create(id, _, _) => Some(id)
    case Resolve(id, _) => Some(id)
    case Commit(id) => Some(id)
    case Fail(id) => Some(id)
    case Crash(id) => Some(id)
    case _ => None
  }

  ghost function Perform(cfg: Config, w: World, step: Step): World {
    match WorkerOf(step)
    case None => OutsideStep(cfg, w, step)
    case Some(id) =>
      if id in w.workers && WorkerOk(w.workers[id], w.receipts, w.rows) then WorkerStep(cfg, w, id, step) else w
  }

  ghost function Run(cfg: Config, w: World, steps: seq<Step>): World {
    if steps == [] then w else Perform(cfg, Run(cfg, w, steps[..|steps| - 1]), steps[|steps| - 1])
  }
}
