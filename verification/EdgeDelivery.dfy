/**
 Delivery from the outbox to the server as a protocol of steps: shipper/sender.py and
 shipper/watcher.py on the device, the NAS between, and services/ingestion.py at the end.
 The shipper may crash between any two steps, and any remote command may fail before or
 after it took effect. Dry-run flags are off, outbox names are fresh and the NAS rename is
 atomic; ingesting one file is one step.
 */
module EdgeDelivery {
  import opened Prelude
  import opened DeliveryRecords

  type Bytes = seq<bv8>

  /** A staging file: the name and a token that is never used twice. */
  datatype Temp = Temp(name: Name, token: nat)

  /** Where the sender is. Guarded steps are those whose failure marks a retry. */
  datatype Pc =
    | Idle
    | Preparing(name: Name)
    | Checking(name: Name)
    | Copying(temp: Temp)
    | Promoting(temp: Temp)
    | Marking(name: Name)
    | Cleaning(name: Name, guarded: bool)

  datatype ReceiptId = ReceiptId(n: nat)

  /** A receipt row; live is false while it is soft-deleted. */
  datatype Receipt = Receipt(content: Bytes, live: bool)

  /** keepSent: sent files go to the archive directory instead of being deleted. */
  datatype Config = Config(initialBackoff: nat, maxBackoff: nat, keepSent: bool)

  datatype World = World(
    // the device
    outbox: map<Name, Bytes>, archive: set<Bytes>, records: Records, pc: Pc, tokens: nat,
    // the NAS; promotes are rename commands sent and not yet carried out
    staging: map<Temp, Bytes>, incoming: map<Name, Bytes>, promotes: set<Temp>,
    // the server
    receipts: map<ReceiptId, Receipt>, nextReceipt: nat,
    // what happened so far: contents by outbox name, names seen complete in incoming,
    // contents the server took in, contents a user deleted
    origin: map<Name, Bytes>, landed: set<Name>, taken: set<Bytes>, deleted: set<Bytes>)

  function Start(): World {
    World(map[], {}, map[], Idle, 0, map[], map[], {}, map[], 0, map[], {}, {}, {})
  }

  datatype Step =
    | Enqueue(name: Name, content: Bytes)
    | Begin(name: Name, now: nat)
    | DirsReady
    | RemoteSeen
    | RemoteNotSeen
    | CopyPart(length: nat)
    | CopyDone
    | RemoteMove(temp: Temp)
    | MoveDone
    | RecordSent
    | CleanUp
    | Fail(now: nat)
    | Crash
    | Ingest(name: Name)
    | SoftDelete(id: ReceiptId)
    | Restore(id: ReceiptId)
    | Purge(id: ReceiptId)
    | ConfirmDuplicate(id: ReceiptId)

  // ---------- the sender's steps ----------

  /** The sender turns to a file: it finishes off a sent one, skips one not due, or starts sending. */
  function BeginSend(w: World, name: Name, now: nat): (r: World)
    ensures r.origin == w.origin && r.landed == w.landed
  {
    var records := Ensured(w.records, name);
    w.(records := records,
       pc := if records[name].status == Sent then Cleaning(name, false)
             else if Due(records, name, now) then Preparing(name)
             else Idle)
  }

  /** rsync wrote some of the file; a failed copy stops here. */
  function CopySome(w: World, length: nat): (r: World)
    requires w.pc.Copying?
    ensures r.origin == w.origin && r.landed == w.landed
    ensures r.outbox == w.outbox && r.records == w.records
  {
    var t := w.pc.temp;
    if t.name !in w.outbox || length > |w.outbox[t.name]| then w
    else w.(staging := w.staging[t := w.outbox[t.name][..length]])
  }

  /** rsync succeeded: the staging file is whole, and the rename command goes out. */
  function CopyAll(w: World): (r: World)
    requires w.pc.Copying?
    ensures r.origin == w.origin && r.landed == w.landed
    ensures r.outbox == w.outbox && r.records == w.records
  {
    var t := w.pc.temp;
    if t.name !in w.outbox then w
    else w.(staging := w.staging[t := w.outbox[t.name]], promotes := w.promotes + {t}, pc := Promoting(t))
  }

  /** The NAS carries out a rename command, perhaps after the sender has given up on it: never over an existing file. */
  function Move(w: World, t: Temp): (r: World)
    requires t in w.promotes
    ensures r.outbox == w.outbox && r.records == w.records
  {
    var done := w.(promotes := w.promotes - {t}, staging := w.staging - {t});
    if t.name in w.incoming || t !in w.staging then done
    else done.(incoming := w.incoming[t.name := w.staging[t]], landed := w.landed + {t.name})
  }

  /** The local file is deleted, or moved to a fresh name in the archive. */
  function Cleaned(cfg: Config, w: World): (r: World)
    requires w.pc.Cleaning?
    ensures r.origin == w.origin && r.landed == w.landed
  {
    var name := w.pc.name;
    if name !in w.outbox then w.(pc := Idle)
    else w.(outbox := w.outbox - {name}, pc := Idle,
            archive := if cfg.keepSent then w.archive + {w.outbox[name]} else w.archive)
  }

  function NameOf(pc: Pc): Option<Name> {
    match pc
    case Idle => None
    case Preparing(name) => Some(name)
    case Checking(name) => Some(name)
    case Copying(t) => Some(t.name)
    case Promoting(t) => Some(t.name)
    case Marking(name) => Some(name)
    case Cleaning(name, guarded) => if guarded then Some(name) else None
  }

  /** The exception handler: whatever failed, the file is marked for another try. */
  function Failed(cfg: Config, w: World, now: nat): (r: World)
    ensures r.origin == w.origin && r.landed == w.landed
  {
    match NameOf(w.pc)
    case None => w.(pc := Idle)
    case Some(name) =>
      var attempt := Ensured(w.records, name)[name].attempts + 1;
      var backoff := Backoff(attempt, cfg.initialBackoff, cfg.maxBackoff);
      w.(records := Retried(w.records, name, now, backoff), pc := Idle)
  }

  // ---------- the server's steps ----------

  ghost predicate Holds(receipts: map<ReceiptId, Receipt>, id: ReceiptId, content: Bytes) {
    id in receipts && receipts[id].content == content
  }

  /** ingest_file: a live duplicate drops the file, a soft-deleted one gives way to a new receipt. */
  ghost function Ingested(w: World, name: Name): (r: World)
    requires name in w.incoming
    ensures r.origin == w.origin && r.landed == w.landed
  {
    var content := w.incoming[name];
    var next := w.(incoming := w.incoming - {name}, taken := w.taken + {content});
    var newId := ReceiptId(w.nextReceipt);
    if exists id :: Holds(w.receipts, id, content) then
      var id :| Holds(w.receipts, id, content);
      if w.receipts[id].live then next
      else next.(receipts := (w.receipts - {id})[newId := Receipt(content, true)], nextReceipt := w.nextReceipt + 1)
    else next.(receipts := w.receipts[newId := Receipt(content, true)], nextReceipt := w.nextReceipt + 1)
  }

  function SetLive(w: World, id: ReceiptId, live: bool): (r: World)
    requires id in w.receipts
    ensures r.origin == w.origin && r.landed == w.landed
  {
    var r := w.receipts[id];
    w.(receipts := w.receipts[id := r.(live := live)],
       deleted := if live then w.deleted else w.deleted + {r.content})
  }

  /** A user confirms a duplicate: its row is deleted for good, live or not. */
  function Confirmed(w: World, id: ReceiptId): (r: World)
    requires id in w.receipts
    ensures r.origin == w.origin && r.landed == w.landed
  {
    w.(receipts := w.receipts - {id}, deleted := w.deleted + {w.receipts[id].content})
  }

  // ---------- runs ----------

  predicate OnServer(step: Step) {
    step.Ingest? || step.SoftDelete? || step.Restore? || step.Purge? || step.ConfirmDuplicate?
  }

  /** A step of the device or the NAS; one that does not apply changes nothing. */
  function DeviceStep(cfg: Config, w: World, step: Step): World
    requires !OnServer(step)
  {
    match step
    case Enqueue(name, content) =>
      if name in w.origin then w
      else w.(outbox := w.outbox[name := content], origin := w.origin[name := content])
    case Begin(name, now) => if w.pc == Idle && name in w.outbox then BeginSend(w, name, now) else w
    case DirsReady => if w.pc.Preparing? then w.(pc := Checking(w.pc.name)) else w
    case RemoteSeen => if w.pc.Checking? && w.pc.name in w.incoming then w.(pc := Marking(w.pc.name)) else w
    case RemoteNotSeen =>
      // A failed check reads as "not there".
      if w.pc.Checking? then w.(pc := Copying(Temp(w.pc.name, w.tokens)), tokens := w.tokens + 1) else w
    case CopyPart(length) => if w.pc.Copying? then CopySome(w, length) else w
    case CopyDone => if w.pc.Copying? then CopyAll(w) else w
    case RemoteMove(t) => if t in w.promotes then Move(w, t) else w
    case MoveDone => if w.pc.Promoting? && w.pc.temp !in w.promotes then w.(pc := Marking(w.pc.temp.name)) else w
    case RecordSent =>
      if w.pc.Marking? then w.(records := MarkedSent(w.records, w.pc.name), pc := Cleaning(w.pc.name, true)) else w
    case CleanUp => if w.pc.Cleaning? then Cleaned(cfg, w) else w
    case Fail(now) => Failed(cfg, w, now)
    case Crash => w.(pc := Idle)
  }

  ghost function Perform(cfg: Config, w: World, step: Step): World {
    match step
    case Ingest(name) => if name in w.incoming then Ingested(w, name) else w
    case SoftDelete(id) => if id in w.receipts then SetLive(w, id, false) else w
    case Restore(id) => if id in w.receipts then SetLive(w, id, true) else w
    case Purge(id) =>
      if id in w.receipts && !w.receipts[id].live then w.(receipts := w.receipts - {id}) else w
    case ConfirmDuplicate(id) => if id in w.receipts then Confirmed(w, id) else w
    case _ => DeviceStep(cfg, w, step)
  }

  ghost function Run(cfg: Config, w: World, steps: seq<Step>): World {
    if steps == [] then w else Perform(cfg, Run(cfg, w, steps[..|steps| - 1]), steps[|steps| - 1])
  }

  // ---------- the invariant ----------

  /** Files on the device and complete files on the NAS carry their original content. */
  ghost predicate FilesOk(outbox: map<Name, Bytes>, incoming: map<Name, Bytes>, origin: map<Name, Bytes>,
                          landed: set<Name>) {
    && (forall n | n in outbox :: n in origin && outbox[n] == origin[n])
    && (forall n | n in incoming :: n in landed && n in origin && incoming[n] == origin[n])
    && (forall n | n in origin :: n in outbox || n in landed)
    && (forall n | n in landed :: n in origin)
  }

  /** A rename under way has a whole staging file of its own. */
  ghost predicate StagingOk(staging: map<Temp, Bytes>, promotes: set<Temp>, tokens: nat,
                            origin: map<Name, Bytes>, landed: set<Name>, pc: Pc) {
    && (forall t | t in staging :: t.token < tokens)
    && (forall t | t in promotes :: t in staging && t.name in origin && staging[t] == origin[t.name])
    && (pc.Copying? ==> pc.temp.token < tokens && pc.temp !in promotes)
    && (pc.Promoting? ==> pc.temp in promotes || pc.temp.name in landed)
  }

  /** A file is marked and cleaned up only after it landed. */
  ghost predicate MarksOk(records: Records, pc: Pc, landed: set<Name>) {
    && (pc.Marking? || pc.Cleaning? ==> pc.name in landed)
    && (forall n | n in records && records[n].status == Sent :: n in landed)
  }

  /** Receipt ids are not reused, and a content has one row. */
  ghost predicate ReceiptsOk(receipts: map<ReceiptId, Receipt>, nextReceipt: nat) {
    && (forall id | id in receipts :: id.n < nextReceipt)
    && (forall a, b | a in receipts && b in receipts && receipts[a].content == receipts[b].content :: a == b)
  }

  ghost predicate HasLive(receipts: map<ReceiptId, Receipt>, content: Bytes) {
    exists id :: Holds(receipts, id, content) && receipts[id].live
  }

  /** What landed waits in incoming or was taken in, and what was taken in is live unless a user deleted it. */
  ghost predicate TakenOk(incoming: map<Name, Bytes>, origin: map<Name, Bytes>, landed: set<Name>, taken: set<Bytes>) {
    forall n | n in landed && n in origin :: n in incoming || origin[n] in taken
  }

  ghost predicate LiveOk(receipts: map<ReceiptId, Receipt>, taken: set<Bytes>, deleted: set<Bytes>) {
    forall c | c in taken && c !in deleted :: HasLive(receipts, c)
  }

  ghost predicate ArchiveOk(cfg: Config, outbox: map<Name, Bytes>, archive: set<Bytes>, origin: map<Name, Bytes>) {
    cfg.keepSent ==> forall n | n in origin :: n in outbox || origin[n] in archive
  }

  ghost predicate Inv(cfg: Config, w: World) {
    && FilesOk(w.outbox, w.incoming, w.origin, w.landed)
    && StagingOk(w.staging, w.promotes, w.tokens, w.origin, w.landed, w.pc)
    && MarksOk(w.records, w.pc, w.landed)
    && ReceiptsOk(w.receipts, w.nextReceipt)
    && TakenOk(w.incoming, w.origin, w.landed, w.taken)
    && LiveOk(w.receipts, w.taken, w.deleted)
    && ArchiveOk(cfg, w.outbox, w.archive, w.origin)
  }

  // ---------- every step keeps it ----------

  lemma EnqueueKeeps(cfg: Config, w: World, name: Name, content: Bytes)
    requires Inv(cfg, w) && name !in w.origin
    ensures Inv(cfg, w.(outbox := w.outbox[name := content], origin := w.origin[name := content]))
  {
    hide MarksOk, ReceiptsOk, LiveOk;
    assert name !in w.landed;
  }

  lemma BeginKeeps(cfg: Config, w: World, name: Name, now: nat)
    requires Inv(cfg, w) && w.pc == Idle && name in w.outbox
    ensures Inv(cfg, BeginSend(w, name, now))
  {
    hide FilesOk, ReceiptsOk, TakenOk, LiveOk, ArchiveOk, Due;
  }

  lemma CopySomeKeeps(cfg: Config, w: World, length: nat)
    requires Inv(cfg, w) && w.pc.Copying?
    ensures Inv(cfg, CopySome(w, length))
  {
    hide FilesOk, MarksOk, ReceiptsOk, TakenOk, LiveOk, ArchiveOk;
  }

  lemma CopyAllKeeps(cfg: Config, w: World)
    requires Inv(cfg, w) && w.pc.Copying?
    ensures Inv(cfg, CopyAll(w))
  {
    hide ReceiptsOk, TakenOk, LiveOk, ArchiveOk;
  }

  lemma MoveKeeps(cfg: Config, w: World, t: Temp)
    requires Inv(cfg, w) && t in w.promotes
    ensures Inv(cfg, Move(w, t))
  {
    MoveKeepsStaging(w, t);
    hide StagingOk, ReceiptsOk, LiveOk, ArchiveOk;
  }

  lemma MoveKeepsStaging(w: World, t: Temp)
    requires FilesOk(w.outbox, w.incoming, w.origin, w.landed) && t in w.promotes
    requires StagingOk(w.staging, w.promotes, w.tokens, w.origin, w.landed, w.pc)
    ensures var w' := Move(w, t);
            && t in w.staging && t.name in w.origin && w.staging[t] == w.origin[t.name]
            && StagingOk(w'.staging, w'.promotes, w'.tokens, w'.origin, w'.landed, w'.pc)
  {
  }

  lemma IdleIsSafe(w: World)
    requires StagingOk(w.staging, w.promotes, w.tokens, w.origin, w.landed, w.pc) && MarksOk(w.records, w.pc, w.landed)
    ensures StagingOk(w.staging, w.promotes, w.tokens, w.origin, w.landed, Idle) && MarksOk(w.records, Idle, w.landed)
  {
  }

  lemma CleanedKeeps(cfg: Config, w: World)
    requires Inv(cfg, w) && w.pc.Cleaning?
    ensures Inv(cfg, Cleaned(cfg, w))
  {
    IdleIsSafe(w);
    assert w.pc.name in w.landed;
    hide ReceiptsOk, TakenOk, LiveOk, StagingOk, MarksOk;
  }

  lemma FailedKeeps(cfg: Config, w: World, now: nat)
    requires Inv(cfg, w)
    ensures Inv(cfg, Failed(cfg, w, now))
  {
    hide FilesOk, ReceiptsOk, TakenOk, LiveOk, ArchiveOk, Backoff;
  }

  /** The steps that only move the sender on. */
  lemma AdvanceKeeps(cfg: Config, w: World, step: Step)
    requires Inv(cfg, w)
    requires step in {DirsReady, RemoteSeen, RemoteNotSeen, MoveDone, RecordSent, Crash}
    ensures Inv(cfg, Perform(cfg, w, step))
  {
    hide ReceiptsOk, TakenOk, LiveOk, ArchiveOk;
    hide Ingested, Failed, Cleaned, CopySome, CopyAll, Move, BeginSend, SetLive;
  }

  lemma IngestedKeeps(cfg: Config, w: World, name: Name)
    requires Inv(cfg, w) && name in w.incoming
    ensures Inv(cfg, Ingested(w, name))
  {
    IngestedReceipts(w, name);
    hide ReceiptsOk, LiveOk, StagingOk, MarksOk, ArchiveOk;
  }

  lemma IngestedReceipts(w: World, name: Name)
    requires ReceiptsOk(w.receipts, w.nextReceipt) && LiveOk(w.receipts, w.taken, w.deleted) && name in w.incoming
    ensures var w' := Ingested(w, name);
            ReceiptsOk(w'.receipts, w'.nextReceipt) && LiveOk(w'.receipts, w'.taken, w'.deleted)
  {
    var content := w.incoming[name];
    var w' := Ingested(w, name);
    var newId := ReceiptId(w.nextReceipt);
    assert newId !in w.receipts;
    assert forall a | a in w.receipts && w.receipts[a].content == content :: Holds(w.receipts, a, content);
    if exists id :: Holds(w.receipts, id, content) && w.receipts[id].live {
      assert w'.receipts == w.receipts;
    } else {
      assert Holds(w'.receipts, newId, content);
    }
    forall c | c in w'.taken && c !in w'.deleted && c != content ensures HasLive(w'.receipts, c) {
      StaysLive(w.receipts, w'.receipts, c);
    }
  }

  /** A live content stays live while its row is untouched. */
  lemma StaysLive(before: map<ReceiptId, Receipt>, after: map<ReceiptId, Receipt>, content: Bytes)
    requires HasLive(before, content)
    requires forall id | Holds(before, id, content) && before[id].live :: id in after && after[id] == before[id]
    ensures HasLive(after, content)
  {
    var id :| Holds(before, id, content) && before[id].live;
    assert Holds(after, id, content);
  }

  lemma SetLiveKeeps(cfg: Config, w: World, id: ReceiptId, live: bool)
    requires Inv(cfg, w) && id in w.receipts
    ensures Inv(cfg, SetLive(w, id, live))
  {
    hide FilesOk, StagingOk, MarksOk, TakenOk, ArchiveOk;
    var w' := SetLive(w, id, live);
    forall c | c in w'.taken && c !in w'.deleted ensures HasLive(w'.receipts, c) {
      var k :| Holds(w.receipts, k, c) && w.receipts[k].live;
      assert Holds(w'.receipts, k, c);
    }
  }

  lemma PurgeKeeps(cfg: Config, w: World, id: ReceiptId)
    requires Inv(cfg, w) && id in w.receipts && !w.receipts[id].live
    ensures Inv(cfg, w.(receipts := w.receipts - {id}))
  {
    hide FilesOk, StagingOk, MarksOk, TakenOk, ArchiveOk;
    var w' := w.(receipts := w.receipts - {id});
    forall c | c in w'.taken && c !in w'.deleted ensures HasLive(w'.receipts, c) {
      StaysLive(w.receipts, w'.receipts, c);
    }
  }

  lemma ConfirmedKeeps(cfg: Config, w: World, id: ReceiptId)
    requires Inv(cfg, w) && id in w.receipts
    ensures Inv(cfg, Confirmed(w, id))
  {
    hide FilesOk, StagingOk, MarksOk, TakenOk, ArchiveOk;
    var w' := Confirmed(w, id);
    forall c | c in w'.taken && c !in w'.deleted ensures HasLive(w'.receipts, c) {
      StaysLive(w.receipts, w'.receipts, c);
    }
  }

  lemma StepKeeps(cfg: Config, w: World, step: Step)
    requires Inv(cfg, w)
    ensures Inv(cfg, Perform(cfg, w, step))
  {
    hide Confirmed, Inv, Ingested, Failed, Cleaned, CopySome, CopyAll, Move, BeginSend, SetLive;
    match step {
      case Enqueue(name, content) => if name !in w.origin { EnqueueKeeps(cfg, w, name, content); }
      case Begin(name, now) => if w.pc == Idle && name in w.outbox { BeginKeeps(cfg, w, name, now); }
      case CopyPart(length) => if w.pc.Copying? { CopySomeKeeps(cfg, w, length); }
      case CopyDone => if w.pc.Copying? { CopyAllKeeps(cfg, w); }
      case RemoteMove(t) => if t in w.promotes { MoveKeeps(cfg, w, t); }
      case CleanUp => if w.pc.Cleaning? { CleanedKeeps(cfg, w); }
      case Fail(now) => FailedKeeps(cfg, w, now);
      case Ingest(name) => if name in w.incoming { IngestedKeeps(cfg, w, name); }
      case SoftDelete(id) => if id in w.receipts { SetLiveKeeps(cfg, w, id, false); }
      case Restore(id) => if id in w.receipts { SetLiveKeeps(cfg, w, id, true); }
      case Purge(id) => if id in w.receipts && !w.receipts[id].live { PurgeKeeps(cfg, w, id); }
      case ConfirmDuplicate(id) => if id in w.receipts { ConfirmedKeeps(cfg, w, id); }
      case DirsReady => AdvanceKeeps(cfg, w, step);
      case RemoteSeen => AdvanceKeeps(cfg, w, step);
      case RemoteNotSeen => AdvanceKeeps(cfg, w, step);
      case MoveDone => AdvanceKeeps(cfg, w, step);
      case RecordSent => AdvanceKeeps(cfg, w, step);
      case Crash => AdvanceKeeps(cfg, w, step);
    }
  }

  lemma {:induction false} RunKeeps(cfg: Config, w: World, steps: seq<Step>)
    requires Inv(cfg, w)
    ensures Inv(cfg, Run(cfg, w, steps))
  {
    if steps != [] {
      RunKeeps(cfg, w, steps[..|steps| - 1]);
      StepKeeps(cfg, Run(cfg, w, steps[..|steps| - 1]), steps[|steps| - 1]);
    }
  }
}
