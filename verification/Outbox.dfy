/**
 The outbox protocol shared by booking-service and event-service: the table statements, the dispatchers that
 claim, publish, mark and retry rows, and the direct publisher of event-service that races them.

 The statements are functions on the table; the protocol is a state machine whose steps are the points at which
 some process touches the table or the broker. A step that a process never takes again is a crash.
 */
module Outbox {
  import opened Common
  import opened Messages

  /******* The table *******/

  datatype Status = Pending | Processing | Published | Failed

  datatype Row = Row(message: Message, status: Status, attempts: nat, nextAttemptAt: Time,
                     claimedAt: Option<Time>, claimedBy: Option<Id>, createdAt: Time)

  type Table = map<Id, Row>

  function NewRow(message: Message, now: Time): Row {
    Row(message, Pending, 0, now, None, None, now)
  }

  // message_id carries a unique index.
  predicate CanInsert(rows: Table, id: Id, message: Message) {
    id !in rows && forall r | r in rows :: rows[r].message.Key() != message.Key()
  }

  predicate Claimable(row: Row, now: Time, timeout: Time, maxAttempts: nat) {
    && row.attempts < maxAttempts
    && (|| (row.status == Pending && row.nextAttemptAt <= now)
        || (row.status == Processing && row.claimedAt.Some? && row.claimedAt.value < now - timeout))
  }

  function ClaimRow(row: Row, worker: Id, now: Time): Row {
    row.(status := Processing, attempts := row.attempts + 1, claimedAt := Some(now), claimedBy := Some(worker))
  }

  function ClaimRows(rows: Table, ids: set<Id>, worker: Id, now: Time): Table {
    map r | r in rows :: if r in ids then ClaimRow(rows[r], worker, now) else rows[r]
  }

  // The rows one claim statement locks: the oldest `limit` claimable rows nobody else has locked.
  predicate Selection(rows: Table, locked: set<Id>, now: Time, timeout: Time, maxAttempts: nat, limit: nat,
                      ids: set<Id>)
  {
    && ids <= rows.Keys
    && |ids| <= limit
    && (forall r :: r in ids ==> r !in locked && Claimable(rows[r], now, timeout, maxAttempts))
    && (forall r, t :: r in rows && r !in ids && r !in locked && Claimable(rows[r], now, timeout, maxAttempts) && t in ids ==>
          rows[t].createdAt <= rows[r].createdAt)
    && (|ids| < limit ==>
          forall r :: r in rows && r !in locked && Claimable(rows[r], now, timeout, maxAttempts) ==> r in ids)
  }

  // A mark without a worker is the direct publisher's: it does not ask who owns the row.
  predicate MarkApplies(rows: Table, id: Id, worker: Option<Id>) {
    id in rows && (worker.None? || rows[id].claimedBy == worker)
  }

  function MarkPublished(rows: Table, id: Id, worker: Option<Id>): Table {
    if MarkApplies(rows, id, worker) then
      rows[id := rows[id].(status := Published, claimedAt := None, claimedBy := None)]
    else rows
  }

  predicate FailureApplies(rows: Table, id: Id, worker: Id) {
    id in rows && rows[id].status == Processing && rows[id].claimedBy == Some(worker)
  }

  function RecordFailure(rows: Table, id: Id, worker: Id, maxAttempts: nat, backoff: Time, now: Time): Table {
    if FailureApplies(rows, id, worker) then
      rows[id := rows[id].(status := if rows[id].attempts >= maxAttempts then Failed else Pending,
                           nextAttemptAt := now + backoff, claimedAt := None, claimedBy := None)]
    else rows
  }

  /******* Retry policy of the dispatchers *******/

  const MAX_ATTEMPTS: nat := 8
  const CLAIM_TIMEOUT: Time := 60 * SECOND

  // How many rows a call of the dispatcher claims at most; no caller asks for another number.
  const CLAIM_LIMIT: nat := 25

  function Pow2(n: nat): (p: nat)
    ensures 1 <= p
  {
    if n == 0 then 1 else 2 * Pow2(n - 1)
  }

  function Backoff(attempts: nat): (delay: Time) {
    Min(300, Pow2(if attempts == 0 then 0 else attempts - 1)) * SECOND
  }

  /******* Processes *******/

  // A row as the claim statement returned it.
  datatype Record = Record(id: Id, message: Message, attempts: nat, claimedAt: Time)

  // Where the dispatcher stands with the first record of its batch.
  datatype Phase = Publishing | Marking | Failing

  // Idle: not draining. Claiming: inside the claim statement, whose row locks it holds. Draining: working on a batch.
  datatype Worker =
    | Idle
    | Claiming(at: Time, ids: set<Id>)
    | Draining(batch: seq<Record>, phase: Phase)
    | Dead

  // InventoryService.reserveSeats after its transaction: publish the reply, then mark its row.
  datatype Direct = Direct(row: Id, message: Message, acked: bool)

  datatype Via = Dispatcher(row: Id, attempt: nat) | DirectPath(row: Id)

  datatype Entry = Entry(message: Message, via: Via)

  // The time of a claim, and of the failure recorded for it, if any. History only: no step reads it.
  datatype Attempt = Attempt(at: Time, failedAt: Option<Time>)

  datatype Box = Box(rows: Table, workers: map<Id, Worker>, direct: map<Id, Direct>, log: seq<Entry>, now: Time,
                     history: map<Id, seq<Attempt>>)

  const EMPTY: Box := Box(map[], map[], map[], [], 0, map[])

  function WorkerOf(s: Box, w: Id): Worker {
    if w in s.workers then s.workers[w] else Idle
  }

  // Row locks of the claim statements in progress.
  function Locked(s: Box): set<Id> {
    set w, r | w in s.workers && s.workers[w].Claiming? && r in s.workers[w].ids :: r
  }

  // A rejected send stored nothing; an acknowledgement can be lost after the broker stored the message.
  datatype Ack = Acked | Rejected | AckLost

  // A statement can fail before it took effect, or after. Updating a row waits for its lock.
  datatype Call = Done | Lost | DoneButError

  datatype Step =
    | Insert(id: Id, message: Message, task: Option<(Id, Message)>)
    | Lock(w: Id, limit: nat, ids: set<Id>)
    | Commit(w: Id, order: seq<Id>, returned: bool)
    | Abort(w: Id)
    | Publish(w: Id, ack: Ack)
    | Mark(w: Id, call: Call)
    | Fail(w: Id, call: Call)
    | Crash(w: Id)
    | DirectPublish(direct: Id, ack: Ack)
    | DirectMark(direct: Id, call: Call)
    | DirectCrash(direct: Id)
    | Tick(dt: nat)

  predicate AtHead(s: Box, w: Id, phase: Phase) {
    WorkerOf(s, w).Draining? && WorkerOf(s, w).batch != [] && WorkerOf(s, w).phase == phase
  }

  function Head(s: Box, w: Id): Record
    requires WorkerOf(s, w).Draining? && WorkerOf(s, w).batch != []
  {
    WorkerOf(s, w).batch[0]
  }

  function ToSet(order: seq<Id>): set<Id> {
    set i | i in order
  }

  predicate Distinct(order: seq<Id>) {
    forall i, j :: 0 <= i < j < |order| ==> order[i] != order[j]
  }

  predicate Enabled(s: Box, step: Step) {
    match step
    case Insert(id, message, task) =>
      && CanInsert(s.rows, id, message)
      && (task.Some? ==> task.value.0 !in s.direct && task.value.1.SameContent(message))
    case Lock(w, limit, ids) =>
      && WorkerOf(s, w).Idle?
      && Selection(s.rows, Locked(s), s.now, CLAIM_TIMEOUT, MAX_ATTEMPTS, limit, ids)
    case Commit(w, order, _) =>
      && WorkerOf(s, w).Claiming? && WorkerOf(s, w).ids <= s.rows.Keys
      && Distinct(order) && ToSet(order) == WorkerOf(s, w).ids
    case Abort(w) => WorkerOf(s, w).Claiming?
    case Publish(w, _) => AtHead(s, w, Publishing)
    case Mark(w, call) => AtHead(s, w, Marking) && (call.Lost? || Head(s, w).id !in Locked(s))
    case Fail(w, call) => AtHead(s, w, Failing) && (call.Lost? || Head(s, w).id !in Locked(s))
    case Crash(w) => true
    case DirectPublish(t, _) => t in s.direct && !s.direct[t].acked
    case DirectMark(t, call) => t in s.direct && s.direct[t].acked && (call.Lost? || s.direct[t].row !in Locked(s))
    case DirectCrash(t) => t in s.direct
    case Tick(_) => true
  }

  function RecordsOf(rows: Table, order: seq<Id>): (records: seq<Record>)
    requires forall r :: r in order ==> r in rows && rows[r].claimedAt.Some?
    ensures |records| == |order|
  {
    seq(|order|, i requires 0 <= i < |order| =>
      Record(order[i], rows[order[i]].message, rows[order[i]].attempts, rows[order[i]].claimedAt.value))
  }

  function Drain(batch: seq<Record>): Worker {
    if batch == [] then Idle else Draining(batch, Publishing)
  }

  // The dispatcher is done with the first record.
  function Advance(s: Box, w: Id): map<Id, Worker>
    requires WorkerOf(s, w).Draining? && WorkerOf(s, w).batch != []
  {
    s.workers[w := Drain(WorkerOf(s, w).batch[1..])]
  }

  function Turn(s: Box, w: Id, phase: Phase): map<Id, Worker>
    requires WorkerOf(s, w).Draining?
  {
    s.workers[w := Draining(WorkerOf(s, w).batch, phase)]
  }

  function NoteClaims(history: map<Id, seq<Attempt>>, ids: set<Id>, now: Time): map<Id, seq<Attempt>> {
    map r | r in history :: if r in ids then history[r] + [Attempt(now, None)] else history[r]
  }

  function NoteFailure(history: map<Id, seq<Attempt>>, id: Id, now: Time): map<Id, seq<Attempt>> {
    if id in history && history[id] != [] then
      var h := history[id];
      history[id := h[..|h| - 1] + [Attempt(h[|h| - 1].at, Some(now))]]
    else history
  }

  function AfterCommit(s: Box, w: Id, order: seq<Id>, returned: bool): Box
    requires WorkerOf(s, w).Claiming? && ToSet(order) <= s.rows.Keys
  {
    var at := WorkerOf(s, w).at;
    var rows := ClaimRows(s.rows, ToSet(order), w, at);
    s.(rows := rows,
       workers := s.workers[w := if returned then Drain(RecordsOf(rows, order)) else Idle],
       history := NoteClaims(s.history, ToSet(order), at))
  }

  function AfterPublish(s: Box, w: Id, ack: Ack): Box
    requires AtHead(s, w, Publishing)
  {
    var r := Head(s, w);
    s.(log := if ack.Rejected? then s.log else s.log + [Entry(r.message, Dispatcher(r.id, r.attempts))],
       workers := Turn(s, w, if ack.Acked? then Marking else Failing))
  }

  function AfterMark(s: Box, w: Id, call: Call): Box
    requires AtHead(s, w, Marking)
  {
    s.(rows := if call.Lost? then s.rows else MarkPublished(s.rows, Head(s, w).id, Some(w)),
       workers := if call.Done? then Advance(s, w) else Turn(s, w, Failing))
  }

  function AfterFail(s: Box, w: Id, call: Call): Box
    requires AtHead(s, w, Failing)
  {
    var r := Head(s, w);
    var applies := !call.Lost? && FailureApplies(s.rows, r.id, w);
    s.(rows := if applies then RecordFailure(s.rows, r.id, w, MAX_ATTEMPTS, Backoff(r.attempts), s.now) else s.rows,
       history := if applies then NoteFailure(s.history, r.id, s.now) else s.history,
       workers := Advance(s, w))
  }

  function AfterDirectPublish(s: Box, t: Id, ack: Ack): Box
    requires t in s.direct
  {
    var d := s.direct[t];
    s.(log := if ack.Rejected? then s.log else s.log + [Entry(d.message, DirectPath(d.row))],
       direct := if ack.Acked? then s.direct[t := d.(acked := true)] else s.direct - {t})
  }

  function Apply(s: Box, step: Step): Box
    requires Enabled(s, step)
  {
    match step
    case Insert(id, message, task) =>
      s.(rows := s.rows[id := NewRow(message, s.now)],
         history := s.history[id := []],
         direct := if task.Some? then s.direct[task.value.0 := Direct(id, task.value.1, false)] else s.direct)
    case Lock(w, _, ids) => s.(workers := s.workers[w := Claiming(s.now, ids)])
    case Commit(w, order, returned) => AfterCommit(s, w, order, returned)
    case Abort(w) => s.(workers := s.workers[w := Idle])
    case Publish(w, ack) => AfterPublish(s, w, ack)
    case Mark(w, call) => AfterMark(s, w, call)
    case Fail(w, call) => AfterFail(s, w, call)
    case Crash(w) => s.(workers := s.workers[w := Dead])
    case DirectPublish(t, ack) => AfterDirectPublish(s, t, ack)
    case DirectMark(t, call) =>
      s.(rows := if call.Lost? then s.rows else MarkPublished(s.rows, s.direct[t].row, None),
         direct := s.direct - {t})
    case DirectCrash(t) => s.(direct := s.direct - {t})
    case Tick(dt) => s.(now := s.now + dt)
  }

  /******* Runs *******/

  predicate Run(s: Box, steps: seq<Step>)
    decreases steps
  {
    steps == [] || (Enabled(s, steps[0]) && Run(Apply(s, steps[0]), steps[1..]))
  }

  function After(s: Box, steps: seq<Step>): Box
    requires Run(s, steps)
    decreases steps
  {
    if steps == [] then s else After(Apply(s, steps[0]), steps[1..])
  }

  // Some run from the empty table ends in s.
  ghost predicate Reachable(s: Box) {
    exists steps :: Run(EMPTY, steps) && After(EMPTY, steps) == s
  }

  // The content of the table: what business transactions write and dispatchers never change.
  function Content(rows: Table): map<Id, Message> {
    map r | r in rows :: rows[r].message
  }
}
