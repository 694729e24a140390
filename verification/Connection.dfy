/** The connection's message protocol as a step system.

    Callers, timers, readers, the closer and the message processor are interleaved one atomic
    section at a time. The network, the timers and the callers' decisions are free choices of the
    step. What the Go runtime answers with a panic is recorded in a `fault` field. */
module Connection {

  datatype Packet = Packet(id: int, body: int)

  /** What a handler receives: a server packet or an error. */
  datatype Reply = Data(packet: Packet) | Failure

  /** The operations sent to `processMessages`; a request carries its id and the index of its context. */
  datatype Message =
    | Quit
    | Request(id: int, req: nat)
    | Response(packet: Packet)
    | Timeout(id: int)
    | Finish(id: int)

  // ---------------------------------------------------------------- the message queue

  datatype Closer = Idle | Quitting | Waiting | Closed

  /** The queue, the closing flag and where `Close` stands. */
  datatype Mailbox = Mailbox(queue: seq<Message>, closed: bool, closing: bool, closer: Closer, fault: bool)

  const CAPACITY := 10

  /** `Close` holds the message mutex from before it sets the closing flag until the queue is closed. */
  predicate MutexFree(m: Mailbox) {
    m.closer.Idle? || m.closer.Closed?
  }

  /** A send on the queue; sending on a closed channel panics. */
  function Enqueue(m: Mailbox, x: Message): Mailbox {
    m.(queue := m.queue + [x], fault := m.fault || m.closed)
  }

  /** `sendProcessMessage` would not block. */
  predicate CanSubmit(m: Mailbox) {
    MutexFree(m) && (!m.closing ==> |m.queue| < CAPACITY)
  }

  function SendProcessMessage(m: Mailbox, x: Message): Mailbox {
    if m.closing then m else Enqueue(m, x)
  }

  /** A receive from the queue; the nil that a closed, empty channel yields makes the processor panic. */
  function Dequeued(m: Mailbox): Mailbox {
    m.(queue := if m.queue == [] then [] else m.queue[1..], fault := m.fault || m.queue == [])
  }

  datatype CloserAction = BeginClose | SendQuit | EndClose

  predicate CloserEnabled(m: Mailbox, a: CloserAction, stopped: bool, timed: bool) {
    match a
    case BeginClose => m.closer.Idle?
    case SendQuit => m.closer.Quitting? && |m.queue| < CAPACITY
    case EndClose => m.closer.Waiting? && (stopped || timed)
  }

  function CloserStep(m: Mailbox, a: CloserAction): Mailbox {
    match a
    case BeginClose => m.(closing := true, closer := Quitting)
    case SendQuit => Enqueue(m, Quit).(closer := Waiting)
    case EndClose => m.(closed := true, closer := Closed, fault := m.fault || m.closed)
  }

  // ---------------------------------------------------------------- the callers

  /** Where a caller stands, from `nextMessageID` to the end of `finishMessage`. */
  datatype Phase =
    | Identified
    | Checked
    | Counted
    | Accepted
    | DoneClosed
    | FinishChecked
    | Released
    | Finished
    | Refused
    | Unsent
    | Skipped

  /** The `done` channel is closed. */
  predicate IsDone(p: Phase) {
    p.DoneClosed? || p.FinishChecked? || p.Released? || p.Finished? || p.Skipped?
  }

  /** `sendMessageWithFlags` has returned the context. */
  predicate IsAccepted(p: Phase) {
    p.Accepted? || IsDone(p)
  }

  /** The section that counts the request has run and the one that discounts it has not. */
  predicate IsCharged(p: Phase) {
    p.Counted? || p.Accepted? || p.DoneClosed? || p.FinishChecked? || p.Unsent? || p.Skipped?
  }

  /** A goroutine that performs one request; `spawned` says that its `StartTLS` started a reader. */
  datatype Caller = Caller(id: int, startTLS: bool, phase: Phase, spawned: bool)

  datatype Ledger = Ledger(callers: seq<Caller>, outstanding: int, startingTLS: bool, nextId: int, fault: bool)

  predicate InPhase(l: Ledger, i: nat, p: Phase) {
    i < |l.callers| && l.callers[i].phase == p
  }

  function SetPhase(l: Ledger, i: nat, p: Phase): Ledger
    requires i < |l.callers|
  {
    l.(callers := l.callers[i := l.callers[i].(phase := p)])
  }

  /** `nextMessageID`: the processor's counter while it loops, and 0 once it has stopped. */
  function TakeId(l: Ledger, startTLS: bool, stopped: bool): Ledger {
    l.(callers := l.callers + [Caller(if stopped then 0 else l.nextId, startTLS, Identified, false)],
       nextId := if stopped then l.nextId else l.nextId + 1)
  }

  predicate MaySend(l: Ledger, startTLS: bool) {
    !l.startingTLS && (startTLS ==> l.outstanding == 0)
  }

  predicate IsOver(p: Phase) {
    p.Finished? || p.Refused? || p.Unsent? || p.Skipped?
  }

  /** Where the caller's next atomic section leads, from the closing check of `sendMessageWithFlags`
      to the last send of `finishMessage`. */
  function NextPhase(l: Ledger, c: Caller, closing: bool): Phase
    requires !IsOver(c.phase)
  {
    match c.phase
    case Identified => if closing then Refused else Checked
    case Checked => if MaySend(l, c.startTLS) then Counted else Refused
    case Counted => if closing then Unsent else Accepted
    case Accepted => DoneClosed
    case DoneClosed => if closing then Skipped else FinishChecked
    case FinishChecked => Released
    case Released => Finished
  }

  /** The section of `sendMessageWithFlags` under the mutex counts the request and may set the
      StartTLS flag; that of `finishMessage` discounts it, an unsigned subtraction, and clears the flag. */
  function Advance(l: Ledger, i: nat, closing: bool): Ledger
    requires i < |l.callers| && !IsOver(l.callers[i].phase)
  {
    var c := l.callers[i];
    var counts := c.phase.Checked? && MaySend(l, c.startTLS);
    var discounts := c.phase.FinishChecked?;
    SetPhase(l, i, NextPhase(l, c, closing)).(
      outstanding := if counts then l.outstanding + 1 else if discounts then l.outstanding - 1 else l.outstanding,
      startingTLS := if counts then c.startTLS else if discounts then false else l.startingTLS,
      fault := l.fault || (discounts && l.outstanding == 0))
  }

  predicate AdvanceEnabled(l: Ledger, i: nat, m: Mailbox) {
    && i < |l.callers| && !IsOver(l.callers[i].phase)
    && (l.callers[i].phase.Checked? || l.callers[i].phase.FinishChecked? ==> MutexFree(m))
    && (l.callers[i].phase.Counted? || l.callers[i].phase.Released? ==> CanSubmit(m))
  }

  /** The caller's calls of `sendProcessMessage`. */
  function AdvanceMail(m: Mailbox, c: Caller, i: nat): Mailbox {
    if c.phase.Counted? then SendProcessMessage(m, Request(c.id, i))
    else if c.phase.Released? then SendProcessMessage(m, Finish(c.id))
    else m
  }

  // ---------------------------------------------------------------- the processor

  /** The message context of the caller with the same index. `open` says that the responses channel
      is not closed. */
  datatype Context = Context(open: bool, written: bool, timedOut: bool, timer: bool, replies: seq<Reply>)

  const FRESH := Context(true, false, false, false, [])

  /** What the processor does once `sendResponse` has returned. */
  datatype After = Resume | CloseFailed | DropTimedOut | CloseDrained

  datatype Processor =
    | Looping
    | Delivering(id: int, req: nat, reply: Reply, after: After)
    | Draining
    | Stopped

  /** What the processor works on. `messageContexts` maps ids to indices of contexts. Two fields are
      histories: `dispatched` holds the packets taken from the queue, and `since` how many of them
      there were when the request of a context was written. */
  datatype Desk = Desk(
    at: Processor, messageContexts: map<int, nat>, contexts: seq<Context>,
    dispatched: seq<Packet>, since: map<nat, nat>, fault: bool)

  function Since(d: Desk, i: nat): nat {
    if i in d.since then d.since[i] else 0
  }

  predicate IsOpen(d: Desk, i: nat) {
    i < |d.contexts| && d.contexts[i].open
  }

  function Update(cs: seq<Context>, i: nat, c: Context): seq<Context> {
    if i < |cs| then cs[i := c] else cs
  }

  function At(d: Desk, i: nat): Context {
    if i < |d.contexts| then d.contexts[i] else FRESH
  }

  function SetTimer(d: Desk, i: nat, on: bool): Desk {
    d.(contexts := Update(d.contexts, i, At(d, i).(timer := on)))
  }

  /** `close(responses)`; closing a closed channel panics. */
  function CloseResponses(d: Desk, i: nat, timedOut: bool): Desk {
    d.(contexts := Update(d.contexts, i, At(d, i).(open := false, timedOut := timedOut)),
       fault := d.fault || !IsOpen(d, i))
  }

  /** `delete(messageContexts, id)` and `close(responses)`. */
  function Release(d: Desk, id: int, i: nat, timedOut: bool): Desk {
    CloseResponses(d.(messageContexts := d.messageContexts - {id}), i, timedOut)
  }

  /** A request taken from the queue is written to the network and registered in one step, or
      fails to be written and is answered with an error. */
  function WriteStep(d: Desk, id: int, i: nat, writeOk: bool, arm: bool): Desk {
    if writeOk then
      d.(messageContexts := d.messageContexts[id := i],
         contexts := Update(d.contexts, i, At(d, i).(written := true, timer := arm)),
         since := d.since[i := |d.dispatched|])
    else
      d.(at := Delivering(id, i, Failure, CloseFailed))
  }

  function Offer(d: Desk, id: int, reply: Reply, after: After): Desk {
    if id in d.messageContexts then d.(at := Delivering(id, d.messageContexts[id], reply, after)) else d
  }

  function ProcessStep(d: Desk, x: Message, writeOk: bool, arm: bool): Desk {
    match x
    case Quit => d.(at := Draining)
    case Request(id, i) => WriteStep(d, id, i, writeOk, arm)
    case Response(p) => Offer(d.(dispatched := d.dispatched + [p]), p.id, Data(p), Resume)
    case Timeout(id) => Offer(d, id, Failure, DropTimedOut)
    case Finish(id) => if id in d.messageContexts then Release(d, id, d.messageContexts[id], false) else d
  }

  /** The end of `sendResponse`: the handler has taken the reply, or the call gave up. Sending on a
      closed channel panics. */
  function Deliver(d: Desk, taken: bool): Desk
    requires d.at.Delivering?
  {
    var c := At(d, d.at.req);
    d.(contexts := Update(d.contexts, d.at.req, if taken then c.(replies := c.replies + [d.at.reply]) else c),
       fault := d.fault || !IsOpen(d, d.at.req))
  }

  /** What follows `sendResponse`. */
  function Conclude(d: Desk): Desk
    requires d.at.Delivering?
  {
    var Delivering(id, i, _, after) := d.at;
    match after
    case Resume => d.(at := Looping)
    case CloseFailed => CloseResponses(d, i, false).(at := Looping)
    case DropTimedOut => Release(d, id, i, true).(at := Looping)
    case CloseDrained => Release(d, id, i, false).(at := Draining)
  }

  /** One turn of the deferred cleanup. */
  function DrainStep(d: Desk, id: int, announce: bool): Desk
    requires id in d.messageContexts
  {
    if announce then Offer(d, id, Failure, CloseDrained) else Release(d, id, d.messageContexts[id], false)
  }

  // ---------------------------------------------------------------- the readers

  datatype ReaderAt = Reading | Holding(packet: Packet) | Forwarding(packet: Packet) | Gone

  datatype Reader = Reader(at: ReaderAt, cleanstop: bool)

  /** `arrived` is the history of the packets put into the queue. */
  datatype Wire = Wire(readers: seq<Reader>, closeErr: bool, arrived: seq<Packet>)

  datatype ReaderAction = Read(j: nat, packet: Packet) | ReadError(j: nat) | CheckTLS(j: nat) | Forward(j: nat)

  function SetReader(w: Wire, j: nat, r: Reader): Wire
    requires j < |w.readers|
  {
    w.(readers := w.readers[j := r])
  }

  predicate ReaderEnabled(w: Wire, a: ReaderAction, m: Mailbox) {
    && a.j < |w.readers|
    && match a
       case Read(j, _) => w.readers[j].at.Reading?
       case ReadError(j) => w.readers[j].at.Reading?
       case CheckTLS(j) => w.readers[j].at.Holding? && MutexFree(m)
       case Forward(j) => w.readers[j].at.Forwarding? && CanSubmit(m)
  }

  /** The reader's own part of a step; `Forward` also calls `sendProcessMessage`. */
  function ReaderStep(w: Wire, a: ReaderAction, closing: bool, startingTLS: bool): Wire
    requires a.j < |w.readers|
    requires a.CheckTLS? ==> w.readers[a.j].at.Holding?
    requires a.Forward? ==> w.readers[a.j].at.Forwarding?
  {
    var Reader(at, cleanstop) := w.readers[a.j];
    match a
    case Read(j, p) => SetReader(w, j, Reader(Holding(p), cleanstop))
    case ReadError(j) => SetReader(w, j, Reader(Gone, cleanstop)).(closeErr := w.closeErr || !closing)
    case CheckTLS(j) => SetReader(w, j, Reader(Forwarding(at.packet), cleanstop || startingTLS))
    case Forward(j) =>
      if closing then SetReader(w, j, Reader(Gone, cleanstop))
      else SetReader(w, j, Reader(if cleanstop then Gone else Reading, cleanstop)).(arrived := w.arrived + [at.packet])
  }

  // ---------------------------------------------------------------- the whole connection

  /** `timed` says that the request timeout may be positive during the run. */
  datatype State = State(mailbox: Mailbox, ledger: Ledger, desk: Desk, wire: Wire, timed: bool)

  function Init(timed: bool): State {
    State(Mailbox([], false, false, Idle, false), Ledger([], 0, false, 1, false),
          Desk(Looping, map[], [], [], map[], false), Wire([Reader(Reading, false)], false, []), timed)
  }

  predicate Faulty(s: State) {
    s.mailbox.fault || s.ledger.fault || s.desk.fault
  }

  datatype Action =
    | Begin(startTLS: bool)
    | Go(i: nat)
    | Spawn(i: nat)
    | Fire(i: nat)
    | Disarm(i: nat)
    | Dequeue(writeOk: bool, arm: bool)
    | Reply(taken: bool)
    | Drain(id: int)
    | Stop
    | Shut(shut: CloserAction)
    | Listen(listen: ReaderAction)

  predicate HasTimer(s: State, i: nat) {
    i < |s.ledger.callers| && i < |s.desk.contexts| && s.desk.contexts[i].timer
  }

  /** The caller is inside a receive on its responses channel; `StartTLS` receives once. */
  predicate IsReceiving(s: State, i: nat) {
    InPhase(s.ledger, i, Accepted) && (s.ledger.callers[i].startTLS ==> At(s.desk, i).replies == [])
  }

  /** A `StartTLS` call that has taken a packet as its reply and has neither started a reader nor finished. */
  predicate IsAnswered(s: State, i: nat) {
    && InPhase(s.ledger, i, Accepted) && s.ledger.callers[i].startTLS && !s.ledger.callers[i].spawned
    && At(s.desk, i).replies != [] && At(s.desk, i).replies[0].Data?
  }

  predicate MayGiveUp(s: State, i: nat) {
    s.timed || (i < |s.ledger.callers| && IsDone(s.ledger.callers[i].phase))
  }

  predicate Enabled(s: State, a: Action) {
    match a
    case Begin(_) => s.desk.at.Looping? || s.desk.at.Stopped?
    case Go(i) => AdvanceEnabled(s.ledger, i, s.mailbox)
    case Spawn(i) => IsAnswered(s, i)
    case Fire(i) => HasTimer(s, i) && CanSubmit(s.mailbox)
    case Disarm(i) => HasTimer(s, i) && IsDone(s.ledger.callers[i].phase)
    case Dequeue(_, arm) => s.desk.at.Looping? && (s.mailbox.queue != [] || s.mailbox.closed) && (arm ==> s.timed)
    case Reply(taken) =>
      && s.desk.at.Delivering?
      && if taken then IsReceiving(s, s.desk.at.req) else MayGiveUp(s, s.desk.at.req)
    case Drain(id) => s.desk.at.Draining? && id in s.desk.messageContexts
    case Stop => s.desk.at.Draining? && s.desk.messageContexts == map[]
    case Shut(c) => CloserEnabled(s.mailbox, c, s.desk.at.Stopped?, s.timed)
    case Listen(r) => ReaderEnabled(s.wire, r, s.mailbox)
  }

  function BeginStep(s: State, startTLS: bool): State {
    s.(ledger := TakeId(s.ledger, startTLS, s.desk.at.Stopped?),
       desk := s.desk.(contexts := s.desk.contexts + [FRESH]))
  }

  function GoStep(s: State, i: nat): State
    requires AdvanceEnabled(s.ledger, i, s.mailbox)
  {
    s.(ledger := Advance(s.ledger, i, s.mailbox.closing),
       mailbox := AdvanceMail(s.mailbox, s.ledger.callers[i], i))
  }

  function Spawned(l: Ledger, i: nat): Ledger
    requires i < |l.callers|
  {
    l.(callers := l.callers[i := l.callers[i].(spawned := true)])
  }

  function SpawnStep(s: State, i: nat): State
    requires i < |s.ledger.callers|
  {
    s.(ledger := Spawned(s.ledger, i),
       wire := s.wire.(readers := s.wire.readers + [Reader(Reading, false)]))
  }

  function FireStep(s: State, i: nat): State
    requires i < |s.ledger.callers|
  {
    s.(desk := SetTimer(s.desk, i, false),
       mailbox := SendProcessMessage(s.mailbox, Timeout(s.ledger.callers[i].id)))
  }

  function DequeueStep(s: State, writeOk: bool, arm: bool): State {
    s.(desk := if s.mailbox.queue == [] then s.desk else ProcessStep(s.desk, s.mailbox.queue[0], writeOk, arm),
       mailbox := Dequeued(s.mailbox))
  }

  function ListenStep(s: State, a: ReaderAction): State
    requires ReaderEnabled(s.wire, a, s.mailbox)
  {
    s.(wire := ReaderStep(s.wire, a, s.mailbox.closing, s.ledger.startingTLS),
       mailbox := if a.Forward? then SendProcessMessage(s.mailbox, Response(s.wire.readers[a.j].at.packet)) else s.mailbox)
  }

  function Apply(s: State, a: Action): State
    requires Enabled(s, a)
  {
    match a
    case Begin(startTLS) => BeginStep(s, startTLS)
    case Go(i) => GoStep(s, i)
    case Spawn(i) => SpawnStep(s, i)
    case Fire(i) => FireStep(s, i)
    case Disarm(i) => s.(desk := SetTimer(s.desk, i, false))
    case Dequeue(writeOk, arm) => DequeueStep(s, writeOk, arm)
    case Reply(taken) => s.(desk := Conclude(Deliver(s.desk, taken)))
    case Drain(id) => s.(desk := DrainStep(s.desk, id, s.mailbox.closing && s.wire.closeErr))
    case Stop => s.(desk := s.desk.(at := Stopped))
    case Shut(c) => s.(mailbox := CloserStep(s.mailbox, c))
    case Listen(r) => ListenStep(s, r)
  }

  /** A run: the initial state and the actions taken one after the other. */
  ghost predicate IsRun(states: seq<State>, actions: seq<Action>, timed: bool) {
    && |states| == |actions| + 1 && states[0] == Init(timed)
    && forall k :: 0 <= k < |actions| ==>
         Enabled(states[k], actions[k]) && states[k + 1] == Apply(states[k], actions[k])
  }
}
