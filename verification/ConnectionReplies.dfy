/** The order in which replies are dispatched, and when one is reported as unexpected. */
module ConnectionReplies {
  import opened Connection
  import opened ConnectionSafety
  import opened ConnectionChannels
  import opened ConnectionRouting

  // ---------------------------------------------------------------- the order of arrival

  function Responses(q: seq<Message>): seq<Packet> {
    if q == [] then [] else (if q[0].Response? then [q[0].packet] else []) + Responses(q[1..])
  }

  lemma {:induction false} ResponsesAppend(q: seq<Message>, x: Message)
    ensures Responses(q + [x]) == Responses(q) + if x.Response? then [x.packet] else []
  {
    if q == [] {
      assert q + [x] == [x];
    } else {
      ResponsesAppend(q[1..], x);
      assert (q + [x])[1..] == q[1..] + [x];
    }
  }

  /** Packets are dispatched in the order in which they arrived. */
  predicate OrderInv(q: seq<Message>, dispatched: seq<Packet>, arrived: seq<Packet>) {
    arrived == dispatched + Responses(q)
  }

  lemma ProcessDispatches(d: Desk, x: Message, writeOk: bool, arm: bool)
    ensures ProcessStep(d, x, writeOk, arm).dispatched == d.dispatched + if x.Response? then [x.packet] else []
  {
  }

  lemma ConcludeDispatches(d: Desk, taken: bool)
    requires d.at.Delivering?
    ensures Conclude(Deliver(d, taken)).dispatched == d.dispatched
  {
  }

  lemma OrderMessage(q: seq<Message>, x: Message, dispatched: seq<Packet>, arrived: seq<Packet>)
    requires OrderInv(q, dispatched, arrived)
    ensures OrderInv(q + [x], dispatched, arrived + if x.Response? then [x.packet] else [])
  {
    ResponsesAppend(q, x);
  }

  lemma OrderSubmit(m: Mailbox, x: Message, dispatched: seq<Packet>, arrived: seq<Packet>)
    requires OrderInv(m.queue, dispatched, arrived) && !x.Response?
    ensures OrderInv(SendProcessMessage(m, x).queue, dispatched, arrived)
  {
    OrderMessage(m.queue, x, dispatched, arrived);
  }

  lemma OrderGo(m: Mailbox, c: Caller, i: nat, dispatched: seq<Packet>, arrived: seq<Packet>)
    requires OrderInv(m.queue, dispatched, arrived)
    ensures OrderInv(AdvanceMail(m, c, i).queue, dispatched, arrived)
  {
    OrderSubmit(m, Request(c.id, i), dispatched, arrived);
    OrderSubmit(m, Finish(c.id), dispatched, arrived);
  }

  lemma OrderListen(s: State, r: ReaderAction)
    requires ReaderEnabled(s.wire, r, s.mailbox) && OrderInv(s.mailbox.queue, s.desk.dispatched, s.wire.arrived)
    ensures OrderInv(ListenStep(s, r).mailbox.queue, s.desk.dispatched, ListenStep(s, r).wire.arrived)
  {
    if r.Forward? && !s.mailbox.closing {
      OrderMessage(s.mailbox.queue, Response(s.wire.readers[r.j].at.packet), s.desk.dispatched, s.wire.arrived);
    }
  }

  lemma OrderShut(m: Mailbox, c: CloserAction, dispatched: seq<Packet>, arrived: seq<Packet>)
    requires OrderInv(m.queue, dispatched, arrived)
    ensures OrderInv(CloserStep(m, c).queue, dispatched, arrived)
  {
    OrderMessage(m.queue, Quit, dispatched, arrived);
  }

  lemma OrderDequeue(m: Mailbox, d: Desk, writeOk: bool, arm: bool, arrived: seq<Packet>)
    requires OrderInv(m.queue, d.dispatched, arrived) && m.queue != []
    ensures OrderInv(m.queue[1..], ProcessStep(d, m.queue[0], writeOk, arm).dispatched, arrived)
  {
    ProcessDispatches(d, m.queue[0], writeOk, arm);
  }

  lemma OrderStep(s: State, a: Action)
    requires Enabled(s, a) && QueueInv(s.mailbox, QuitTaken(s.desk.at))
    requires OrderInv(s.mailbox.queue, s.desk.dispatched, s.wire.arrived)
    ensures OrderInv(Apply(s, a).mailbox.queue, Apply(s, a).desk.dispatched, Apply(s, a).wire.arrived)
  {
    var m, dispatched, arrived := s.mailbox, s.desk.dispatched, s.wire.arrived;
    match a
    case Go(i) => OrderGo(m, s.ledger.callers[i], i, dispatched, arrived);
    case Fire(i) => OrderSubmit(m, Timeout(s.ledger.callers[i].id), dispatched, arrived);
    case Listen(r) => OrderListen(s, r);
    case Shut(c) => OrderShut(m, c, dispatched, arrived);
    case Dequeue(writeOk, arm) =>
      QueueDequeue(m, s.desk, writeOk, arm);
      OrderDequeue(m, s.desk, writeOk, arm, arrived);
    case Reply(taken) => ConcludeDispatches(s.desk, taken);
    case _ =>
  }

  // ---------------------------------------------------------------- unexpected replies

  /** A written request stays registered until it is done, has timed out or the connection has
      shut down; only a done request's id is in a Finish message. */
  predicate KeptInv(l: Ledger, q: seq<Message>, d: Desk) {
    && |d.contexts| == |l.callers|
    && (forall i :: 0 <= i < |l.callers| && d.contexts[i].written ==>
          || Registered(d, l.callers[i].id, i) || IsDone(l.callers[i].phase) || d.contexts[i].timedOut || QuitTaken(d.at))
    && (forall k :: 0 <= k < |q| && q[k].Finish? ==> 0 < q[k].id < l.nextId)
    && (forall k, i :: 0 <= k < |q| && q[k].Finish? && 0 <= i < |l.callers| && l.callers[i].id == q[k].id ==>
          IsDone(l.callers[i].phase))
  }

  lemma KeptBegin(l: Ledger, q: seq<Message>, d: Desk, startTLS: bool)
    requires KeptInv(l, q, d) && (d.at.Stopped? ==> q == [])
    ensures KeptInv(TakeId(l, startTLS, d.at.Stopped?), q, d.(contexts := d.contexts + [FRESH]))
  {
  }

  lemma KeptMatures(l: Ledger, k: Ledger, q: seq<Message>, d: Desk)
    requires KeptInv(l, q, d) && Matures(l.callers, k.callers) && k.nextId == l.nextId
    ensures KeptInv(k, q, d)
  {
  }

  lemma KeptMessage(l: Ledger, q: seq<Message>, d: Desk, x: Message)
    requires KeptInv(l, q, d)
    requires x.Finish? ==> 0 < x.id < l.nextId
    requires forall i :: x.Finish? && 0 <= i < |l.callers| && l.callers[i].id == x.id ==> IsDone(l.callers[i].phase)
    ensures KeptInv(l, q + [x], d)
  {
  }

  lemma KeptTimer(l: Ledger, q: seq<Message>, d: Desk, i: nat)
    requires KeptInv(l, q, d)
    ensures KeptInv(l, q, SetTimer(d, i, false))
  {
  }

  lemma KeptPop(l: Ledger, q: seq<Message>, d: Desk)
    requires KeptInv(l, q, d) && q != []
    ensures KeptInv(l, q[1..], d)
  {
  }

  lemma KeptAt(l: Ledger, q: seq<Message>, d: Desk, at: Processor)
    requires KeptInv(l, q, d) && (QuitTaken(d.at) ==> QuitTaken(at))
    ensures KeptInv(l, q, d.(at := at))
  {
  }

  lemma KeptWritten(l: Ledger, q: seq<Message>, d: Desk, id: int, i: nat, arm: bool)
    requires KeptInv(l, q, d) && id !in d.messageContexts && i < |l.callers| && l.callers[i].id == id
    ensures KeptInv(l, q, WriteStep(d, id, i, true, arm))
  {
  }

  lemma KeptRelease(l: Ledger, q: seq<Message>, d: Desk, id: int, i: nat, timedOut: bool, at: Processor)
    requires KeptInv(l, q, d) && PlaceInv(l.callers, q, d) && Registered(d, id, i)
    requires timedOut || IsDone(l.callers[i].phase) || QuitTaken(at)
    requires QuitTaken(d.at) ==> QuitTaken(at)
    ensures KeptInv(l, q, Release(d, id, i, timedOut).(at := at))
  {
  }

  lemma KeptCloseFailed(l: Ledger, q: seq<Message>, d: Desk, i: nat)
    requires KeptInv(l, q, d) && i < |d.contexts| && !d.contexts[i].written
    ensures KeptInv(l, q, CloseResponses(d, i, false))
  {
  }

  lemma KeptDeliver(l: Ledger, q: seq<Message>, d: Desk, taken: bool)
    requires KeptInv(l, q, d) && d.at.Delivering?
    ensures KeptInv(l, q, Deliver(d, taken))
  {
  }

  lemma KeptConclude(l: Ledger, q: seq<Message>, d: Desk)
    requires KeptInv(l, q, d) && PlaceInv(l.callers, q, d) && d.at.Delivering?
    ensures KeptInv(l, q, Conclude(d))
  {
    match d.at.after
    case Resume => KeptAt(l, q, d, Looping);
    case CloseFailed =>
      KeptCloseFailed(l, q, d, d.at.req);
      KeptAt(l, q, CloseResponses(d, d.at.req, false), Looping);
    case DropTimedOut => KeptRelease(l, q, d, d.at.id, d.at.req, true, Looping);
    case CloseDrained => KeptRelease(l, q, d, d.at.id, d.at.req, false, Draining);
  }

  lemma KeptProcess(l: Ledger, q: seq<Message>, d: Desk, writeOk: bool, arm: bool)
    requires KeptInv(l, q, d) && PlaceInv(l.callers, q, d) && IdInv(l, false) && d.at.Looping? && q != []
    ensures KeptInv(l, q[1..], ProcessStep(d, q[0], writeOk, arm))
  {
    KeptPop(l, q, d);
    match q[0]
    case Request(id, i) =>
      UnwrittenIsUnregistered(l, q, d, false);
      if writeOk { KeptWritten(l, q[1..], d, id, i, arm); }
      else { KeptAt(l, q[1..], d, Delivering(id, i, Failure, CloseFailed)); }
    case Response(p) =>
      if p.id in d.messageContexts {
        KeptAt(l, q[1..], d.(dispatched := d.dispatched + [p]), Delivering(p.id, d.messageContexts[p.id], Data(p), Resume));
      }
    case Quit => KeptAt(l, q[1..], d, Draining);
    case Timeout(id) =>
      if id in d.messageContexts {
        KeptAt(l, q[1..], d, Delivering(id, d.messageContexts[id], Failure, DropTimedOut));
      }
    case Finish(id) =>
      if id in d.messageContexts {
        PlacePop(l.callers, q, d);
        KeptRelease(l, q[1..], d, id, d.messageContexts[id], false, Looping);
      }
  }

  lemma KeptGo(s: State, i: nat)
    requires KeptInv(s.ledger, s.mailbox.queue, s.desk) && IdInv(s.ledger, s.desk.at.Stopped?)
    requires AdvanceEnabled(s.ledger, i, s.mailbox)
    ensures KeptInv(GoStep(s, i).ledger, GoStep(s, i).mailbox.queue, s.desk)
  {
    var k := Advance(s.ledger, i, s.mailbox.closing);
    var c := s.ledger.callers[i];
    KeptMatures(s.ledger, k, s.mailbox.queue, s.desk);
    KeptMessage(k, s.mailbox.queue, s.desk, Request(c.id, i));
    if c.phase.Released? { KeptMessage(k, s.mailbox.queue, s.desk, Finish(c.id)); }
  }

  lemma KeptFire(l: Ledger, m: Mailbox, d: Desk, i: nat, id: int)
    requires KeptInv(l, m.queue, d)
    ensures KeptInv(l, SendProcessMessage(m, Timeout(id)).queue, SetTimer(d, i, false))
    ensures KeptInv(l, m.queue, SetTimer(d, i, false))
  {
    KeptTimer(l, m.queue, d, i);
    KeptMessage(l, m.queue, SetTimer(d, i, false), Timeout(id));
  }

  lemma KeptReply(l: Ledger, q: seq<Message>, d: Desk, taken: bool)
    requires KeptInv(l, q, d) && PlaceInv(l.callers, q, d) && d.at.Delivering?
    ensures KeptInv(l, q, Conclude(Deliver(d, taken)))
  {
    KeptDeliver(l, q, d, taken);
    PlaceDeliver(l.callers, q, d, taken);
    KeptConclude(l, q, Deliver(d, taken));
  }

  lemma KeptDrain(l: Ledger, q: seq<Message>, d: Desk, id: int, announce: bool)
    requires KeptInv(l, q, d) && PlaceInv(l.callers, q, d) && d.at.Draining? && id in d.messageContexts
    ensures KeptInv(l, q, DrainStep(d, id, announce))
  {
    KeptAt(l, q, d, Delivering(id, d.messageContexts[id], Failure, CloseDrained));
    KeptRelease(l, q, d, id, d.messageContexts[id], false, Draining);
  }

  /** The steps of the processor. */
  lemma KeptProcessor(s: State, a: Action)
    requires Enabled(s, a) && (a.Dequeue? || a.Reply? || a.Drain? || a.Stop?)
    requires Placed(s) && QueueInv(s.mailbox, QuitTaken(s.desk.at)) && IdInv(s.ledger, s.desk.at.Stopped?)
    requires KeptInv(s.ledger, s.mailbox.queue, s.desk)
    ensures KeptInv(s.ledger, Apply(s, a).mailbox.queue, Apply(s, a).desk) && Apply(s, a).ledger == s.ledger
  {
    var l, q, d := s.ledger, s.mailbox.queue, s.desk;
    match a
    case Dequeue(writeOk, arm) =>
      QueueDequeue(s.mailbox, d, writeOk, arm);
      KeptProcess(l, q, d, writeOk, arm);
    case Reply(taken) => KeptReply(l, q, d, taken);
    case Drain(id) => KeptDrain(l, q, d, id, s.mailbox.closing && s.wire.closeErr);
    case Stop => KeptAt(l, q, d, Stopped);
  }

  lemma KeptSubmit(l: Ledger, m: Mailbox, d: Desk, x: Message)
    requires KeptInv(l, m.queue, d) && !x.Finish?
    ensures KeptInv(l, SendProcessMessage(m, x).queue, d)
  {
    KeptMessage(l, m.queue, d, x);
  }

  lemma KeptShut(l: Ledger, m: Mailbox, d: Desk, c: CloserAction)
    requires KeptInv(l, m.queue, d)
    ensures KeptInv(l, CloserStep(m, c).queue, d)
  {
    KeptMessage(l, m.queue, d, Quit);
  }

  /** The steps of callers, timers, readers and the closer, and those of the processor. */
  lemma KeptStep(s: State, a: Action)
    requires Enabled(s, a) && Placed(s) && QueueInv(s.mailbox, QuitTaken(s.desk.at)) && IdInv(s.ledger, s.desk.at.Stopped?)
    requires KeptInv(s.ledger, s.mailbox.queue, s.desk)
    ensures KeptInv(Apply(s, a).ledger, Apply(s, a).mailbox.queue, Apply(s, a).desk)
  {
    var l, q, d := s.ledger, s.mailbox.queue, s.desk;
    match a
    case Begin(startTLS) => KeptBegin(l, q, d, startTLS);
    case Go(i) => KeptGo(s, i);
    case Spawn(i) => KeptMatures(l, Spawned(l, i), q, d);
    case Fire(i) => KeptFire(l, s.mailbox, d, i, l.callers[i].id);
    case Disarm(i) => KeptFire(l, s.mailbox, d, i, l.callers[i].id);
    case Shut(c) => KeptShut(l, s.mailbox, d, c);
    case Listen(r) => if r.Forward? { KeptSubmit(l, s.mailbox, d, Response(s.wire.readers[r.j].at.packet)); }
    case _ => KeptProcessor(s, a);
  }
}
