/** What every step of the connection keeps about the queue and the message ids. */
module ConnectionSafety {
  import opened Connection

  // ---------------------------------------------------------------- the queue and the closer

  /** The processor has taken the Quit message. */
  predicate QuitTaken(p: Processor) {
    p.Draining? || p.Stopped? || (p.Delivering? && p.after.CloseDrained?)
  }

  predicate QuitSent(m: Mailbox) {
    m.closer.Waiting? || m.closer.Closed?
  }

  /** A queued Quit is last and is there exactly between the closer's send and the processor's
      receive; the queue is empty from then on. */
  predicate QueueInv(m: Mailbox, quitTaken: bool) {
    && !m.fault
    && |m.queue| <= CAPACITY
    && (m.closing <==> !m.closer.Idle?)
    && (m.closed <==> m.closer.Closed?)
    && (quitTaken ==> QuitSent(m) && m.queue == [])
    && (QuitSent(m) ==> quitTaken || m.queue != [])
    && (forall k :: 0 <= k < |m.queue| ==> (m.queue[k].Quit? <==> k == |m.queue| - 1 && QuitSent(m)))
  }

  lemma QueueSubmit(m: Mailbox, x: Message, quitTaken: bool)
    requires QueueInv(m, quitTaken) && CanSubmit(m) && !x.Quit?
    ensures QueueInv(SendProcessMessage(m, x), quitTaken)
  {
  }

  lemma QueueDequeue(m: Mailbox, d: Desk, writeOk: bool, arm: bool)
    requires QueueInv(m, false) && d.at.Looping? && (m.queue != [] || m.closed)
    ensures m.queue != [] && QueueInv(Dequeued(m), QuitTaken(ProcessStep(d, m.queue[0], writeOk, arm).at))
  {
  }

  lemma QueueShut(m: Mailbox, a: CloserAction, quitTaken: bool, stopped: bool, timed: bool)
    requires QueueInv(m, quitTaken) && CloserEnabled(m, a, stopped, timed)
    ensures QueueInv(CloserStep(m, a), quitTaken)
  {
  }

  lemma DeliveryKeepsQuit(d: Desk, taken: bool)
    requires d.at.Delivering?
    ensures QuitTaken(Conclude(Deliver(d, taken)).at) == QuitTaken(d.at)
  {
  }

  lemma QueueGo(s: State, i: nat, quitTaken: bool)
    requires AdvanceEnabled(s.ledger, i, s.mailbox) && QueueInv(s.mailbox, quitTaken)
    ensures QueueInv(GoStep(s, i).mailbox, quitTaken)
  {
  }

  lemma QueueStep(s: State, a: Action)
    requires Enabled(s, a) && QueueInv(s.mailbox, QuitTaken(s.desk.at))
    ensures QueueInv(Apply(s, a).mailbox, QuitTaken(Apply(s, a).desk.at))
  {
    var m, taken := s.mailbox, QuitTaken(s.desk.at);
    match a
    case Go(i) => QueueGo(s, i, taken);
    case Fire(i) => QueueSubmit(m, Timeout(s.ledger.callers[i].id), taken);
    case Listen(r) => if r.Forward? { QueueSubmit(m, Response(s.wire.readers[r.j].at.packet), taken); }
    case Dequeue(writeOk, arm) => QueueDequeue(m, s.desk, writeOk, arm);
    case Shut(c) => QueueShut(m, c, taken, s.desk.at.Stopped?, s.timed);
    case Reply(given) => DeliveryKeepsQuit(s.desk, given);
    case _ =>
  }

  // ---------------------------------------------------------------- message ids

  /** Ids are distinct; the 0 handed out after shutdown never gets past the closing check. */
  predicate IdInv(l: Ledger, stopped: bool) {
    && l.nextId >= 1
    && (forall i :: 0 <= i < |l.callers| ==>
          && 0 <= l.callers[i].id < l.nextId
          && (l.callers[i].id == 0 ==> stopped && (l.callers[i].phase.Identified? || l.callers[i].phase.Refused?)))
    && (forall i, j :: 0 <= i < j < |l.callers| && l.callers[i].id != 0 ==> l.callers[i].id != l.callers[j].id)
  }

  lemma IdSetPhase(l: Ledger, stopped: bool, i: nat, p: Phase)
    requires IdInv(l, stopped) && i < |l.callers|
    requires l.callers[i].id == 0 ==> p.Refused?
    ensures IdInv(SetPhase(l, i, p), stopped)
  {
  }

  lemma IdTakeId(l: Ledger, stopped: bool, startTLS: bool)
    requires IdInv(l, stopped)
    ensures IdInv(TakeId(l, startTLS, stopped), stopped)
  {
  }

  lemma IdSpawned(l: Ledger, i: nat, stopped: bool)
    requires IdInv(l, stopped) && i < |l.callers|
    ensures IdInv(Spawned(l, i), stopped)
  {
  }

  lemma IdAdvance(l: Ledger, i: nat, closing: bool, stopped: bool)
    requires IdInv(l, stopped) && (stopped ==> closing) && i < |l.callers| && !IsOver(l.callers[i].phase)
    ensures IdInv(Advance(l, i, closing), stopped)
  {
    IdSetPhase(l, stopped, i, NextPhase(l, l.callers[i], closing));
  }

  lemma IdStep(s: State, a: Action)
    requires Enabled(s, a) && QueueInv(s.mailbox, QuitTaken(s.desk.at)) && IdInv(s.ledger, s.desk.at.Stopped?)
    ensures IdInv(Apply(s, a).ledger, Apply(s, a).desk.at.Stopped?)
  {
    var l, stopped := s.ledger, s.desk.at.Stopped?;
    match a
    case Begin(startTLS) => IdTakeId(l, stopped, startTLS);
    case Go(i) => IdAdvance(l, i, s.mailbox.closing, stopped);
    case Spawn(i) => IdSpawned(l, i, stopped);
    case _ =>
  }
}
