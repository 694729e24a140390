/** Where each accepted request is, and when its responses channel is closed. */
module ConnectionChannels {
  import opened Connection
  import opened ConnectionSafety

  predicate Queued(q: seq<Message>, i: nat) {
    exists k :: 0 <= k < |q| && q[k].Request? && q[k].req == i
  }

  lemma QueuedAppend(q: seq<Message>, x: Message, i: nat)
    ensures Queued(q + [x], i) <==> Queued(q, i) || (x.Request? && x.req == i)
  {
    if Queued(q, i) {
      var k :| 0 <= k < |q| && q[k].Request? && q[k].req == i;
      assert (q + [x])[k] == q[k];
    }
    if x.Request? && x.req == i { assert (q + [x])[|q|] == x; }
  }

  lemma QueuedTail(q: seq<Message>, i: nat)
    requires q != []
    ensures Queued(q, i) <==> Queued(q[1..], i) || (q[0].Request? && q[0].req == i)
  {
    if Queued(q[1..], i) {
      var k :| 0 <= k < |q[1..]| && q[1..][k].Request? && q[1..][k].req == i;
      assert q[k + 1] == q[1..][k];
    }
    if Queued(q, i) {
      var k :| 0 <= k < |q| && q[k].Request? && q[k].req == i;
      assert k > 0 ==> q[1..][k - 1] == q[k];
    }
  }

  predicate Registered(d: Desk, id: int, i: nat) {
    id in d.messageContexts && d.messageContexts[id] == i
  }

  /** The request could not be written and its caller is being told. */
  predicate Failing(d: Desk, i: nat) {
    d.at.Delivering? && d.at.after.CloseFailed? && d.at.req == i
  }

  /** Every registered context is that of an accepted, written request, under the request's own id,
      with an open channel. */
  predicate MapInv(cs: seq<Caller>, d: Desk) {
    forall id :: id in d.messageContexts ==>
      var i := d.messageContexts[id];
      && i < |d.contexts| && i < |cs| && cs[i].id == id && IsAccepted(cs[i].phase)
      && d.contexts[i].open && d.contexts[i].written
  }

  /** A queued request is accepted, open and unwritten, and queued once. */
  predicate WaitInv(cs: seq<Caller>, q: seq<Message>, d: Desk) {
    && (forall k :: 0 <= k < |q| && q[k].Request? ==>
          var i := q[k].req;
          && i < |d.contexts| && i < |cs| && cs[i].id == q[k].id && IsAccepted(cs[i].phase)
          && d.contexts[i].open && !d.contexts[i].written)
    && (forall k, n :: 0 <= k < n < |q| && q[k].Request? && q[n].Request? ==> q[k].req != q[n].req)
  }

  /** An accepted request whose channel is open is queued, registered or being refused. */
  predicate HeldInv(cs: seq<Caller>, q: seq<Message>, d: Desk) {
    && |d.contexts| == |cs|
    && forall i :: 0 <= i < |cs| && IsAccepted(cs[i].phase) && d.contexts[i].open ==>
         Queued(q, i) || Registered(d, cs[i].id, i) || Failing(d, i)
  }

  /** The context the processor is sending to is open; it is registered unless its write failed. */
  predicate BusyInv(cs: seq<Caller>, q: seq<Message>, d: Desk) {
    d.at.Delivering? ==>
      var i := d.at.req;
      && i < |d.contexts| && i < |cs| && cs[i].id == d.at.id && IsAccepted(cs[i].phase) && d.contexts[i].open
      && if d.at.after.CloseFailed? then !d.contexts[i].written && !Queued(q, i) && d.at.reply.Failure?
         else Registered(d, d.at.id, i)
  }

  /** The context of a request that is not accepted is untouched. */
  predicate FreshInv(cs: seq<Caller>, d: Desk) {
    |d.contexts| == |cs| && forall i :: 0 <= i < |cs| && !IsAccepted(cs[i].phase) ==> d.contexts[i] == FRESH
  }

  predicate PlaceInv(cs: seq<Caller>, q: seq<Message>, d: Desk) {
    && !d.fault && MapInv(cs, d) && WaitInv(cs, q, d) && HeldInv(cs, q, d) && BusyInv(cs, q, d) && FreshInv(cs, d)
  }

  // ---------------------------------------------------------------- callers and messages

  /** Callers may be added and may become accepted. */
  predicate Grows(cs: seq<Caller>, ds: seq<Caller>) {
    && |cs| == |ds|
    && forall i :: 0 <= i < |cs| ==> ds[i].id == cs[i].id && IsAccepted(ds[i].phase) == IsAccepted(cs[i].phase)
  }

  lemma PlaceGrows(cs: seq<Caller>, ds: seq<Caller>, q: seq<Message>, d: Desk)
    requires PlaceInv(cs, q, d) && Grows(cs, ds)
    ensures PlaceInv(ds, q, d)
  {
  }

  lemma PlaceBegin(cs: seq<Caller>, c: Caller, q: seq<Message>, d: Desk)
    requires PlaceInv(cs, q, d) && !IsAccepted(c.phase)
    ensures PlaceInv(cs + [c], q, d.(contexts := d.contexts + [FRESH]))
  {
  }

  /** Messages other than requests do not move a request. */
  lemma PlaceMessage(cs: seq<Caller>, q: seq<Message>, d: Desk, x: Message)
    requires PlaceInv(cs, q, d) && !x.Request?
    ensures PlaceInv(cs, q + [x], d)
  {
    forall i: nat ensures Queued(q + [x], i) == Queued(q, i) { QueuedAppend(q, x, i); }
  }

  lemma PlaceAccept(cs: seq<Caller>, ds: seq<Caller>, q: seq<Message>, d: Desk, i: nat)
    requires PlaceInv(cs, q, d) && i < |cs| && !IsAccepted(cs[i].phase)
    requires ds == cs[i := cs[i].(phase := Accepted)]
    ensures PlaceInv(ds, q + [Request(cs[i].id, i)], d)
  {
    forall j: nat ensures Queued(q + [Request(cs[i].id, i)], j) <==> Queued(q, j) || j == i {
      QueuedAppend(q, Request(cs[i].id, i), j);
    }
  }

  lemma PlaceTimer(cs: seq<Caller>, q: seq<Message>, d: Desk, i: nat)
    requires PlaceInv(cs, q, d) && i < |d.contexts| && d.contexts[i].timer
    ensures PlaceInv(cs, q, SetTimer(d, i, false))
  {
  }

  // ---------------------------------------------------------------- the processor

  /** The processor takes the head of the queue and this concerns no request. */
  lemma PlacePop(cs: seq<Caller>, q: seq<Message>, d: Desk)
    requires PlaceInv(cs, q, d) && q != [] && !q[0].Request?
    ensures PlaceInv(cs, q[1..], d)
  {
    forall i: nat ensures Queued(q[1..], i) == Queued(q, i) { QueuedTail(q, i); }
  }

  lemma PlaceWritten(cs: seq<Caller>, q: seq<Message>, d: Desk, arm: bool)
    requires PlaceInv(cs, q, d) && d.at.Looping? && q != [] && q[0].Request? && q[0].id !in d.messageContexts
    ensures PlaceInv(cs, q[1..], WriteStep(d, q[0].id, q[0].req, true, arm))
  {
    forall i: nat ensures Queued(q, i) <==> Queued(q[1..], i) || q[0].req == i { QueuedTail(q, i); }
  }

  lemma PlaceRefused(cs: seq<Caller>, q: seq<Message>, d: Desk, arm: bool)
    requires PlaceInv(cs, q, d) && d.at.Looping? && q != [] && q[0].Request?
    ensures PlaceInv(cs, q[1..], WriteStep(d, q[0].id, q[0].req, false, arm))
  {
    forall i: nat ensures Queued(q, i) <==> Queued(q[1..], i) || q[0].req == i { QueuedTail(q, i); }
  }

  /** An unwritten request's id is not registered, because ids are distinct. */
  lemma UnwrittenIsUnregistered(l: Ledger, q: seq<Message>, d: Desk, stopped: bool)
    requires PlaceInv(l.callers, q, d) && IdInv(l, stopped) && q != [] && q[0].Request?
    ensures q[0].id !in d.messageContexts
  {
  }

  lemma PlaceOffer(cs: seq<Caller>, q: seq<Message>, d: Desk, id: int, reply: Reply, after: After)
    requires PlaceInv(cs, q, d) && !d.at.Delivering? && !after.CloseFailed?
    ensures PlaceInv(cs, q, Offer(d, id, reply, after))
  {
  }

  lemma PlaceDispatched(cs: seq<Caller>, q: seq<Message>, d: Desk, p: Packet)
    requires PlaceInv(cs, q, d)
    ensures PlaceInv(cs, q, d.(dispatched := d.dispatched + [p]))
  {
  }

  /** Deleting a registration and closing its channel, from any point where no send is under way
      except to this very context. */
  lemma PlaceRelease(cs: seq<Caller>, q: seq<Message>, d: Desk, id: int, i: nat, timedOut: bool, at: Processor)
    requires PlaceInv(cs, q, d) && Registered(d, id, i) && !at.Delivering?
    requires d.at.Delivering? ==> d.at.req == i && !d.at.after.CloseFailed?
    ensures PlaceInv(cs, q, Release(d, id, i, timedOut).(at := at))
  {
  }

  lemma PlaceCloseFailed(cs: seq<Caller>, q: seq<Message>, d: Desk)
    requires PlaceInv(cs, q, d) && d.at.Delivering? && d.at.after.CloseFailed?
    ensures PlaceInv(cs, q, CloseResponses(d, d.at.req, false).(at := Looping))
  {
  }

  lemma PlaceDeliver(cs: seq<Caller>, q: seq<Message>, d: Desk, taken: bool)
    requires PlaceInv(cs, q, d) && d.at.Delivering?
    ensures PlaceInv(cs, q, Deliver(d, taken))
  {
  }

  lemma PlaceResume(cs: seq<Caller>, q: seq<Message>, d: Desk, at: Processor)
    requires PlaceInv(cs, q, d) && !at.Delivering? && (d.at.Delivering? ==> d.at.after.Resume?)
    ensures PlaceInv(cs, q, d.(at := at))
  {
  }

  lemma PlaceConclude(cs: seq<Caller>, q: seq<Message>, d: Desk)
    requires PlaceInv(cs, q, d) && d.at.Delivering?
    ensures PlaceInv(cs, q, Conclude(d))
  {
    match d.at.after
    case Resume => PlaceResume(cs, q, d, Looping);
    case CloseFailed => PlaceCloseFailed(cs, q, d);
    case DropTimedOut => PlaceRelease(cs, q, d, d.at.id, d.at.req, true, Looping);
    case CloseDrained => PlaceRelease(cs, q, d, d.at.id, d.at.req, false, Draining);
  }

  lemma PlaceProcess(l: Ledger, q: seq<Message>, d: Desk, writeOk: bool, arm: bool)
    requires PlaceInv(l.callers, q, d) && IdInv(l, false) && d.at.Looping? && q != []
    ensures PlaceInv(l.callers, q[1..], ProcessStep(d, q[0], writeOk, arm))
  {
    var cs := l.callers;
    if q[0].Request? {
      UnwrittenIsUnregistered(l, q, d, false);
      if writeOk { PlaceWritten(cs, q, d, arm); } else { PlaceRefused(cs, q, d, arm); }
    } else {
      PlacePop(cs, q, d);
      match q[0]
      case Quit => PlaceResume(cs, q[1..], d, Draining);
      case Response(p) =>
        PlaceDispatched(cs, q[1..], d, p);
        PlaceOffer(cs, q[1..], d.(dispatched := d.dispatched + [p]), p.id, Data(p), Resume);
      case Timeout(id) => PlaceOffer(cs, q[1..], d, id, Failure, DropTimedOut);
      case Finish(id) =>
        if id in d.messageContexts { PlaceRelease(cs, q[1..], d, id, d.messageContexts[id], false, Looping); }
    }
  }

  // ---------------------------------------------------------------- every step

  predicate Placed(s: State) {
    PlaceInv(s.ledger.callers, s.mailbox.queue, s.desk)
  }

  lemma PlaceGo(s: State, i: nat)
    requires Placed(s) && AdvanceEnabled(s.ledger, i, s.mailbox)
    ensures Placed(GoStep(s, i))
  {
    var cs, q := s.ledger.callers, s.mailbox.queue;
    var ds := Advance(s.ledger, i, s.mailbox.closing).callers;
    if cs[i].phase.Counted? && !s.mailbox.closing {
      PlaceAccept(cs, ds, q, s.desk, i);
    } else {
      PlaceGrows(cs, ds, q, s.desk);
      PlaceMessage(ds, q, s.desk, Finish(cs[i].id));
    }
  }

  lemma PlaceFire(cs: seq<Caller>, m: Mailbox, d: Desk, i: nat)
    requires PlaceInv(cs, m.queue, d) && i < |cs| && i < |d.contexts| && d.contexts[i].timer
    ensures PlaceInv(cs, SendProcessMessage(m, Timeout(cs[i].id)).queue, SetTimer(d, i, false))
  {
    PlaceTimer(cs, m.queue, d, i);
    PlaceMessage(cs, m.queue, SetTimer(d, i, false), Timeout(cs[i].id));
  }

  lemma PlaceReply(cs: seq<Caller>, q: seq<Message>, d: Desk, taken: bool)
    requires PlaceInv(cs, q, d) && d.at.Delivering?
    ensures PlaceInv(cs, q, Conclude(Deliver(d, taken)))
  {
    PlaceDeliver(cs, q, d, taken);
    PlaceConclude(cs, q, Deliver(d, taken));
  }

  lemma PlaceDrain(cs: seq<Caller>, q: seq<Message>, d: Desk, id: int, announce: bool)
    requires PlaceInv(cs, q, d) && d.at.Draining? && id in d.messageContexts
    ensures PlaceInv(cs, q, DrainStep(d, id, announce))
  {
    PlaceOffer(cs, q, d, id, Failure, CloseDrained);
    PlaceRelease(cs, q, d, id, d.messageContexts[id], false, Draining);
  }

  lemma PlaceStep(s: State, a: Action)
    requires Enabled(s, a) && Placed(s) && QueueInv(s.mailbox, QuitTaken(s.desk.at)) && IdInv(s.ledger, s.desk.at.Stopped?)
    ensures Placed(Apply(s, a))
  {
    var cs, q, d := s.ledger.callers, s.mailbox.queue, s.desk;
    match a
    case Begin(startTLS) => PlaceBegin(cs, TakeId(s.ledger, startTLS, d.at.Stopped?).callers[|cs|], q, d);
    case Go(i) => PlaceGo(s, i);
    case Spawn(i) => PlaceGrows(cs, Spawned(s.ledger, i).callers, q, d);
    case Fire(i) => PlaceFire(cs, s.mailbox, d, i);
    case Disarm(i) => PlaceTimer(cs, q, d, i);
    case Dequeue(writeOk, arm) =>
      QueueDequeue(s.mailbox, d, writeOk, arm);
      PlaceProcess(s.ledger, q, d, writeOk, arm);
    case Reply(taken) => PlaceReply(cs, q, d, taken);
    case Drain(id) => PlaceDrain(cs, q, d, id, s.mailbox.closing && s.wire.closeErr);
    case Stop => PlaceResume(cs, q, d, Stopped);
    case Shut(c) => PlaceMessage(cs, q, d, Quit);
    case Listen(r) => if r.Forward? { PlaceMessage(cs, q, d, Response(s.wire.readers[r.j].at.packet)); }
  }
}
