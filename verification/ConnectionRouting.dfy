/** Which packets a handler receives, and in which order. */
module ConnectionRouting {
  import opened Connection
  import opened ConnectionSafety
  import opened ConnectionChannels

  function Packets(rs: seq<Reply>): seq<Packet> {
    if rs == [] then []
    else
      var n := |rs| - 1;
      if rs[n].Data? then Packets(rs[..n]) + [rs[n].packet] else Packets(rs[..n])
  }

  function WithId(ps: seq<Packet>, id: int): seq<Packet> {
    if ps == [] then []
    else
      var n := |ps| - 1;
      if ps[n].id == id then WithId(ps[..n], id) + [ps[n]] else WithId(ps[..n], id)
  }

  predicate IsSubsequence(a: seq<Packet>, b: seq<Packet>) {
    if a == [] then true
    else if b == [] then false
    else
      || (a[|a| - 1] == b[|b| - 1] && IsSubsequence(a[..|a| - 1], b[..|b| - 1]))
      || IsSubsequence(a, b[..|b| - 1])
  }

  lemma SubsequenceExtends(a: seq<Packet>, b: seq<Packet>, p: Packet)
    requires IsSubsequence(a, b)
    ensures IsSubsequence(a, b + [p]) && IsSubsequence(a + [p], b + [p])
  {
    assert (a + [p])[..|a|] == a && (b + [p])[..|b|] == b;
  }

  lemma {:induction false} SubsequenceDrops(a: seq<Packet>, p: Packet, b: seq<Packet>)
    requires IsSubsequence(a + [p], b)
    ensures IsSubsequence(a, b)
  {
    var n := |b| - 1;
    assert (a + [p])[..|a|] == a && b == b[..n] + [b[n]];
    if !(b[n] == p && IsSubsequence(a, b[..n])) { SubsequenceDrops(a, p, b[..n]); }
    SubsequenceExtends(a, b[..n], b[n]);
  }

  lemma PacketsAppend(rs: seq<Reply>, r: Reply)
    ensures Packets(rs + [r]) == Packets(rs) + if r.Data? then [r.packet] else []
  {
    assert (rs + [r])[..|rs|] == rs;
  }

  lemma WithIdAppend(ps: seq<Packet>, p: Packet, id: int)
    ensures WithId(ps + [p], id) == WithId(ps, id) + if p.id == id then [p] else []
  {
    assert (ps + [p])[..|ps|] == ps;
  }

  // ---------------------------------------------------------------- the invariant

  /** The packets with this id dispatched after the first `since`. */
  function Due(dispatched: seq<Packet>, since: nat, id: int): seq<Packet> {
    if since <= |dispatched| then WithId(dispatched[since..], id) else []
  }

  /** The packet being sent to this context. */
  function InFlight(at: Processor, i: nat): seq<Packet> {
    if at.Delivering? && at.req == i && at.reply.Data? then [at.reply.packet] else []
  }

  predicate RoutedOne(
    k: Caller, c: Context, since: nat, registered: bool, flight: seq<Packet>, dispatched: seq<Packet>, timed: bool)
  {
    var got, due := Packets(c.replies), Due(dispatched, since, k.id);
    && since <= |dispatched|
    && (!c.written ==> got == [])
    && (c.written && timed ==> IsSubsequence(got + flight, due))
    && (c.written && !timed ==> got <= due)
    && (c.written && !timed && registered && !IsDone(k.phase) ==> got + flight == due)
  }

  predicate RouteInv(cs: seq<Caller>, d: Desk, timed: bool) {
    && |d.contexts| == |cs|
    && (forall i :: i in d.since ==> i < |cs|)
    && forall i :: 0 <= i < |cs| ==>
         RoutedOne(cs[i], d.contexts[i], Since(d, i), Registered(d, cs[i].id, i), InFlight(d.at, i), d.dispatched, timed)
  }

  lemma RouteBegin(cs: seq<Caller>, k: Caller, d: Desk, timed: bool)
    requires RouteInv(cs, d, timed)
    ensures RouteInv(cs + [k], d.(contexts := d.contexts + [FRESH]), timed)
  {
  }

  /** Callers only move towards being done. */
  predicate Matures(cs: seq<Caller>, ds: seq<Caller>) {
    && |cs| == |ds|
    && forall i :: 0 <= i < |cs| ==> ds[i].id == cs[i].id && (IsDone(cs[i].phase) ==> IsDone(ds[i].phase))
  }

  lemma RouteMatures(cs: seq<Caller>, ds: seq<Caller>, d: Desk, timed: bool)
    requires RouteInv(cs, d, timed) && Matures(cs, ds)
    ensures RouteInv(ds, d, timed)
  {
  }

  lemma RouteTimer(cs: seq<Caller>, d: Desk, i: nat, timed: bool)
    requires RouteInv(cs, d, timed)
    ensures RouteInv(cs, SetTimer(d, i, false), timed)
  {
  }

  lemma RouteWritten(cs: seq<Caller>, d: Desk, id: int, i: nat, arm: bool, timed: bool)
    requires RouteInv(cs, d, timed) && d.at.Looping? && id !in d.messageContexts
    requires i < |cs| && cs[i].id == id && !d.contexts[i].written
    ensures RouteInv(cs, WriteStep(d, id, i, true, arm), timed)
  {
    assert d.dispatched[|d.dispatched|..] == [];
  }

  /** A send that carries no packet begins. */
  lemma RouteOfferFailure(cs: seq<Caller>, d: Desk, at: Processor, timed: bool)
    requires RouteInv(cs, d, timed) && !d.at.Delivering? && (at.Delivering? ==> at.reply.Failure?)
    ensures RouteInv(cs, d.(at := at), timed)
  {
  }

  lemma DispatchedOne(k: Caller, c: Context, since: nat, registered: bool, ds: seq<Packet>, p: Packet, timed: bool)
    requires RoutedOne(k, c, since, registered, [], ds, timed) && (registered ==> c.written)
    ensures RoutedOne(k, c, since, registered, if registered && p.id == k.id then [p] else [], ds + [p], timed)
  {
    var got, due := Packets(c.replies), Due(ds, since, k.id);
    assert (ds + [p])[since..] == ds[since..] + [p];
    WithIdAppend(ds[since..], p, k.id);
    if c.written && timed {
      assert got + [] == got;
      SubsequenceExtends(got, due, p);
    }
  }

  lemma RouteDispatch(cs: seq<Caller>, q: seq<Message>, d: Desk, p: Packet, timed: bool)
    requires RouteInv(cs, d, timed) && PlaceInv(cs, q, d) && d.at.Looping?
    ensures RouteInv(cs, Offer(d.(dispatched := d.dispatched + [p]), p.id, Data(p), Resume), timed)
  {
    var e := Offer(d.(dispatched := d.dispatched + [p]), p.id, Data(p), Resume);
    forall i | 0 <= i < |cs|
      ensures RoutedOne(cs[i], e.contexts[i], Since(e, i), Registered(e, cs[i].id, i), InFlight(e.at, i), e.dispatched, timed)
    {
      DispatchedOne(cs[i], d.contexts[i], Since(d, i), Registered(d, cs[i].id, i), d.dispatched, p, timed);
    }
  }

  lemma TakenOne(k: Caller, c: Context, since: nat, registered: bool, reply: Reply, ds: seq<Packet>, timed: bool)
    requires RoutedOne(k, c, since, registered, if reply.Data? then [reply.packet] else [], ds, timed)
    requires !IsDone(k.phase) && (reply.Data? ==> c.written && registered)
    ensures RoutedOne(k, c.(replies := c.replies + [reply]), since, registered, [], ds, timed)
  {
    PacketsAppend(c.replies, reply);
    var got := Packets(c.replies + [reply]);
    assert got + [] == got;
  }

  lemma SkippedOne(k: Caller, c: Context, since: nat, registered: bool, flight: seq<Packet>, ds: seq<Packet>, timed: bool)
    requires RoutedOne(k, c, since, registered, flight, ds, timed) && (timed || IsDone(k.phase)) && |flight| <= 1
    ensures RoutedOne(k, c, since, registered, [], ds, timed)
  {
    var got, due := Packets(c.replies), Due(ds, since, k.id);
    assert got + [] == got;
    if c.written && timed && flight != [] {
      assert got + flight == got + [flight[0]];
      SubsequenceDrops(got, flight[0], due);
    }
  }

  /** The end of a send: the packet in flight was received, or its loss is allowed. */
  lemma RouteDeliver(cs: seq<Caller>, q: seq<Message>, d: Desk, taken: bool, timed: bool)
    requires RouteInv(cs, d, timed) && PlaceInv(cs, q, d) && d.at.Delivering?
    requires if taken then !IsDone(cs[d.at.req].phase) else timed || IsDone(cs[d.at.req].phase)
    ensures RouteInv(cs, Deliver(d, taken).(at := Looping), timed)
  {
    var e, n := Deliver(d, taken).(at := Looping), d.at.req;
    forall i | 0 <= i < |cs|
      ensures RoutedOne(cs[i], e.contexts[i], Since(e, i), Registered(e, cs[i].id, i), InFlight(e.at, i), e.dispatched, timed)
    {
      if i == n {
        if taken {
          TakenOne(cs[n], d.contexts[n], Since(d, n), Registered(d, cs[n].id, n), d.at.reply, d.dispatched, timed);
        } else {
          SkippedOne(cs[n], d.contexts[n], Since(d, n), Registered(d, cs[n].id, n), InFlight(d.at, n), d.dispatched, timed);
        }
      }
    }
  }

  /** Closing a channel, whether or not its registration is deleted, moves no packet. */
  lemma RouteClose(cs: seq<Caller>, d: Desk, i: nat, timedOut: bool, timed: bool)
    requires RouteInv(cs, d, timed)
    ensures RouteInv(cs, CloseResponses(d, i, timedOut), timed)
  {
  }

  lemma RouteRelease(cs: seq<Caller>, d: Desk, id: int, i: nat, timedOut: bool, timed: bool)
    requires RouteInv(cs, d, timed)
    ensures RouteInv(cs, Release(d, id, i, timedOut), timed)
  {
    assert RouteInv(cs, d.(messageContexts := d.messageContexts - {id}), timed);
    RouteClose(cs, d.(messageContexts := d.messageContexts - {id}), i, timedOut, timed);
  }

  lemma RouteReply(cs: seq<Caller>, q: seq<Message>, d: Desk, taken: bool, timed: bool)
    requires RouteInv(cs, d, timed) && PlaceInv(cs, q, d) && d.at.Delivering?
    requires if taken then !IsDone(cs[d.at.req].phase) else timed || IsDone(cs[d.at.req].phase)
    ensures RouteInv(cs, Conclude(Deliver(d, taken)), timed)
  {
    RouteDeliver(cs, q, d, taken, timed);
    var e := Deliver(d, taken).(at := Looping);
    match d.at.after
    case Resume =>
    case CloseFailed => RouteClose(cs, e, d.at.req, false, timed);
    case DropTimedOut => RouteRelease(cs, e, d.at.id, d.at.req, true, timed);
    case CloseDrained =>
      RouteRelease(cs, e, d.at.id, d.at.req, false, timed);
      RouteOfferFailure(cs, Release(e, d.at.id, d.at.req, false), Draining, timed);
  }

  lemma RouteProcess(l: Ledger, q: seq<Message>, d: Desk, writeOk: bool, arm: bool, timed: bool)
    requires RouteInv(l.callers, d, timed) && PlaceInv(l.callers, q, d) && IdInv(l, false) && d.at.Looping? && q != []
    ensures RouteInv(l.callers, ProcessStep(d, q[0], writeOk, arm), timed)
  {
    var cs := l.callers;
    match q[0]
    case Request(id, i) =>
      UnwrittenIsUnregistered(l, q, d, false);
      if writeOk { RouteWritten(cs, d, id, i, arm, timed); }
      else { RouteOfferFailure(cs, d, Delivering(id, i, Failure, CloseFailed), timed); }
    case Response(p) => RouteDispatch(cs, q, d, p, timed);
    case Quit => RouteOfferFailure(cs, d, Draining, timed);
    case Timeout(id) =>
      if id in d.messageContexts {
        RouteOfferFailure(cs, d, Delivering(id, d.messageContexts[id], Failure, DropTimedOut), timed);
      }
    case Finish(id) =>
      if id in d.messageContexts { RouteRelease(cs, d, id, d.messageContexts[id], false, timed); }
  }

  lemma RouteGo(l: Ledger, i: nat, closing: bool, d: Desk, timed: bool)
    requires RouteInv(l.callers, d, timed) && i < |l.callers| && !IsOver(l.callers[i].phase)
    ensures RouteInv(Advance(l, i, closing).callers, d, timed)
  {
    RouteMatures(l.callers, Advance(l, i, closing).callers, d, timed);
  }

  lemma RouteSpawn(l: Ledger, i: nat, d: Desk, timed: bool)
    requires RouteInv(l.callers, d, timed) && i < |l.callers|
    ensures RouteInv(Spawned(l, i).callers, d, timed)
  {
    RouteMatures(l.callers, Spawned(l, i).callers, d, timed);
  }

  lemma RouteDrain(cs: seq<Caller>, d: Desk, id: int, announce: bool, timed: bool)
    requires RouteInv(cs, d, timed) && d.at.Draining? && id in d.messageContexts
    ensures RouteInv(cs, DrainStep(d, id, announce), timed)
  {
    RouteOfferFailure(cs, d, Delivering(id, d.messageContexts[id], Failure, CloseDrained), timed);
    RouteRelease(cs, d, id, d.messageContexts[id], false, timed);
  }

  lemma RouteStep(s: State, a: Action)
    requires Enabled(s, a) && Placed(s) && QueueInv(s.mailbox, QuitTaken(s.desk.at)) && IdInv(s.ledger, s.desk.at.Stopped?)
    requires RouteInv(s.ledger.callers, s.desk, s.timed)
    ensures RouteInv(Apply(s, a).ledger.callers, Apply(s, a).desk, s.timed)
  {
    var cs, d, timed := s.ledger.callers, s.desk, s.timed;
    match a
    case Begin(startTLS) => RouteBegin(cs, TakeId(s.ledger, startTLS, d.at.Stopped?).callers[|cs|], d, timed);
    case Go(i) => RouteGo(s.ledger, i, s.mailbox.closing, d, timed);
    case Spawn(i) => RouteSpawn(s.ledger, i, d, timed);
    case Fire(i) => RouteTimer(cs, d, i, timed);
    case Disarm(i) => RouteTimer(cs, d, i, timed);
    case Dequeue(writeOk, arm) =>
      QueueDequeue(s.mailbox, d, writeOk, arm);
      RouteProcess(s.ledger, s.mailbox.queue, d, writeOk, arm, timed);
    case Reply(taken) => RouteReply(cs, s.mailbox.queue, d, taken, timed);
    case Drain(id) => RouteDrain(cs, d, id, s.mailbox.closing && s.wire.closeErr, timed);
    case Stop => RouteOfferFailure(cs, d, Stopped, timed);
    case Shut(c) =>
    case Listen(r) =>
  }
}
