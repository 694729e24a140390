/** How many readers consume the connection, across the reader changes of `StartTLS`. */
module ConnectionReaders {
  import opened Connection
  import opened ConnectionSafety
  import opened ConnectionLedger
  import opened ConnectionChannels
  import opened ConnectionRouting

  /** A reader that will not read from the network again. */
  predicate IsCommitted(r: Reader) {
    r.at.Gone? || r.cleanstop
  }

  predicate IsQuiet(rs: seq<Reader>) {
    forall j :: 0 <= j < |rs| ==> IsCommitted(rs[j])
  }

  predicate AtMostOne(rs: seq<Reader>) {
    forall j, k :: 0 <= j < k < |rs| ==> IsCommitted(rs[j]) || IsCommitted(rs[k])
  }

  /** A StartTLS request that has not yet started its own reader. */
  predicate IsWaiting(c: Caller) {
    IsStartingTLS(c) && !c.spawned
  }

  predicate Carries(at: ReaderAt) {
    at.Holding? || at.Forwarding?
  }

  /** Packets with readers or in the queue have ids that were read. */
  predicate ReadInv(read: set<int>, q: seq<Message>, rs: seq<Reader>) {
    && (forall j :: 0 <= j < |rs| && Carries(rs[j].at) ==> rs[j].at.packet.id in read)
    && (forall k :: 0 <= k < |q| && q[k].Response? ==> q[k].packet.id in read)
  }

  /** The reply to a waiting StartTLS request is past the reader, or in the hands of one that has
      looked at the flag. */
  predicate IsSeen(c: Caller, i: nat, q: seq<Message>, d: Desk, rs: seq<Reader>) {
    || (exists j :: 0 <= j < |rs| && rs[j].at.Forwarding? && rs[j].at.packet.id == c.id)
    || (exists k :: 0 <= k < |q| && q[k].Response? && q[k].packet.id == c.id)
    || InFlight(d.at, i) != []
    || Packets(At(d, i).replies) != []
  }

  predicate SeenInv(cs: seq<Caller>, q: seq<Message>, d: Desk, rs: seq<Reader>) {
    forall i :: 0 <= i < |cs| && IsWaiting(cs[i]) && IsSeen(cs[i], i, q, d, rs) ==> IsQuiet(rs)
  }

  /** A reader that reads, or has not looked at the flag, is not committed; there is at most one. */
  predicate CountInv(rs: seq<Reader>) {
    && AtMostOne(rs)
    && forall j :: 0 <= j < |rs| && (rs[j].at.Reading? || rs[j].at.Holding?) ==> !rs[j].cleanstop
  }

  predicate ReaderInv(read: set<int>, cs: seq<Caller>, q: seq<Message>, d: Desk, rs: seq<Reader>) {
    CountInv(rs) && ReadInv(read, q, rs) && SeenInv(cs, q, d, rs)
  }

  // ---------------------------------------------------------------- callers and messages

  lemma SeenStays(cs: seq<Caller>, q: seq<Message>, d: Desk, rs: seq<Reader>, ds: seq<Caller>)
    requires SeenInv(cs, q, d, rs) && |cs| == |ds|
    requires forall i :: 0 <= i < |cs| ==> ds[i].id == cs[i].id && (IsWaiting(ds[i]) ==> IsWaiting(cs[i]))
    ensures SeenInv(ds, q, d, rs)
  {
    forall i | 0 <= i < |ds| && IsWaiting(ds[i]) && IsSeen(ds[i], i, q, d, rs) ensures IsQuiet(rs) {
      assert IsSeen(cs[i], i, q, d, rs);
    }
  }

  lemma ReadersBegin(read: set<int>, cs: seq<Caller>, c: Caller, q: seq<Message>, d: Desk, rs: seq<Reader>)
    requires ReaderInv(read, cs, q, d, rs) && c.phase.Identified? && |cs| == |d.contexts|
    ensures ReaderInv(read, cs + [c], q, d.(contexts := d.contexts + [FRESH]), rs)
  {
    var e := d.(contexts := d.contexts + [FRESH]);
    forall i | 0 <= i < |cs + [c]| && IsWaiting((cs + [c])[i]) && IsSeen((cs + [c])[i], i, q, e, rs)
      ensures IsQuiet(rs)
    {
      assert IsSeen(cs[i], i, q, d, rs);
    }
  }

  /** When the flag is about to be set and no packet with the request's id was read, its reply is
      not under way. */
  lemma UnreadIsUnseen(read: set<int>, cs: seq<Caller>, i: nat, q: seq<Message>, d: Desk, rs: seq<Reader>)
    requires ReadInv(read, q, rs) && PlaceInv(cs, q, d) && i < |cs| && cs[i].phase.Checked? && cs[i].id !in read
    ensures !IsSeen(cs[i], i, q, d, rs)
  {
    assert d.contexts[i] == FRESH;
  }

  lemma ReadersGo(read: set<int>, l: Ledger, i: nat, q: seq<Message>, d: Desk, rs: seq<Reader>, closing: bool)
    requires ReaderInv(read, l.callers, q, d, rs) && PlaceInv(l.callers, q, d)
    requires i < |l.callers| && !IsOver(l.callers[i].phase)
    requires l.callers[i].phase.Checked? && l.callers[i].startTLS ==> l.callers[i].id !in read
    ensures ReaderInv(read, Advance(l, i, closing).callers, q, d, rs)
  {
    var ds := Advance(l, i, closing).callers;
    if l.callers[i].phase.Checked? {
      if l.callers[i].startTLS { UnreadIsUnseen(read, l.callers, i, q, d, rs); }
      forall j | 0 <= j < |ds| && IsWaiting(ds[j]) && IsSeen(ds[j], j, q, d, rs) ensures IsQuiet(rs) {
        assert IsSeen(l.callers[j], j, q, d, rs);
      }
    } else {
      SeenStays(l.callers, q, d, rs, ds);
    }
  }

  lemma ReadersMessage(read: set<int>, cs: seq<Caller>, q: seq<Message>, d: Desk, rs: seq<Reader>, x: Message)
    requires ReaderInv(read, cs, q, d, rs) && !x.Response?
    ensures ReaderInv(read, cs, q + [x], d, rs)
  {
    forall i | 0 <= i < |cs| && IsWaiting(cs[i]) && IsSeen(cs[i], i, q + [x], d, rs) ensures IsQuiet(rs) {
      assert IsSeen(cs[i], i, q, d, rs);
    }
  }

  // ---------------------------------------------------------------- the processor

  /** Contexts keep what they received, and no other packet is put in flight. */
  lemma ReadersDesk(read: set<int>, cs: seq<Caller>, q: seq<Message>, d: Desk, rs: seq<Reader>, e: Desk)
    requires ReaderInv(read, cs, q, d, rs) && |d.contexts| == |e.contexts|
    requires forall i :: 0 <= i < |d.contexts| ==>
      e.contexts[i].replies == d.contexts[i].replies
    requires e.at == d.at || !e.at.Delivering? || e.at.reply.Failure?
    ensures ReaderInv(read, cs, q, e, rs)
  {
    forall i | 0 <= i < |cs| && IsWaiting(cs[i]) && IsSeen(cs[i], i, q, e, rs) ensures IsQuiet(rs) {
      assert IsSeen(cs[i], i, q, d, rs);
    }
  }

  lemma ReadersPop(read: set<int>, cs: seq<Caller>, q: seq<Message>, d: Desk, rs: seq<Reader>)
    requires ReaderInv(read, cs, q, d, rs) && q != []
    ensures ReaderInv(read, cs, q[1..], d, rs)
  {
    forall i | 0 <= i < |cs| && IsWaiting(cs[i]) && IsSeen(cs[i], i, q[1..], d, rs) ensures IsQuiet(rs) {
      assert IsSeen(cs[i], i, q, d, rs);
    }
  }

  lemma ReadersDispatch(read: set<int>, cs: seq<Caller>, q: seq<Message>, d: Desk, rs: seq<Reader>)
    requires ReaderInv(read, cs, q, d, rs) && PlaceInv(cs, q, d) && q != [] && q[0].Response?
    ensures var p := q[0].packet;
      ReaderInv(read, cs, q[1..], Offer(d.(dispatched := d.dispatched + [p]), p.id, Data(p), Resume), rs)
  {
    var p := q[0].packet;
    var e := Offer(d.(dispatched := d.dispatched + [p]), p.id, Data(p), Resume);
    forall i | 0 <= i < |cs| && IsWaiting(cs[i]) && IsSeen(cs[i], i, q[1..], e, rs) ensures IsQuiet(rs) {
      assert IsSeen(cs[i], i, q, d, rs);
    }
  }

  lemma ReadersDeliver(read: set<int>, cs: seq<Caller>, q: seq<Message>, d: Desk, rs: seq<Reader>, taken: bool)
    requires ReaderInv(read, cs, q, d, rs) && d.at.Delivering? && |cs| == |d.contexts|
    ensures ReaderInv(read, cs, q, Deliver(d, taken), rs)
  {
    var e := Deliver(d, taken);
    forall i | 0 <= i < |cs| && IsWaiting(cs[i]) && IsSeen(cs[i], i, q, e, rs) ensures IsQuiet(rs) {
      PacketsAppend(d.contexts[i].replies, d.at.reply);
      assert IsSeen(cs[i], i, q, d, rs);
    }
  }

  // ---------------------------------------------------------------- the readers themselves

  /** A reader takes a packet, or stops. */
  lemma ReadersRead(read: set<int>, more: set<int>, cs: seq<Caller>, q: seq<Message>, d: Desk, rs: seq<Reader>, j: nat, at: ReaderAt)
    requires ReaderInv(read, cs, q, d, rs) && j < |rs| && rs[j].at.Reading?
    requires at.Gone? || (at.Holding? && at.packet.id in more)
    ensures ReaderInv(read + more, cs, q, d, rs[j := Reader(at, rs[j].cleanstop)])
  {
    var ts := rs[j := Reader(at, rs[j].cleanstop)];
    assert !IsQuiet(rs);
    forall i | 0 <= i < |cs| && IsWaiting(cs[i]) ensures !IsSeen(cs[i], i, q, d, ts) {
      assert !IsSeen(cs[i], i, q, d, rs);
    }
  }

  /** The only uncommitted reader sees the flag and commits. */
  lemma ReadersCheck(read: set<int>, l: Ledger, q: seq<Message>, d: Desk, rs: seq<Reader>, j: nat)
    requires ReaderInv(read, l.callers, q, d, rs) && TlsInv(l) && j < |rs| && rs[j].at.Holding?
    ensures ReaderInv(read, l.callers, q, d, rs[j := Reader(Forwarding(rs[j].at.packet), rs[j].cleanstop || l.startingTLS)])
  {
    var cs, ts := l.callers, rs[j := Reader(Forwarding(rs[j].at.packet), rs[j].cleanstop || l.startingTLS)];
    forall i | 0 <= i < |cs| && IsWaiting(cs[i]) && IsSeen(cs[i], i, q, d, ts) ensures IsQuiet(ts) {
      assert l.startingTLS;
    }
  }

  lemma ReadersForward(read: set<int>, cs: seq<Caller>, q: seq<Message>, d: Desk, rs: seq<Reader>, j: nat)
    requires ReaderInv(read, cs, q, d, rs) && j < |rs| && rs[j].at.Forwarding?
    ensures ReaderInv(read, cs, q + [Response(rs[j].at.packet)], d,
                      rs[j := Reader(if rs[j].cleanstop then Gone else Reading, rs[j].cleanstop)])
  {
    var ts := rs[j := Reader(if rs[j].cleanstop then Gone else Reading, rs[j].cleanstop)];
    var p := q + [Response(rs[j].at.packet)];
    forall i | 0 <= i < |cs| && IsWaiting(cs[i]) && IsSeen(cs[i], i, p, d, ts) ensures IsQuiet(ts) {
      assert IsSeen(cs[i], i, q, d, rs);
    }
  }

  lemma ReadersGone(read: set<int>, cs: seq<Caller>, q: seq<Message>, d: Desk, rs: seq<Reader>, j: nat)
    requires ReaderInv(read, cs, q, d, rs) && j < |rs|
    ensures ReaderInv(read, cs, q, d, rs[j := Reader(Gone, rs[j].cleanstop)])
  {
    var ts := rs[j := Reader(Gone, rs[j].cleanstop)];
    forall i | 0 <= i < |cs| && IsWaiting(cs[i]) && IsSeen(cs[i], i, q, d, ts) ensures IsQuiet(ts) {
      assert IsSeen(cs[i], i, q, d, rs);
    }
  }

  lemma {:induction false} PacketsOfData(rs: seq<Reply>)
    requires rs != [] && rs[0].Data?
    ensures Packets(rs) != []
  {
    if |rs| > 1 { PacketsOfData(rs[..|rs| - 1]); }
  }

  /** When StartTLS has taken its reply, every reader so far has committed to stop. */
  lemma AnsweredIsQuiet(read: set<int>, s: State, i: nat)
    requires Watched(read, s) && IsAnswered(s, i)
    ensures IsQuiet(s.wire.readers)
  {
    PacketsOfData(At(s.desk, i).replies);
    assert IsSeen(s.ledger.callers[i], i, s.mailbox.queue, s.desk, s.wire.readers);
  }

  lemma ReadersSpawn(read: set<int>, l: Ledger, closing: bool, q: seq<Message>, d: Desk, rs: seq<Reader>, i: nat)
    requires ReaderInv(read, l.callers, q, d, rs) && IsQuiet(rs) && ConnectionLedger.CountInv(l, closing) && TlsInv(l)
    requires i < |l.callers| && IsStartingTLS(l.callers[i])
    ensures ReaderInv(read, Spawned(l, i).callers, q, d, rs + [Reader(Reading, false)])
  {
    var cs, ds, ts := l.callers, Spawned(l, i).callers, rs + [Reader(Reading, false)];
    forall j | 0 <= j < |ds| ensures !IsWaiting(ds[j]) {
      if IsStartingTLS(cs[j]) { OnlyOneCharged(l, closing, i, j); }
    }
  }

  // ---------------------------------------------------------------- every step

  /** `read` holds the ids of the packets read so far. */
  predicate Watched(read: set<int>, s: State) {
    ReaderInv(read, s.ledger.callers, s.mailbox.queue, s.desk, s.wire.readers)
  }

  function ReadIds(a: Action): set<int> {
    if a.Listen? && a.listen.Read? then {a.listen.packet.id} else {}
  }

  /** The caller `i` is about to count a StartTLS request. */
  predicate CountsStartTLS(s: State, i: nat) {
    InPhase(s.ledger, i, Checked) && s.ledger.callers[i].startTLS
  }

  /** No packet with the id of a StartTLS request was read before the request is counted. */
  predicate IsPatient(read: set<int>, s: State, a: Action) {
    a.Go? && CountsStartTLS(s, a.i) ==> s.ledger.callers[a.i].id !in read
  }

  lemma ReadersProcess(read: set<int>, cs: seq<Caller>, q: seq<Message>, d: Desk, rs: seq<Reader>, writeOk: bool, arm: bool)
    requires ReaderInv(read, cs, q, d, rs) && PlaceInv(cs, q, d) && d.at.Looping? && q != []
    ensures ReaderInv(read, cs, q[1..], ProcessStep(d, q[0], writeOk, arm), rs)
  {
    if q[0].Response? {
      ReadersDispatch(read, cs, q, d, rs);
    } else {
      ReadersPop(read, cs, q, d, rs);
      ReadersDesk(read, cs, q[1..], d, rs, ProcessStep(d, q[0], writeOk, arm));
    }
  }

  lemma ReadersReply(read: set<int>, cs: seq<Caller>, q: seq<Message>, d: Desk, rs: seq<Reader>, taken: bool)
    requires ReaderInv(read, cs, q, d, rs) && PlaceInv(cs, q, d) && d.at.Delivering?
    ensures ReaderInv(read, cs, q, Conclude(Deliver(d, taken)), rs)
  {
    ReadersDeliver(read, cs, q, d, rs, taken);
    ReadersDesk(read, cs, q, Deliver(d, taken), rs, Conclude(Deliver(d, taken)));
  }

  lemma ReadersListen(read: set<int>, s: State, r: ReaderAction)
    requires Watched(read, s) && TlsInv(s.ledger) && ReaderEnabled(s.wire, r, s.mailbox)
    ensures Watched(read + ReadIds(Listen(r)), ListenStep(s, r))
  {
    var cs, q, d, rs := s.ledger.callers, s.mailbox.queue, s.desk, s.wire.readers;
    assert read + {} == read;
    match r
    case Read(j, p) => ReadersRead(read, {p.id}, cs, q, d, rs, j, Holding(p));
    case ReadError(j) => ReadersRead(read, {}, cs, q, d, rs, j, Gone);
    case CheckTLS(j) => ReadersCheck(read, s.ledger, q, d, rs, j);
    case Forward(j) =>
      if s.mailbox.closing { ReadersGone(read, cs, q, d, rs, j); } else { ReadersForward(read, cs, q, d, rs, j); }
  }

  lemma ReadersAdvance(read: set<int>, s: State, i: nat)
    requires Watched(read, s) && Placed(s) && AdvanceEnabled(s.ledger, i, s.mailbox) && IsPatient(read, s, Go(i))
    ensures Watched(read, GoStep(s, i))
  {
    var cs := Advance(s.ledger, i, s.mailbox.closing).callers;
    ReadersGo(read, s.ledger, i, s.mailbox.queue, s.desk, s.wire.readers, s.mailbox.closing);
    ReadersMessage(read, cs, s.mailbox.queue, s.desk, s.wire.readers, Request(s.ledger.callers[i].id, i));
    ReadersMessage(read, cs, s.mailbox.queue, s.desk, s.wire.readers, Finish(s.ledger.callers[i].id));
  }

  lemma ReadersFire(read: set<int>, s: State, i: nat)
    requires Watched(read, s) && i < |s.ledger.callers|
    ensures Watched(read, FireStep(s, i)) && Watched(read, s.(desk := SetTimer(s.desk, i, false)))
  {
    var cs, q, e, rs := s.ledger.callers, s.mailbox.queue, SetTimer(s.desk, i, false), s.wire.readers;
    ReadersDesk(read, cs, q, s.desk, rs, e);
    ReadersMessage(read, cs, q, e, rs, Timeout(cs[i].id));
  }

  lemma ReadersOther(read: set<int>, s: State, a: Action)
    requires Enabled(s, a) && Watched(read, s) && Placed(s) && QueueInv(s.mailbox, QuitTaken(s.desk.at))
    requires a.Dequeue? || a.Reply? || a.Drain? || a.Stop? || a.Shut?
    ensures Watched(read, Apply(s, a))
  {
    var cs, q, d, rs := s.ledger.callers, s.mailbox.queue, s.desk, s.wire.readers;
    match a
    case Dequeue(writeOk, arm) =>
      QueueDequeue(s.mailbox, d, writeOk, arm);
      ReadersProcess(read, cs, q, d, rs, writeOk, arm);
    case Reply(taken) => ReadersReply(read, cs, q, d, rs, taken);
    case Drain(id) => ReadersDesk(read, cs, q, d, rs, Apply(s, a).desk);
    case Stop => ReadersDesk(read, cs, q, d, rs, d.(at := Stopped));
    case Shut(c) => ReadersMessage(read, cs, q, d, rs, Quit);
  }

  lemma ReadersStep(read: set<int>, s: State, a: Action)
    requires Enabled(s, a) && IsPatient(read, s, a) && Watched(read, s) && Placed(s)
    requires QueueInv(s.mailbox, QuitTaken(s.desk.at))
    requires ConnectionLedger.CountInv(s.ledger, s.mailbox.closing) && TlsInv(s.ledger)
    ensures Watched(read + ReadIds(a), Apply(s, a))
  {
    var cs, q, d, rs := s.ledger.callers, s.mailbox.queue, s.desk, s.wire.readers;
    assert read + {} == read;
    match a
    case Begin(startTLS) => ReadersBegin(read, cs, TakeId(s.ledger, startTLS, d.at.Stopped?).callers[|cs|], q, d, rs);
    case Go(i) => ReadersAdvance(read, s, i);
    case Spawn(i) =>
      AnsweredIsQuiet(read, s, i);
      ReadersSpawn(read, s.ledger, s.mailbox.closing, q, d, rs, i);
    case Fire(i) => ReadersFire(read, s, i);
    case Disarm(i) => ReadersFire(read, s, i);
    case Listen(r) => ReadersListen(read, s, r);
    case _ => ReadersOther(read, s, a);
  }

  // ---------------------------------------------------------------- servers that answer what was asked

  /** The id is that of a written request, or of none. */
  predicate IsAnswerable(cs: seq<Caller>, d: Desk, id: int) {
    id <= 0 || exists i :: 0 <= i < |cs| && i < |d.contexts| && cs[i].id == id && d.contexts[i].written
  }

  /** The server sends a packet with a positive id only after the request with that id was written. */
  predicate IsHonest(s: State, a: Action) {
    a.Listen? && a.listen.Read? ==> IsAnswerable(s.ledger.callers, s.desk, a.listen.packet.id)
  }

  predicate AreAnswerable(read: set<int>, s: State) {
    forall id :: id in read ==> IsAnswerable(s.ledger.callers, s.desk, id)
  }

  /** Requests keep their ids, and a written request stays written. */
  predicate Keeps(s: State, t: State) {
    && |s.ledger.callers| <= |t.ledger.callers| && |s.desk.contexts| <= |t.desk.contexts|
    && (forall i :: 0 <= i < |s.ledger.callers| ==> t.ledger.callers[i].id == s.ledger.callers[i].id)
    && (forall i :: 0 <= i < |s.desk.contexts| && s.desk.contexts[i].written ==> t.desk.contexts[i].written)
  }

  /** Written requests stay written. */
  predicate DeskKeeps(d: Desk, e: Desk) {
    |d.contexts| == |e.contexts| && forall i :: 0 <= i < |d.contexts| && d.contexts[i].written ==> e.contexts[i].written
  }

  lemma ProcessKeeps(d: Desk, x: Message, writeOk: bool, arm: bool)
    ensures DeskKeeps(d, ProcessStep(d, x, writeOk, arm))
  {
  }

  lemma ReplyKeeps(d: Desk, taken: bool)
    requires d.at.Delivering?
    ensures DeskKeeps(d, Conclude(Deliver(d, taken)))
  {
  }

  lemma StepKeeps(s: State, a: Action)
    requires Enabled(s, a)
    ensures Keeps(s, Apply(s, a))
  {
    match a
    case Dequeue(writeOk, arm) =>
      if s.mailbox.queue != [] { ProcessKeeps(s.desk, s.mailbox.queue[0], writeOk, arm); }
    case Reply(taken) => ReplyKeeps(s.desk, taken);
    case _ =>
  }

  lemma AnswerableStays(s: State, t: State, id: int)
    requires Keeps(s, t) && IsAnswerable(s.ledger.callers, s.desk, id)
    ensures IsAnswerable(t.ledger.callers, t.desk, id)
  {
    if id > 0 {
      var i :| 0 <= i < |s.ledger.callers| && i < |s.desk.contexts| && s.ledger.callers[i].id == id && s.desk.contexts[i].written;
      assert t.ledger.callers[i].id == id && t.desk.contexts[i].written;
    }
  }

  lemma HonestStep(read: set<int>, s: State, a: Action)
    requires Enabled(s, a) && IsHonest(s, a) && AreAnswerable(read, s)
    ensures AreAnswerable(read + ReadIds(a), Apply(s, a))
  {
    StepKeeps(s, a);
    forall id | id in read + ReadIds(a) ensures IsAnswerable(Apply(s, a).ledger.callers, Apply(s, a).desk, id) {
      AnswerableStays(s, Apply(s, a), id);
    }
  }

  /** Such a server is patient: a request that is not counted is not written. */
  lemma HonestIsPatient(read: set<int>, s: State, a: Action)
    requires AreAnswerable(read, s) && Placed(s) && IdInv(s.ledger, s.desk.at.Stopped?)
    ensures IsPatient(read, s, a)
  {
    if a.Go? && CountsStartTLS(s, a.i) {
      assert s.desk.contexts[a.i] == FRESH;
      assert !IsAnswerable(s.ledger.callers, s.desk, s.ledger.callers[a.i].id);
    }
  }
}
