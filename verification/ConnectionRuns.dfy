/** The guarantees of the connection in every state of every run. */
module ConnectionRuns {
  import opened Connection
  import opened ConnectionSafety
  import Ledgers = ConnectionLedger
  import opened ConnectionChannels
  import opened ConnectionRouting
  import opened ConnectionReplies
  import Readers = ConnectionReaders

  predicate StopInv(d: Desk) {
    d.at.Stopped? ==> d.messageContexts == map[]
  }

  predicate Inv(s: State) {
    && QueueInv(s.mailbox, QuitTaken(s.desk.at))
    && IdInv(s.ledger, s.desk.at.Stopped?)
    && Ledgers.CountInv(s.ledger, s.mailbox.closing)
    && Ledgers.TlsInv(s.ledger)
    && Placed(s)
    && StopInv(s.desk)
    && RouteInv(s.ledger.callers, s.desk, s.timed)
    && OrderInv(s.mailbox.queue, s.desk.dispatched, s.wire.arrived)
    && KeptInv(s.ledger, s.mailbox.queue, s.desk)
  }

  lemma StopStep(s: State, a: Action)
    requires Enabled(s, a) && StopInv(s.desk)
    ensures StopInv(Apply(s, a).desk) && Apply(s, a).timed == s.timed
  {
  }

  lemma InvStep(s: State, a: Action)
    requires Inv(s) && Enabled(s, a)
    ensures Inv(Apply(s, a)) && Apply(s, a).timed == s.timed
  {
    QueueStep(s, a);
    IdStep(s, a);
    Ledgers.CountStep(s, a);
    Ledgers.TlsStep(s, a);
    PlaceStep(s, a);
    StopStep(s, a);
    RouteStep(s, a);
    OrderStep(s, a);
    KeptStep(s, a);
  }

  lemma InitIsValid(timed: bool)
    ensures Inv(Init(timed))
  {
    InitParts(Init(timed), timed);
  }

  lemma InitParts(s: State, timed: bool)
    requires s == Init(timed)
    ensures QueueInv(s.mailbox, QuitTaken(s.desk.at)) && IdInv(s.ledger, s.desk.at.Stopped?)
    ensures Ledgers.CountInv(s.ledger, s.mailbox.closing) && Ledgers.TlsInv(s.ledger) && Placed(s) && StopInv(s.desk)
    ensures RouteInv(s.ledger.callers, s.desk, s.timed) && KeptInv(s.ledger, s.mailbox.queue, s.desk)
    ensures OrderInv(s.mailbox.queue, s.desk.dispatched, s.wire.arrived)
  {
    assert s.ledger.callers == [] && s.desk.contexts == [] && s.mailbox.queue == [] && s.desk.messageContexts == map[];
  }

  lemma {:induction false} RunKeeps(states: seq<State>, actions: seq<Action>, timed: bool, k: nat)
    requires IsRun(states, actions, timed) && k < |states|
    ensures Inv(states[k]) && states[k].timed == timed
  {
    InitIsValid(timed);
    if k > 0 {
      RunKeeps(states, actions, timed, k - 1);
      InvStep(states[k - 1], actions[k - 1]);
    }
  }

  /** Some run ends in this state. */
  ghost predicate Reachable(s: State) {
    exists states: seq<State>, actions: seq<Action> :: IsRun(states, actions, s.timed) && states[|actions|] == s
  }

  lemma InitIsReachable(timed: bool)
    ensures Reachable(Init(timed))
  {
    assert IsRun([Init(timed)], [], timed);
  }

  lemma StepIsReachable(s: State, a: Action)
    requires Reachable(s) && Enabled(s, a)
    ensures Reachable(Apply(s, a))
  {
    var states: seq<State>, actions: seq<Action> :| IsRun(states, actions, s.timed) && states[|actions|] == s;
    assert IsRun(states + [Apply(s, a)], actions + [a], s.timed);
  }

  lemma ReachableKeeps(s: State)
    requires Reachable(s)
    ensures Inv(s)
  {
    var states: seq<State>, actions: seq<Action> :| IsRun(states, actions, s.timed) && states[|actions|] == s;
    RunKeeps(states, actions, s.timed, |actions|);
  }

  // ---------------------------------------------------------------- no panic

  /** No run sends on or closes a closed channel, dequeues the nil of a closed queue, or makes the
      counter underflow, even when `Close` stops waiting for the confirmation. */
  lemma NeverFaults(states: seq<State>, actions: seq<Action>, timed: bool, k: nat)
    requires IsRun(states, actions, timed) && k < |states|
    ensures !Faulty(states[k])
  {
    RunKeeps(states, actions, timed, k);
  }

  // ---------------------------------------------------------------- shutdown

  /** Accepted requests precede the single Quit in the queue. */
  lemma RequestsPrecedeQuit(states: seq<State>, actions: seq<Action>, timed: bool, k: nat, n: nat, m: nat)
    requires IsRun(states, actions, timed) && k < |states|
    requires n < |states[k].mailbox.queue| && states[k].mailbox.queue[n].Quit?
    requires m < |states[k].mailbox.queue| && m != n
    ensures m < n && !states[k].mailbox.queue[m].Quit?
  {
    RunKeeps(states, actions, timed, k);
  }

  /** When `processMessages` has returned, nothing is queued or registered and every accepted
      request's responses channel is closed. */
  lemma ShutdownReleases(states: seq<State>, actions: seq<Action>, timed: bool, k: nat)
    requires IsRun(states, actions, timed) && k < |states| && states[k].desk.at.Stopped?
    ensures states[k].mailbox.queue == [] && states[k].desk.messageContexts == map[]
    ensures |states[k].desk.contexts| == |states[k].ledger.callers|
    ensures forall i :: 0 <= i < |states[k].ledger.callers| && IsAccepted(states[k].ledger.callers[i].phase) ==>
              !states[k].desk.contexts[i].open
  {
    RunKeeps(states, actions, timed, k);
  }

  /** The responses channel is closed after these replies. */
  predicate IsClosed(d: Desk, i: nat, replies: seq<Reply>) {
    i < |d.contexts| && !d.contexts[i].open && d.contexts[i].replies == replies
  }

  lemma ProcessKeepsClosed(d: Desk, x: Message, writeOk: bool, arm: bool, i: nat, rs: seq<Reply>)
    requires IsClosed(d, i, rs)
    ensures IsClosed(ProcessStep(d, x, writeOk, arm), i, rs)
  {
  }

  lemma ReplyKeepsClosed(d: Desk, taken: bool, i: nat, rs: seq<Reply>)
    requires IsClosed(d, i, rs) && d.at.Delivering? && IsOpen(d, d.at.req)
    ensures IsClosed(Conclude(Deliver(d, taken)), i, rs)
  {
  }

  lemma StepKeepsClosed(s: State, a: Action, i: nat, rs: seq<Reply>)
    requires Enabled(s, a) && Placed(s) && IsClosed(s.desk, i, rs)
    ensures IsClosed(Apply(s, a).desk, i, rs)
  {
    match a
    case Dequeue(writeOk, arm) =>
      if s.mailbox.queue != [] { ProcessKeepsClosed(s.desk, s.mailbox.queue[0], writeOk, arm, i, rs); }
    case Reply(taken) => ReplyKeepsClosed(s.desk, taken, i, rs);
    case _ =>
  }

  /** A closed responses channel stays closed, and nothing is received from it any more. */
  lemma {:induction false} ClosedIsFinal(
    states: seq<State>, actions: seq<Action>, timed: bool, k: nat, n: nat, i: nat, replies: seq<Reply>)
    requires IsRun(states, actions, timed) && k <= n < |states| && IsClosed(states[k].desk, i, replies)
    ensures IsClosed(states[n].desk, i, replies)
  {
    if k < n {
      ClosedIsFinal(states, actions, timed, k, n - 1, i, replies);
      RunIsPlaced(states, actions, timed, n - 1);
      StepKeepsClosed(states[n - 1], actions[n - 1], i, replies);
    }
  }

  lemma RunIsPlaced(states: seq<State>, actions: seq<Action>, timed: bool, k: nat)
    requires IsRun(states, actions, timed) && k < |states|
    ensures Placed(states[k])
  {
    RunKeeps(states, actions, timed, k);
  }

  // ---------------------------------------------------------------- ids and registration

  /** Accepted requests have distinct ids of at least 1. */
  lemma AcceptedIdsAreDistinct(states: seq<State>, actions: seq<Action>, timed: bool, k: nat, i: nat, j: nat)
    requires IsRun(states, actions, timed) && k < |states|
    requires i < |states[k].ledger.callers| && IsAccepted(states[k].ledger.callers[i].phase)
    requires j < |states[k].ledger.callers| && IsAccepted(states[k].ledger.callers[j].phase)
    ensures states[k].ledger.callers[i].id >= 1
    ensures states[k].ledger.callers[i].id == states[k].ledger.callers[j].id ==> i == j
  {
    RunKeeps(states, actions, timed, k);
  }

  /** A context is registered, under its own id, only while its channel is open. */
  lemma RegisteredIsOpen(states: seq<State>, actions: seq<Action>, timed: bool, k: nat, id: int)
    requires IsRun(states, actions, timed) && k < |states| && id in states[k].desk.messageContexts
    ensures var i := states[k].desk.messageContexts[id];
      && IsOpen(states[k].desk, i) && i < |states[k].ledger.callers| && states[k].ledger.callers[i].id == id
      && IsAccepted(states[k].ledger.callers[i].phase)
  {
    RunKeeps(states, actions, timed, k);
  }

  // ---------------------------------------------------------------- routing

  function Received(s: State, i: nat): seq<Packet> {
    Packets(At(s.desk, i).replies)
  }

  /** The packets with this request's id that were dispatched after it was written. */
  function DueTo(s: State, i: nat): seq<Packet>
    requires i < |s.ledger.callers|
  {
    Due(s.desk.dispatched, Since(s.desk, i), s.ledger.callers[i].id)
  }

  lemma {:induction false} WithIdOnly(ps: seq<Packet>, id: int, n: nat)
    requires n < |WithId(ps, id)|
    ensures WithId(ps, id)[n].id == id
  {
    var m := |ps| - 1;
    if n < |WithId(ps[..m], id)| { WithIdOnly(ps[..m], id, n); }
  }

  lemma {:induction false} SubsequenceElements(a: seq<Packet>, b: seq<Packet>, n: nat)
    requires IsSubsequence(a, b) && n < |a|
    ensures a[n] in b
  {
    var m := |b| - 1;
    if IsSubsequence(a, b[..m]) {
      SubsequenceElements(a, b[..m], n);
    } else if n < |a| - 1 {
      SubsequenceElements(a[..|a| - 1], b[..m], n);
    }
  }

  /** A handler receives a subsequence of the packets due to it; without a request timeout a prefix,
      and all of them, up to the one being delivered, until it is done or its context is dropped. */
  lemma Routing(states: seq<State>, actions: seq<Action>, timed: bool, k: nat, i: nat)
    requires IsRun(states, actions, timed) && k < |states|
    requires i < |states[k].ledger.callers| && At(states[k].desk, i).written
    ensures var s := states[k];
      && (timed ==> IsSubsequence(Received(s, i) + InFlight(s.desk.at, i), DueTo(s, i)))
      && (!timed ==> Received(s, i) <= DueTo(s, i))
      && (!timed && !IsDone(s.ledger.callers[i].phase) && Registered(s.desk, s.ledger.callers[i].id, i) ==>
            Received(s, i) + InFlight(s.desk.at, i) == DueTo(s, i))
  {
    RunKeeps(states, actions, timed, k);
  }

  /** A handler receives only packets that carry its own request's id. */
  lemma OwnPacketsOnly(states: seq<State>, actions: seq<Action>, timed: bool, k: nat, i: nat, n: nat)
    requires IsRun(states, actions, timed) && k < |states|
    requires i < |states[k].ledger.callers| && n < |Received(states[k], i)|
    ensures Received(states[k], i)[n].id == states[k].ledger.callers[i].id
  {
    var s := states[k];
    RunKeeps(states, actions, timed, k);
    var got, due := Received(s, i), DueTo(s, i);
    if timed {
      SubsequenceElements(got + InFlight(s.desk.at, i), due, n);
      var m :| 0 <= m < |due| && due[m] == got[n];
      WithIdOnly(s.desk.dispatched[Since(s.desk, i)..], s.ledger.callers[i].id, m);
    } else {
      WithIdOnly(s.desk.dispatched[Since(s.desk, i)..], s.ledger.callers[i].id, n);
    }
  }

  /** Packets are dispatched in the order in which the readers put them into the queue. */
  lemma DispatchedInOrder(states: seq<State>, actions: seq<Action>, timed: bool, k: nat)
    requires IsRun(states, actions, timed) && k < |states|
    ensures states[k].wire.arrived == states[k].desk.dispatched + Responses(states[k].mailbox.queue)
  {
    RunKeeps(states, actions, timed, k);
  }

  /** A reply is reported as unexpected only when no request with its id was written, or that
      request is done or has timed out. */
  lemma UnexpectedIsLate(states: seq<State>, actions: seq<Action>, timed: bool, k: nat, p: Packet, i: nat)
    requires IsRun(states, actions, timed) && k < |states| && states[k].desk.at.Looping?
    requires states[k].mailbox.queue != [] && states[k].mailbox.queue[0] == Response(p)
    requires p.id !in states[k].desk.messageContexts
    requires i < |states[k].ledger.callers| && states[k].ledger.callers[i].id == p.id && At(states[k].desk, i).written
    ensures IsDone(states[k].ledger.callers[i].phase) || At(states[k].desk, i).timedOut
  {
    RunKeeps(states, actions, timed, k);
  }

  // ---------------------------------------------------------------- the counter and StartTLS

  /** The counter is the number of requests counted and not discounted. While the connection is not
      closing, those are exactly the requests between their two sections. */
  lemma OutstandingIsConserved(states: seq<State>, actions: seq<Action>, timed: bool, k: nat)
    requires IsRun(states, actions, timed) && k < |states|
    ensures states[k].ledger.outstanding == Ledgers.Charged(states[k].ledger.callers)
    ensures !states[k].mailbox.closing ==>
      forall i :: 0 <= i < |states[k].ledger.callers| ==>
        !states[k].ledger.callers[i].phase.Unsent? && !states[k].ledger.callers[i].phase.Skipped?
  {
    RunKeeps(states, actions, timed, k);
  }

  /** While the StartTLS flag is set, one request is outstanding and it is a StartTLS request; no
      other caller is between its two sections. */
  lemma StartTLSIsExclusive(states: seq<State>, actions: seq<Action>, timed: bool, k: nat) returns (t: nat)
    requires IsRun(states, actions, timed) && k < |states| && states[k].ledger.startingTLS
    ensures states[k].ledger.outstanding == 1
    ensures t < |states[k].ledger.callers| && states[k].ledger.callers[t].startTLS
    ensures forall i :: 0 <= i < |states[k].ledger.callers| ==>
              (IsCharged(states[k].ledger.callers[i].phase) <==> i == t)
  {
    RunKeeps(states, actions, timed, k);
    var s := states[k];
    t :| t < |s.ledger.callers| && Ledgers.IsStartingTLS(s.ledger.callers[t]);
    forall i | 0 <= i < |s.ledger.callers| && IsCharged(s.ledger.callers[i].phase) ensures i == t {
      Ledgers.OnlyOneCharged(s.ledger, s.mailbox.closing, i, t);
    }
  }

  /** Only the finish section of the StartTLS request itself clears the flag. */
  lemma OnlyOwnerClearsFlag(states: seq<State>, actions: seq<Action>, timed: bool, k: nat)
    requires IsRun(states, actions, timed) && k + 1 < |states|
    requires states[k].ledger.startingTLS && !states[k + 1].ledger.startingTLS
    ensures actions[k].Go? && InPhase(states[k].ledger, actions[k].i, FinishChecked)
    ensures states[k].ledger.callers[actions[k].i].startTLS
  {
    RunKeeps(states, actions, timed, k);
    var s, a := states[k], actions[k];
    var t :| 0 <= t < |s.ledger.callers| && Ledgers.IsStartingTLS(s.ledger.callers[t]);
    assert states[k + 1] == Apply(s, a);
    if a.Go? { if IsCharged(s.ledger.callers[a.i].phase) { Ledgers.OnlyOneCharged(s.ledger, s.mailbox.closing, a.i, t); } }
  }

  // ---------------------------------------------------------------- readers

  function IdsRead(actions: seq<Action>): set<int> {
    if actions == [] then {}
    else IdsRead(actions[..|actions| - 1]) + Readers.ReadIds(actions[|actions| - 1])
  }

  lemma IdsReadNext(actions: seq<Action>, k: nat)
    requires k < |actions|
    ensures IdsRead(actions[..k + 1]) == IdsRead(actions[..k]) + Readers.ReadIds(actions[k])
  {
    assert actions[..k + 1][..k] == actions[..k];
  }

  /** No packet with the id of a StartTLS request is read before the request is counted. */
  ghost predicate IsPatientRun(states: seq<State>, actions: seq<Action>, timed: bool) {
    && IsRun(states, actions, timed)
    && forall k :: 0 <= k < |actions| ==> Readers.IsPatient(IdsRead(actions[..k]), states[k], actions[k])
  }

  lemma PatientStep(read: set<int>, s: State, a: Action)
    requires Inv(s) && Enabled(s, a) && Readers.IsPatient(read, s, a) && Readers.Watched(read, s)
    ensures Readers.Watched(read + Readers.ReadIds(a), Apply(s, a))
  {
    Readers.ReadersStep(read, s, a);
  }

  lemma InitIsWatched(timed: bool)
    ensures Readers.Watched({}, Init(timed))
  {
  }

  lemma {:induction false} PatientRunKeeps(states: seq<State>, actions: seq<Action>, timed: bool, k: nat)
    requires IsPatientRun(states, actions, timed) && k < |states|
    ensures Readers.Watched(IdsRead(actions[..k]), states[k])
  {
    if k == 0 {
      InitIsWatched(timed);
    } else {
      PatientRunKeeps(states, actions, timed, k - 1);
      RunKeeps(states, actions, timed, k - 1);
      IdsReadNext(actions, k - 1);
      PatientStep(IdsRead(actions[..k - 1]), states[k - 1], actions[k - 1]);
    }
  }

  /** At most one reader consumes the connection, and none does when a StartTLS call has taken its
      reply and is about to start its own. */
  lemma OneReader(states: seq<State>, actions: seq<Action>, timed: bool, k: nat)
    requires IsPatientRun(states, actions, timed) && k < |states|
    ensures Readers.AtMostOne(states[k].wire.readers)
    ensures forall i :: 0 <= i && IsAnswered(states[k], i) ==> Readers.IsQuiet(states[k].wire.readers)
  {
    PatientRunKeeps(states, actions, timed, k);
    forall i | 0 <= i && IsAnswered(states[k], i) ensures Readers.IsQuiet(states[k].wire.readers) {
      Readers.AnsweredIsQuiet(IdsRead(actions[..k]), states[k], i);
    }
  }

  /** The server never answers a request before it was written. */
  ghost predicate IsHonestRun(states: seq<State>, actions: seq<Action>, timed: bool) {
    && IsRun(states, actions, timed)
    && forall k :: 0 <= k < |actions| ==> Readers.IsHonest(states[k], actions[k])
  }

  lemma {:induction false} HonestRunKeeps(states: seq<State>, actions: seq<Action>, timed: bool, k: nat)
    requires IsHonestRun(states, actions, timed) && k < |states|
    ensures Readers.AreAnswerable(IdsRead(actions[..k]), states[k])
  {
    if k > 0 {
      HonestRunKeeps(states, actions, timed, k - 1);
      IdsReadNext(actions, k - 1);
      Readers.HonestStep(IdsRead(actions[..k - 1]), states[k - 1], actions[k - 1]);
    }
  }

  /** In particular this holds against every server that answers only written requests. */
  lemma HonestRunIsPatient(states: seq<State>, actions: seq<Action>, timed: bool)
    requires IsHonestRun(states, actions, timed)
    ensures IsPatientRun(states, actions, timed)
  {
    forall k | 0 <= k < |actions| ensures Readers.IsPatient(IdsRead(actions[..k]), states[k], actions[k]) {
      HonestRunKeeps(states, actions, timed, k);
      RunKeeps(states, actions, timed, k);
      Readers.HonestIsPatient(IdsRead(actions[..k]), states[k], actions[k]);
    }
  }

  lemma Then(states: seq<State>, actions: seq<Action>, a: Action) returns (nextStates: seq<State>, nextActions: seq<Action>)
    requires IsRun(states, actions, false) && Enabled(states[|actions|], a)
    ensures IsRun(nextStates, nextActions, false) && nextStates[|nextActions|] == Apply(states[|actions|], a)
  {
    nextStates, nextActions := states + [Apply(states[|actions|], a)], actions + [a];
  }

  /** The server has sent a packet with id 1 before any request, and its reader has passed the flag. */
  function Passed(): State {
    Init(false).(wire := Wire([Reader(Forwarding(Packet(1, 0)), false)], false, []))
  }

  /** Then the first request is a StartTLS request, and the packet enters the queue behind it. */
  function Overtaken(): State {
    State(Mailbox([Request(1, 0), Response(Packet(1, 0))], false, false, Idle, false),
          Ledger([Caller(1, true, Accepted, false)], 1, true, 2, false),
          Desk(Looping, map[], [FRESH], [], map[], false), Wire([Reader(Reading, false)], false, [Packet(1, 0)]), false)
  }

  lemma PassedIsReachable() returns (states: seq<State>, actions: seq<Action>)
    ensures IsRun(states, actions, false) && states[|actions|] == Passed()
  {
    states, actions := [Init(false)], [];
    states, actions := Then(states, actions, Listen(Read(0, Packet(1, 0))));
    states, actions := Then(states, actions, Listen(CheckTLS(0)));
  }

  lemma CountedIsReachable() returns (states: seq<State>, actions: seq<Action>)
    ensures IsRun(states, actions, false)
    ensures states[|actions|] == Passed().(
      ledger := Ledger([Caller(1, true, Counted, false)], 1, true, 2, false),
      desk := Desk(Looping, map[], [FRESH], [], map[], false))
  {
    states, actions := PassedIsReachable();
    states, actions := Then(states, actions, Begin(true));
    states, actions := Then(states, actions, Go(0));
    states, actions := Then(states, actions, Go(0));
  }

  lemma OvertakenIsReachable() returns (states: seq<State>, actions: seq<Action>)
    ensures IsRun(states, actions, false) && states[|actions|] == Overtaken()
  {
    states, actions := CountedIsReachable();
    states, actions := Then(states, actions, Go(0));
    states, actions := Then(states, actions, Listen(Forward(0)));
  }

  /** Against a server that answers before it is asked, two readers can consume the connection. */
  lemma EagerServer() returns (states: seq<State>, actions: seq<Action>)
    ensures IsRun(states, actions, false) && !Readers.AtMostOne(states[|actions|].wire.readers)
  {
    states, actions := OvertakenIsReachable();
    states, actions := Then(states, actions, Dequeue(true, false));
    states, actions := Then(states, actions, Dequeue(true, false));
    states, actions := Then(states, actions, Reply(true));
    states, actions := Then(states, actions, Spawn(0));
    var rs := states[|actions|].wire.readers;
    assert !Readers.IsCommitted(rs[0]) && !Readers.IsCommitted(rs[1]);
  }
}
