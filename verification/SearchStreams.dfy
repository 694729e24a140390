/** Asynchronous search against synchronous search, for every reply stream and every schedule of
    producer, consumer and cancellation. */
module SearchStreams {
  import opened Bytes
  import opened Search
  import opened SearchPaging
  import opened SearchAsync

  // ---------------------------------------------------------------- one stream, two searches

  lemma CollectUnfolds(items: seq<Item>)
    requires items != []
    ensures Collect(items, 0)
         == match Take(items[0], 0, EMPTY)
            case Ended(o) => o
            case Running(r) => Prefixed(r, Collect(items[1..], 0))
  {
    var p := Take(items[0], 0, EMPTY);
    if p.Running? {
      AbsorbShift(items[1..], p.result, EMPTY);
      assert Append(p.result, EMPTY) == p.result;
    }
  }

  /** What the asynchronous search comes to when it is not cancelled. */
  function Async(items: seq<Item>): Outcome {
    Split(Produced(items))
  }

  lemma AsyncUnfolds(items: seq<Item>)
    requires items != []
    ensures var t := Handle(items[0]);
      && (t.last ==> Async(items) == Split(Out(t)))
      && (!t.last ==> t.out.Some? && t.out.value.error.None?)
      && (!t.last ==> Async(items) == Prefixed(Part(t.out.value), Async(items[1..])))
  {
    var t := Handle(items[0]);
    if !t.last {
      assert Produced(items) == [t.out.value] + Produced(items[1..]);
      assert ([t.out.value] + Produced(items[1..]))[1..] == Produced(items[1..]);
    }
  }

  /** Packets that both searches treat alike: an entry has an attribute list and no controls, a
      reference is not empty, and there is no intermediate response or unknown operation. */
  predicate IsPlain(i: Item) {
    i.Broken? ||
    match i.packet
    case EntryPacket(_, attributes, controls) => attributes.Malformed? || (attributes.Listed? && controls.None?)
    case DonePacket(_, _) => true
    case ReferencePacket(uri) => uri != []
    case IntermediatePacket(_) => false
    case OtherPacket(_) => false
  }

  /** Up to the item at which the search ends. */
  predicate ArePlain(items: seq<Item>) {
    items == [] || (IsPlain(items[0]) && (Handle(items[0]).last || ArePlain(items[1..])))
  }

  lemma PlainEnds(i: Item)
    requires IsPlain(i)
    ensures Handle(i).last <==> Take(i, 0, EMPTY).Ended?
    ensures !Handle(i).last ==> Part(Handle(i).out.value) == Take(i, 0, EMPTY).result
    ensures Handle(i).last ==>
      var o := Take(i, 0, EMPTY).outcome;
      Split(Out(Handle(i))) == if o.error == Some(BadControl) && i.Got? then Outcome(EMPTY, o.error) else o
  {
  }

  /** On a stream of plain packets the two searches return the same entries, referrals and error,
      and the same controls unless one of them cannot be decoded. */
  lemma {:induction false} PlainStreamsAgree(items: seq<Item>)
    requires ArePlain(items)
    ensures Agree(Async(items), Collect(items, 0))
    ensures Collect(items, 0).error != Some(BadControl) ==> Async(items) == Collect(items, 0)
  {
    if items != [] {
      CollectUnfolds(items);
      AsyncUnfolds(items);
      PlainEnds(items[0]);
      if !Handle(items[0]).last { PlainStreamsAgree(items[1..]); }
    }
  }

  // ---------------------------------------------------------------- exactly those streams

  /** The asynchronous search never has more entries or referrals; with as many entries and no
      error, it has all the controls. */
  predicate IsBehind(a: Outcome, c: Outcome) {
    && |a.result.entries| <= |c.result.entries|
    && |a.result.referrals| <= |c.result.referrals|
    && (a.error.None? && |a.result.entries| == |c.result.entries| ==> |a.result.controls| >= |c.result.controls|)
  }

  predicate IsStrictlyBehind(a: Outcome, c: Outcome) {
    || |a.result.entries| < |c.result.entries|
    || |a.result.referrals| < |c.result.referrals|
    || a.error.Some?
    || |a.result.controls| > |c.result.controls|
  }

  lemma ItemIsBehind(i: Item)
    requires Take(i, 0, EMPTY).Running?
    ensures var t, r := Handle(i), Take(i, 0, EMPTY).result;
      if t.last then
        && Split(Out(t)).result == EMPTY && (Split(Out(t)).error.None? ==> |r.entries| > 0)
      else
        && |Part(t.out.value).entries| == |r.entries| && |Part(t.out.value).referrals| <= |r.referrals| && r.controls == []
  {
  }

  lemma FinalIsBehind(i: Item)
    requires Take(i, 0, EMPTY).Ended? && Take(i, 0, EMPTY).outcome.error.None?
    ensures Handle(i).last && Split(Out(Handle(i))) == Take(i, 0, EMPTY).outcome
  {
  }

  lemma {:induction false} AsyncIsBehind(items: seq<Item>)
    requires Collect(items, 0).error.None?
    ensures IsBehind(Async(items), Collect(items, 0))
  {
    CollectUnfolds(items);
    AsyncUnfolds(items);
    if Take(items[0], 0, EMPTY).Running? {
      ItemIsBehind(items[0]);
      if !Handle(items[0]).last { AsyncIsBehind(items[1..]); }
    } else {
      FinalIsBehind(items[0]);
    }
  }

  /** What an item that is not plain adds to each search. */
  lemma UnplainItem(i: Item)
    requires !IsPlain(i)
    ensures Take(i, 0, EMPTY).Running?
    ensures var t, r := Handle(i), Take(i, 0, EMPTY).result;
      if t.last then
        && Split(Out(t)).result == EMPTY && (Split(Out(t)).error.Some? || |r.entries| > 0)
      else
        && |Part(t.out.value).entries| == |r.entries| && |Part(t.out.value).referrals| <= |r.referrals| && r.controls == []
        && (|Part(t.out.value).controls| > 0 || |Part(t.out.value).referrals| < |r.referrals|)
  {
  }

  lemma UnplainIsBehind(items: seq<Item>)
    requires Collect(items, 0).error.None? && items != [] && !IsPlain(items[0])
    ensures IsStrictlyBehind(Async(items), Collect(items, 0))
  {
    CollectUnfolds(items);
    AsyncUnfolds(items);
    UnplainItem(items[0]);
    if !Handle(items[0]).last { AsyncIsBehind(items[1..]); }
  }

  lemma {:induction false} UnplainStreamsDiffer(items: seq<Item>)
    requires Collect(items, 0).error.None? && !ArePlain(items)
    ensures IsStrictlyBehind(Async(items), Collect(items, 0))
  {
    if !IsPlain(items[0]) {
      UnplainIsBehind(items);
    } else {
      CollectUnfolds(items);
      AsyncUnfolds(items);
      PlainEnds(items[0]);
      UnplainStreamsDiffer(items[1..]);
    }
  }

  /** When the synchronous search succeeds, the asynchronous one returns the same entries, referrals
      and controls exactly on the streams of plain packets. */
  lemma AsyncRefinesSync(items: seq<Item>)
    requires Collect(items, 0).error.None?
    ensures Async(items) == Collect(items, 0) <==> ArePlain(items)
  {
    if ArePlain(items) { PlainStreamsAgree(items); } else { UnplainStreamsDiffer(items); }
  }

  /** An intermediate response before the end: only the asynchronous search returns its control. */
  lemma IntermediateDiffers(c: Control)
    ensures var items := [Got(IntermediatePacket(Known(c))), Got(DonePacket(0, None))];
      Collect(items, 0) == Outcome(EMPTY, None) && Async(items) == Outcome(EMPTY.(controls := [c]), None)
  {
    var items := [Got(IntermediatePacket(Known(c))), Got(DonePacket(0, None))];
    var done := [Got(DonePacket(0, None))];
    assert items[1..] == done;
    assert Absorb(done, 0, EMPTY) == Ended(Outcome(EMPTY, None));
    assert Produced(done) == [];
    AsyncUnfolds(items);
  }

  /** An entry without an attribute list: only the synchronous search returns it. */
  lemma BareEntryDiffers(dn: Octets)
    ensures var items := [Got(EntryPacket(dn, Missing, None)), Got(DonePacket(0, None))];
      Collect(items, 0) == Outcome(EMPTY.(entries := [Entry(dn, [])]), None) && Async(items) == Outcome(EMPTY, None)
  {
    var items := [Got(EntryPacket(dn, Missing, None)), Got(DonePacket(0, None))];
    var one := EMPTY.(entries := [Entry(dn, [])]);
    assert items[1..] == [Got(DonePacket(0, None))];
    assert Take(items[0], 0, EMPTY) == Running(one);
    assert Take(items[1], 0, one) == Ended(Outcome(one, None));
    assert Absorb(items[1..], 0, one) == Ended(Outcome(one, None));
    AsyncUnfolds(items);
  }

  // ---------------------------------------------------------------- every schedule

  /** The producer between its steps, the result channel, and what the consumer has received.
      `cut` says that the producer returned because of the cancellation. */
  datatype Stream = Stream(
    todo: seq<Item>, holding: Option<Turn>, over: bool, cut: bool, cancelled: bool,
    ch: seq<Single>, closed: bool, received: seq<Single>)

  datatype Event = Cancel | LeaveWait | TakePacket | Put | LeaveSend | CloseChannel | Receive

  function Begin(o: Opening): Stream {
    match o
    case AlreadyClosing => Stream([], None, true, false, false, [], false, [])
    case Unsendable(e) => Stream([], Some(Stop(e)), false, false, false, [], false, [])
    case Opened(items) => Stream(items, None, false, false, false, [], false, [])
  }

  /** An unbuffered channel holds at most the result being handed over. */
  predicate HasRoom(s: Stream, capacity: nat) {
    |s.ch| < capacity || s.ch == []
  }

  predicate Enabled(s: Stream, e: Event, capacity: nat) {
    match e
    case Cancel => true
    case LeaveWait => s.cancelled && !s.over && s.holding.None?
    case TakePacket => !s.over && s.holding.None?
    case Put => !s.over && s.holding.Some? && s.holding.value.out.Some? && HasRoom(s, capacity)
    case LeaveSend => s.cancelled && !s.over && s.holding.Some? && s.holding.value.watched
    case CloseChannel => s.over && !s.closed
    case Receive => s.ch != []
  }

  function Step(s: Stream, e: Event, capacity: nat): Stream
    requires Enabled(s, e, capacity)
  {
    match e
    case Cancel => s.(cancelled := true)
    case LeaveWait => s.(over := true, cut := true)
    case TakePacket =>
      var t := NextTurn(s.todo);
      if t.out.None? then s.(over := true)
      else s.(holding := Some(t), todo := if s.todo == [] then [] else s.todo[1..])
    case Put => s.(ch := s.ch + [s.holding.value.out.value], holding := None, over := s.holding.value.last)
    case LeaveSend => s.(over := true, cut := true)
    case CloseChannel => s.(closed := true)
    case Receive => s.(ch := s.ch[1..], received := s.received + [s.ch[0]])
  }

  /** What the producer would still send. */
  function Ahead(s: Stream): seq<Single> {
    if s.over then []
    else if s.holding.None? then Produced(s.todo)
    else Out(s.holding.value) + if s.holding.value.last then [] else Produced(s.todo)
  }

  predicate StreamInv(s: Stream, all: seq<Single>) {
    && s.received + s.ch <= all
    && (!s.cut ==> s.received + s.ch + Ahead(s) == all)
    && (s.cut ==> s.cancelled && s.over)
    && (s.closed ==> s.over)
    && (s.holding.Some? ==> s.holding.value.out.Some?)
  }

  lemma TurnUnfolds(items: seq<Item>)
    ensures var t := NextTurn(items);
      && (t.out.None? ==> t.last)
      && Produced(items) == Out(t) + if t.last then [] else Produced(items[1..])
  {
  }

  lemma TakeKeeps(s: Stream, capacity: nat, all: seq<Single>)
    requires StreamInv(s, all) && Enabled(s, TakePacket, capacity)
    ensures StreamInv(Step(s, TakePacket, capacity), all)
  {
    TurnUnfolds(s.todo);
  }

  lemma PutKeeps(s: Stream, capacity: nat, all: seq<Single>)
    requires StreamInv(s, all) && Enabled(s, Put, capacity)
    ensures StreamInv(Step(s, Put, capacity), all)
  {
    var t := Step(s, Put, capacity);
    assert Out(s.holding.value) == [s.holding.value.out.value];
    ConcatAssoc(s.received + s.ch, Out(s.holding.value), Ahead(t));
    ConcatAssoc(s.received, s.ch, Out(s.holding.value));
  }

  lemma ReceiveKeeps(s: Stream, capacity: nat, all: seq<Single>)
    requires StreamInv(s, all) && s.ch != []
    ensures StreamInv(Step(s, Receive, capacity), all)
  {
    assert (s.received + [s.ch[0]]) + s.ch[1..] == s.received + s.ch;
  }

  lemma StreamStep(s: Stream, e: Event, capacity: nat, all: seq<Single>)
    requires StreamInv(s, all) && Enabled(s, e, capacity)
    ensures StreamInv(Step(s, e, capacity), all)
  {
    match e
    case TakePacket => TakeKeeps(s, capacity, all);
    case Put => PutKeeps(s, capacity, all);
    case Receive => ReceiveKeeps(s, capacity, all);
    case _ =>
  }

  ghost predicate IsSchedule(streams: seq<Stream>, events: seq<Event>, capacity: nat, o: Opening) {
    && |streams| == |events| + 1 && streams[0] == Begin(o)
    && forall k :: 0 <= k < |events| ==>
         Enabled(streams[k], events[k], capacity) && streams[k + 1] == Step(streams[k], events[k], capacity)
  }

  lemma {:induction false} ScheduleKeeps(streams: seq<Stream>, events: seq<Event>, capacity: nat, o: Opening, k: nat)
    requires IsSchedule(streams, events, capacity, o) && k < |streams|
    ensures StreamInv(streams[k], Sendings(o))
  {
    if k > 0 {
      ScheduleKeeps(streams, events, capacity, o, k - 1);
      StreamStep(streams[k - 1], events[k - 1], capacity, Sendings(o));
    }
  }

  /** Under every schedule and buffer size, what was sent is a prefix of what the reply stream
      determines; it is all of that once the channel is closed, unless the search was cancelled. */
  lemma ScheduleIsIrrelevant(streams: seq<Stream>, events: seq<Event>, capacity: nat, o: Opening, k: nat)
    requires IsSchedule(streams, events, capacity, o) && k < |streams|
    ensures streams[k].received + streams[k].ch <= Sendings(o)
    ensures streams[k].closed && !streams[k].cancelled ==> streams[k].received + streams[k].ch == Sendings(o)
  {
    ScheduleKeeps(streams, events, capacity, o, k);
    var s := streams[k];
    assert (s.received + s.ch) + [] == s.received + s.ch;
  }

  /** In every run at most one error result is sent, and it is the last one. */
  lemma OneErrorAtMost(streams: seq<Stream>, events: seq<Event>, capacity: nat, o: Opening, k: nat, n: nat)
    requires IsSchedule(streams, events, capacity, o) && k < |streams|
    requires n < |streams[k].received + streams[k].ch| && (streams[k].received + streams[k].ch)[n].error.Some?
    ensures n == |streams[k].received + streams[k].ch| - 1
  {
    ScheduleIsIrrelevant(streams, events, capacity, o, k);
    assert Sendings(o)[n] == (streams[k].received + streams[k].ch)[n];
    if o.Opened? { ErrorIsLast(o.items, n); }
  }

  /** Under every schedule without a cancellation, what a consumer reads to the end is what the
      synchronous search returns, exactly on the streams of plain packets. */
  lemma EveryScheduleRefinesSync(streams: seq<Stream>, events: seq<Event>, capacity: nat, items: seq<Item>, k: nat)
    requires IsSchedule(streams, events, capacity, Opened(items)) && k < |streams|
    requires streams[k].closed && !streams[k].cancelled && Collect(items, 0).error.None?
    ensures Split(streams[k].received + streams[k].ch) == Collect(items, 0) <==> ArePlain(items)
  {
    ScheduleIsIrrelevant(streams, events, capacity, Opened(items), k);
    AsyncRefinesSync(items);
  }
}
