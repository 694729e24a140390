/** The asynchronous search: what its producer sends, and how that relates to `Search`. */
module SearchAsync {
  import opened Bytes
  import opened Search
  import opened SearchPaging

  /** One element of the result channel. */
  datatype Single = Single(entry: Option<Entry>, referral: Octets, controls: seq<Control>, error: Option<Error>)

  const NOTHING := Single(None, [], [], None)

  function ErrorOnly(e: Error): Single {
    NOTHING.(error := Some(e))
  }

  /** What one packet makes the producer do: a result to send, whether it returns afterwards, and
      whether the send gives up on cancellation. */
  datatype Turn = Turn(out: Option<Single>, last: bool, watched: bool)

  function Stop(e: Error): Turn {
    Turn(Some(ErrorOnly(e)), true, true)
  }

  function Go(s: Single): Turn {
    Turn(Some(s), false, true)
  }

  /** An entry without an attribute list, and an envelope with an empty control list, make the
      producer panic; it recovers by closing the channel. Only the first control is decoded. */
  function HandleEntry(dn: Octets, attributes: Attributes, controls: Option<seq<Decoded>>): Turn {
    match attributes
    case Missing => Turn(None, true, true)
    case Malformed => Turn(Some(ErrorOnly(BadAttributes)), true, false)
    case Listed(list) =>
      var s := NOTHING.(entry := Some(Entry(dn, list)));
      if controls.None? then Go(s)
      else if controls.value == [] then Turn(None, true, true)
      else if controls.value[0].Known? then Go(s.(controls := [controls.value[0].control]))
      else Turn(Some(s.(error := Some(BadControl))), true, true)
  }

  function HandleDone(code: nat, controls: Option<seq<Decoded>>): Turn {
    if code != 0 then Stop(ResultCode(code))
    else if controls.None? then Turn(None, true, true)
    else if AllKnown(controls.value) then Turn(Some(NOTHING.(controls := DecodedPrefix(controls.value))), true, true)
    else Stop(BadControl)
  }

  function Handle(i: Item): Turn {
    if i.Broken? then Stop(i.error)
    else
      match i.packet
      case EntryPacket(dn, attributes, controls) => HandleEntry(dn, attributes, controls)
      case DonePacket(code, controls) => HandleDone(code, controls)
      case ReferencePacket(uri) => Go(NOTHING.(referral := uri))
      case IntermediatePacket(decoded) =>
        if decoded.Known? then Go(NOTHING.(controls := [decoded.control])) else Stop(BadControl)
      case OtherPacket(tag) => Stop(UnknownTag(tag))
  }

  function NextTurn(items: seq<Item>): Turn {
    if items == [] then Stop(ChannelClosed) else Handle(items[0])
  }

  function Out(t: Turn): seq<Single> {
    if t.out.Some? then [t.out.value] else []
  }

  /** Everything an uncancelled producer sends. */
  function Produced(items: seq<Item>): seq<Single>
    decreases |items|
  {
    var t := NextTurn(items);
    if t.last || items == [] then Out(t) else Out(t) + Produced(items[1..])
  }

  /** How the search begins: the connection is closing, the request is refused, or replies come. */
  datatype Opening = AlreadyClosing | Unsendable(error: Error) | Opened(items: seq<Item>)

  function Sendings(o: Opening): seq<Single> {
    match o
    case AlreadyClosing => []
    case Unsendable(e) => [ErrorOnly(e)]
    case Opened(items) => Produced(items)
  }

  lemma ProducedUnfolds(items: seq<Item>, k: nat, t: Turn)
    requires k <= |items| && t == NextTurn(items[k..])
    ensures k == |items| ==> t.last
    ensures Produced(items[k..]) == Out(t) + if t.last then [] else Produced(items[k + 1..])
  {
    if k < |items| { assert items[k..][1..] == items[k + 1..]; }
  }

  /** The producer's loop. `cancels(k)` says that the k-th wait for a packet ends by cancellation,
      `drops(k)` that the send of the k-th result does. */
  method ProduceAll(items: seq<Item>, cancels: nat -> bool, drops: nat -> bool) returns (sent: seq<Single>, cut: bool)
    ensures sent <= Produced(items) && (!cut ==> sent == Produced(items))
    ensures cut ==> exists k: nat :: cancels(k) || drops(k)
  {
    sent, cut := [], false;
    assert items[0..] == items;
    var k := 0;
    while true
      invariant 0 <= k <= |items| && Produced(items) == sent + Produced(items[k..])
      decreases |items| - k
    {
      if cancels(k) { return sent, true; }
      var t := NextTurn(items[k..]);
      ProducedUnfolds(items, k, t);
      ghost var before := sent;
      if t.out.Some? {
        if t.watched && drops(k) { return sent, true; }
        sent := sent + [t.out.value];
      }
      if t.last { return; }
      assert sent == before + Out(t);
      ConcatAssoc(before, Out(t), Produced(items[k + 1..]));
      k := k + 1;
    }
  }

  /** The goroutine of `start`: it sends a prefix of what an uncancelled producer sends, and all of
      it unless it is cancelled. */
  method Start(o: Opening, cancels: nat -> bool, drops: nat -> bool) returns (sent: seq<Single>, cut: bool)
    ensures sent <= Sendings(o) && (!cut ==> sent == Sendings(o))
    ensures cut ==> exists k: nat :: cancels(k) || drops(k)
  {
    match o
    case AlreadyClosing => return [], false;
    case Unsendable(e) =>
      if drops(0) { return [], true; }
      return [ErrorOnly(e)], false;
    case Opened(items) => sent, cut := ProduceAll(items, cancels, drops);
  }

  /** At most one error is sent, and nothing follows it. */
  lemma {:induction false} ErrorIsLast(items: seq<Item>, k: nat)
    requires k < |Produced(items)| && Produced(items)[k].error.Some?
    ensures k == |Produced(items)| - 1
    decreases |items|
  {
    var t := NextTurn(items);
    if !t.last && items != [] { ErrorIsLast(items[1..], k - |Out(t)|); }
  }

  // ---------------------------------------------------------------- the consumer

  class SearchResponse {
    var ch: seq<Single>
    var closed: bool
    var entry: Option<Entry>
    var referral: Octets
    var controls: seq<Control>
    var err: Option<Error>

    constructor ()
      ensures ch == [] && !closed && entry == None && referral == [] && controls == [] && err == None
    {
      ch, closed, entry, referral, controls, err := [], false, None, [], [], None;
    }

    /** Where a receive on the result channel does not block. */
    method Next() returns (ok: bool)
      requires ch != [] || closed
      modifies this
      ensures closed == old(closed)
      ensures ok <==> old(ch) != [] && old(ch)[0].error.None?
      ensures ch == if old(ch) == [] then [] else old(ch)[1..]
      ensures if ok then Single(entry, referral, controls, err) == old(ch)[0]
              else entry == old(entry) && referral == old(referral) && controls == old(controls)
      ensures !ok ==> err == if old(ch) == [] then old(err) else old(ch)[0].error
    {
      if ch == [] { return false; }
      var res := ch[0];
      ch := ch[1..];
      err := res.error;
      if err.Some? { return false; }
      entry, referral, controls := res.entry, res.referral, res.controls;
      return true;
    }
  }

  function Part(s: Single): SearchResult {
    SearchResult(if s.entry.Some? then [s.entry.value] else [], if s.referral != [] then [s.referral] else [], s.controls)
  }

  function Prefixed(r: SearchResult, o: Outcome): Outcome {
    Outcome(Append(r, o.result), o.error)
  }

  /** The results before the first error, split by kind, and that error. */
  function Split(ss: seq<Single>): Outcome {
    if ss == [] then Outcome(EMPTY, None)
    else if ss[0].error.Some? then Outcome(EMPTY, ss[0].error)
    else Prefixed(Part(ss[0]), Split(ss[1..]))
  }

  lemma PrefixedAssoc(r: SearchResult, s: SearchResult, o: Outcome)
    ensures Prefixed(r, Prefixed(s, o)) == Prefixed(Append(r, s), o)
  {
    AppendAssoc(r, s, o.result);
  }

  /** A caller that loops on `Next` and then asks for the error. */
  method Consume(r: SearchResponse) returns (result: SearchResult, err: Option<Error>)
    requires r.closed && r.err == None
    modifies r
    ensures Outcome(result, err) == Split(old(r.ch))
  {
    result := EMPTY;
    var ok := true;
    while ok
      invariant r.closed && (ok ==> r.err == None)
      invariant Split(old(r.ch)) == if ok then Prefixed(result, Split(r.ch)) else Outcome(result, r.err)
      decreases ok, |r.ch|
    {
      ghost var before := r.ch;
      ok := r.Next();
      if ok {
        ghost var part := Part(before[0]);
        PrefixedAssoc(result, part, Split(r.ch));
        if r.entry.Some? { result := result.(entries := result.entries + [r.entry.value]); }
        if r.referral != [] { result := result.(referrals := result.referrals + [r.referral]); }
        result := result.(controls := result.controls + r.controls);
      }
    }
    err := r.err;
  }
}
