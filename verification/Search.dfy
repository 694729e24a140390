/** Assembling search results from the packets of one search, and paging through several searches. */
module Search {
  import opened Bytes

  /** A paging control, a control of the paging type that is not one, or any other control. */
  datatype Control = Paging(size: nat, cookie: Octets) | Impostor(body: int) | Named(kind: int, body: int)

  datatype Attribute = Attribute(name: Octets, values: seq<Octets>)

  datatype Entry = Entry(dn: Octets, attributes: seq<Attribute>)

  /** The attribute list of an entry packet: absent, not decodable, or decoded. */
  datatype Attributes = Missing | Malformed | Listed(list: seq<Attribute>)

  /** What `DecodeControl` makes of a control packet. */
  datatype Decoded = Known(control: Control) | Undecodable

  /** A packet by the tag of its operation, with the controls of its envelope if it has any. */
  datatype Packet =
    | EntryPacket(dn: Octets, attributes: Attributes, controls: Option<seq<Decoded>>)
    | DonePacket(code: nat, controls: Option<seq<Decoded>>)
    | ReferencePacket(uri: Octets)
    | IntermediatePacket(decoded: Decoded)
    | OtherPacket(tag: int)

  datatype Error =
    | ChannelClosed
    | NotSent
    | Network(cause: int)
    | ResultCode(code: nat)
    | BadAttributes
    | BadControl
    | SizeLimitExceeded
    | UnknownTag(tag: int)
    | BadPagingControl
    | PagingSizeConflict

  /** What the responses channel yields before it is closed. */
  datatype Item = Got(packet: Packet) | Broken(error: Error)

  datatype SearchResult = SearchResult(entries: seq<Entry>, referrals: seq<Octets>, controls: seq<Control>)

  const EMPTY := SearchResult([], [], [])

  function Append(r: SearchResult, s: SearchResult): SearchResult {
    SearchResult(r.entries + s.entries, r.referrals + s.referrals, r.controls + s.controls)
  }

  // ---------------------------------------------------------------- one search

  datatype Outcome = Outcome(result: SearchResult, error: Option<Error>)

  /** The controls decoded before the first that cannot be. */
  function DecodedPrefix(ds: seq<Decoded>): seq<Control> {
    if ds == [] || ds[0].Undecodable? then [] else [ds[0].control] + DecodedPrefix(ds[1..])
  }

  predicate AllKnown(ds: seq<Decoded>) {
    forall k :: 0 <= k < |ds| ==> ds[k].Known?
  }

  function Envelope(controls: Option<seq<Decoded>>): seq<Decoded> {
    if controls.Some? then controls.value else []
  }

  function AttributeList(a: Attributes): seq<Attribute> {
    if a.Listed? then a.list else []
  }

  /** Where the search stands: it goes on with what it has, or it has returned. */
  datatype Progress = Running(result: SearchResult) | Ended(outcome: Outcome)

  function Fail(r: SearchResult, e: Error): Progress {
    Ended(Outcome(r, Some(e)))
  }

  /** One packet read by `Search`; a limit of 0 is not enforced. */
  function Take(item: Item, limit: nat, r: SearchResult): Progress {
    if item.Broken? then Fail(r, item.error)
    else
      match item.packet
      case EntryPacket(dn, attributes, _) =>
        if limit > 0 && |r.entries| >= limit then Fail(r, SizeLimitExceeded)
        else if attributes.Malformed? then Fail(r, BadAttributes)
        else Running(r.(entries := r.entries + [Entry(dn, AttributeList(attributes))]))
      case DonePacket(code, controls) =>
        if code != 0 then Fail(r, ResultCode(code))
        else
          var s := r.(controls := r.controls + DecodedPrefix(Envelope(controls)));
          if AllKnown(Envelope(controls)) then Ended(Outcome(s, None)) else Fail(s, BadControl)
      case ReferencePacket(uri) => Running(r.(referrals := r.referrals + [uri]))
      case _ => Running(r)
  }

  function Absorb(items: seq<Item>, limit: nat, r: SearchResult): Progress {
    if items == [] then Running(r)
    else
      var p := Take(items[0], limit, r);
      if p.Ended? then p else Absorb(items[1..], limit, p.result)
  }

  /** The result of a search whose responses channel yields these items and is then closed. */
  function Collect(items: seq<Item>, limit: nat): Outcome {
    var p := Absorb(items, limit, EMPTY);
    if p.Ended? then p.outcome else Outcome(p.result, Some(ChannelClosed))
  }

  /** The loop over the controls of the final packet. */
  method DecodeControls(ds: seq<Decoded>) returns (controls: seq<Control>, ok: bool)
    ensures controls == DecodedPrefix(ds) && ok == AllKnown(ds)
  {
    controls := [];
    var k := 0;
    while k < |ds|
      invariant 0 <= k <= |ds| && AllKnown(ds[..k])
      invariant DecodedPrefix(ds) == controls + DecodedPrefix(ds[k..])
    {
      if ds[k].Undecodable? { return controls, false; }
      assert ds[k..][1..] == ds[k + 1..];
      controls := controls + [ds[k].control];
      k := k + 1;
    }
    ok := true;
  }

  function Limit(enforceSizeLimit: bool, sizeLimit: int): nat {
    if enforceSizeLimit && sizeLimit > 0 then sizeLimit else 0
  }

  method Search(items: seq<Item>, enforceSizeLimit: bool, sizeLimit: int) returns (result: SearchResult, err: Option<Error>)
    ensures Outcome(result, err) == Collect(items, Limit(enforceSizeLimit, sizeLimit))
  {
    ghost var limit := Limit(enforceSizeLimit, sizeLimit);
    result := EMPTY;
    var k := 0;
    while k < |items|
      invariant 0 <= k <= |items|
      invariant Absorb(items, limit, EMPTY) == Absorb(items[k..], limit, result)
    {
      var item := items[k];
      assert items[k..][0] == item && items[k..][1..] == items[k + 1..];
      k := k + 1;
      if item.Broken? { return result, Some(item.error); }
      match item.packet
      case EntryPacket(dn, attributes, _) =>
        if enforceSizeLimit && sizeLimit > 0 && |result.entries| >= sizeLimit {
          return result, Some(SizeLimitExceeded);
        }
        if attributes.Malformed? { return result, Some(BadAttributes); }
        result := result.(entries := result.entries + [Entry(dn, AttributeList(attributes))]);
      case DonePacket(code, envelope) =>
        if code != 0 { return result, Some(ResultCode(code)); }
        if envelope.Some? {
          var controls, ok := DecodeControls(envelope.value);
          result := result.(controls := result.controls + controls);
          if !ok { return result, Some(BadControl); }
        }
        return result, None;
      case ReferencePacket(uri) => result := result.(referrals := result.referrals + [uri]);
      case _ =>
    }
    return result, Some(ChannelClosed);
  }

  // ---------------------------------------------------------------- paging

  predicate IsPagingType(c: Control) {
    c.Paging? || c.Impostor?
  }

  /** `FindControl` for the paging type: the index of the first such control. */
  function FindPaging(cs: seq<Control>): (r: Option<nat>)
    ensures r.Some? ==> r.value < |cs| && IsPagingType(cs[r.value])
    ensures r.Some? ==> forall k :: 0 <= k < r.value ==> !IsPagingType(cs[k])
    ensures r.None? ==> forall k :: 0 <= k < |cs| ==> !IsPagingType(cs[k])
  {
    if cs == [] then None
    else if IsPagingType(cs[0]) then Some(0)
    else
      var r := FindPaging(cs[1..]);
      if r.None? then None else Some(r.value + 1)
  }

  method FindControl(cs: seq<Control>) returns (r: Option<nat>)
    ensures r == FindPaging(cs)
  {
    var k := 0;
    while k < |cs|
      invariant 0 <= k <= |cs| && forall j :: 0 <= j < k ==> !IsPagingType(cs[j])
    {
      if IsPagingType(cs[k]) { return Some(k); }
      k := k + 1;
    }
    return None;
  }

  /** The cookie of a reply's paging control; empty when there is no such control. A decoded control
      of the paging type is always a paging control. */
  function ReplyCookie(cs: seq<Control>): Octets {
    var k := FindPaging(cs);
    if k.Some? && cs[k.value].Paging? then cs[k.value].cookie else []
  }

  function SetCookie(cs: seq<Control>, at: nat, cookie: Octets): seq<Control>
    requires at < |cs| && cs[at].Paging?
  {
    cs[at := cs[at].(cookie := cookie)]
  }

  /** The environment's answer to a search request: an error before it is sent, or a reply stream. */
  datatype Reply = Refused(error: Error) | Streamed(items: seq<Item>)

  /** A server answers the n-th request by its controls. */
  type Server = (nat, seq<Control>) -> Reply

  /** The result, the request's controls afterwards, and the controls of each request sent. */
  datatype PagedRun = PagedRun(result: SearchResult, error: Option<Error>, controls: seq<Control>, sent: seq<seq<Control>>)

  /** What the paging loop has when it makes its n-th request. */
  datatype Paged = Paged(n: nat, controls: seq<Control>, result: SearchResult, sent: seq<seq<Control>>)

  predicate HasPaging(p: Paged, at: nat) {
    at < |p.controls| && p.controls[at].Paging?
  }

  /** A page is added and its cookie goes into the next request. */
  function NextPage(p: Paged, at: nat, page: SearchResult): Paged
    requires HasPaging(p, at)
  {
    Paged(p.n + 1, SetCookie(p.controls, at, ReplyCookie(page.controls)), Append(p.result, page), p.sent + [p.controls])
  }

  /** The paging loop; the connection accepts `lifetime` requests. */
  function Pages(serve: Server, lifetime: nat, limit: nat, at: nat, p: Paged): PagedRun
    requires HasPaging(p, at)
    decreases lifetime - p.n
  {
    if p.n >= lifetime then PagedRun(p.result, Some(NotSent), p.controls, p.sent)
    else
      match serve(p.n, p.controls)
      case Refused(e) => PagedRun(p.result, Some(e), p.controls, p.sent)
      case Streamed(items) =>
        var o := Collect(items, limit);
        if o.error.Some? || ReplyCookie(o.result.controls) == [] then
          PagedRun(Append(p.result, o.result), o.error, p.controls, p.sent + [p.controls])
        else
          Pages(serve, lifetime, limit, at, NextPage(p, at, o.result))
  }

  /** The four cases of the paging control in the request. */
  datatype Setup = Rejected(error: Error) | Prepared(controls: seq<Control>, at: nat)

  function Prepare(controls: seq<Control>, pagingSize: nat): (s: Setup)
    ensures s.Prepared? ==> s.at < |s.controls| && s.controls[s.at].Paging? && s.controls[s.at].size == pagingSize
    ensures s.Prepared? ==> FindPaging(s.controls) == Some(s.at)
  {
    match FindPaging(controls)
    case None => PrepareAppends(controls, pagingSize); Prepared(controls + [Paging(pagingSize, [])], |controls|)
    case Some(k) =>
      if controls[k].Impostor? then Rejected(BadPagingControl)
      else if controls[k].size != pagingSize then Rejected(PagingSizeConflict)
      else Prepared(controls, k)
  }

  lemma PrepareAppends(controls: seq<Control>, pagingSize: nat)
    requires FindPaging(controls).None?
    ensures FindPaging(controls + [Paging(pagingSize, [])]) == Some(|controls|)
  {
    var cs := controls + [Paging(pagingSize, [])];
    assert IsPagingType(cs[|controls|]);
  }

  class SearchRequest {
    var controls: seq<Control>
    const enforceSizeLimit: bool
    const sizeLimit: int

    constructor (controls: seq<Control>, enforceSizeLimit: bool, sizeLimit: int)
      ensures this.controls == controls && this.enforceSizeLimit == enforceSizeLimit && this.sizeLimit == sizeLimit
    {
      this.controls, this.enforceSizeLimit, this.sizeLimit := controls, enforceSizeLimit, sizeLimit;
    }

    function SizeLimit(): nat {
      Limit(enforceSizeLimit, sizeLimit)
    }
  }

  method PageLoop(request: SearchRequest, at: nat, serve: Server, lifetime: nat)
    returns (result: SearchResult, err: Option<Error>, sent: seq<seq<Control>>)
    requires at < |request.controls| && request.controls[at].Paging?
    modifies request`controls
    ensures PagedRun(result, err, request.controls, sent)
         == Pages(serve, lifetime, request.SizeLimit(), at, Paged(0, old(request.controls), EMPTY, []))
  {
    ghost var limit := request.SizeLimit();
    result, sent := EMPTY, [];
    var n := 0;
    while n < lifetime
      invariant n <= lifetime && HasPaging(Paged(n, request.controls, result, sent), at)
      invariant Pages(serve, lifetime, limit, at, Paged(0, old(request.controls), EMPTY, []))
             == Pages(serve, lifetime, limit, at, Paged(n, request.controls, result, sent))
    {
      var reply := serve(n, request.controls);
      if reply.Refused? { return result, Some(reply.error), sent; }
      var page, error := Search(reply.items, request.enforceSizeLimit, request.sizeLimit);
      result := Append(result, page);
      sent := sent + [request.controls];
      if error.Some? { return result, error, sent; }
      var cookie := ReplyCookie(page.controls);
      if cookie == [] { return result, None, sent; }
      request.controls := SetCookie(request.controls, at, cookie);
      n := n + 1;
    }
    return result, Some(NotSent), sent;
  }

  /** No result is returned when the paging control is refused. */
  method SearchWithPaging(request: SearchRequest, pagingSize: nat, serve: Server, lifetime: nat)
    returns (result: Option<SearchResult>, err: Option<Error>, sent: seq<seq<Control>>)
    modifies request`controls
    ensures match Prepare(old(request.controls), pagingSize)
      case Rejected(e) =>
        result == None && err == Some(e) && sent == [] && request.controls == old(request.controls)
      case Prepared(cs, at) =>
        result.Some? && PagedRun(result.value, err, request.controls, sent)
                     == Pages(serve, lifetime, request.SizeLimit(), at, Paged(0, cs, EMPTY, []))
  {
    var found := FindControl(request.controls);
    var at: nat;
    if found.None? {
      at := |request.controls|;
      request.controls := request.controls + [Paging(pagingSize, [])];
    } else {
      at := found.value;
      if request.controls[at].Impostor? { return None, Some(BadPagingControl), []; }
      if request.controls[at].size != pagingSize { return None, Some(PagingSizeConflict), []; }
    }
    var r;
    r, err, sent := PageLoop(request, at, serve, lifetime);
    result := Some(r);
  }
}
