/** Paged search against unpaged search. */
module SearchPaging {
  import opened Bytes
  import opened Search

  // ---------------------------------------------------------------- every server

  /** The outcome of the k-th request that was sent. */
  function PageOf(serve: Server, limit: nat, sent: seq<seq<Control>>, k: nat): Outcome
    requires k < |sent|
  {
    match serve(k, sent[k])
    case Refused(e) => Outcome(EMPTY, Some(e))
    case Streamed(items) => Collect(items, limit)
  }

  /** The first k pages together. */
  function Total(serve: Server, limit: nat, sent: seq<seq<Control>>, k: nat): SearchResult
    requires k <= |sent|
  {
    if k == 0 then EMPTY
    else Append(Total(serve, limit, sent, k - 1), PageOf(serve, limit, sent, k - 1).result)
  }

  /** Each request was answered and, but for the first, carries the cookie of the previous reply,
      which was not empty. */
  predicate IsChain(serve: Server, limit: nat, at: nat, start: seq<Control>, sent: seq<seq<Control>>) {
    && (forall k :: 0 <= k < |sent| ==>
          serve(k, sent[k]).Streamed? && at < |sent[k]| && sent[k][at].Paging?)
    && (sent != [] ==> sent[0] == start)
    && forall k :: 0 <= k < |sent| - 1 ==> Follows(serve, limit, at, sent, k)
  }

  predicate Follows(serve: Server, limit: nat, at: nat, sent: seq<seq<Control>>, k: nat)
    requires k + 1 < |sent| && at < |sent[k]| && sent[k][at].Paging?
  {
    var page := PageOf(serve, limit, sent, k);
    var cookie := ReplyCookie(page.result.controls);
    page.error.None? && cookie != [] && sent[k + 1] == SetCookie(sent[k], at, cookie)
  }

  lemma {:induction false} TotalPrefix(serve: Server, limit: nat, sent: seq<seq<Control>>, x: seq<Control>, k: nat)
    requires k <= |sent|
    ensures Total(serve, limit, sent + [x], k) == Total(serve, limit, sent, k)
  {
    if k > 0 { TotalPrefix(serve, limit, sent, x, k - 1); }
  }

  lemma ChainExtends(serve: Server, limit: nat, at: nat, start: seq<Control>, sent: seq<seq<Control>>, next: seq<Control>)
    requires IsChain(serve, limit, at, start, sent) && serve(|sent|, next).Streamed? && at < |next| && next[at].Paging?
    requires if sent == [] then next == start else
      var page := PageOf(serve, limit, sent, |sent| - 1);
      && page.error.None? && ReplyCookie(page.result.controls) != []
      && next == SetCookie(sent[|sent| - 1], at, ReplyCookie(page.result.controls))
    ensures IsChain(serve, limit, at, start, sent + [next])
  {
    var ss := sent + [next];
    forall k | 0 <= k < |ss| - 1 ensures Follows(serve, limit, at, ss, k) {
      assert PageOf(serve, limit, ss, k) == PageOf(serve, limit, sent, k);
      if k < |sent| - 1 { assert Follows(serve, limit, at, sent, k); }
    }
  }

  /** The paging loop has made the requests of `p.sent` and has their results. */
  predicate IsUnderWay(serve: Server, limit: nat, at: nat, start: seq<Control>, p: Paged) {
    && HasPaging(p, at) && p.n == |p.sent| && IsChain(serve, limit, at, start, p.sent)
    && p.result == Total(serve, limit, p.sent, p.n)
    && if p.n == 0 then p.controls == start else
       var page := PageOf(serve, limit, p.sent, p.n - 1);
       && page.error.None? && ReplyCookie(page.result.controls) != []
       && p.controls == SetCookie(p.sent[p.n - 1], at, ReplyCookie(page.result.controls))
  }

  /** The last page failed, or named no further page. */
  predicate EndsWithPage(serve: Server, limit: nat, run: PagedRun) {
    run.sent != [] &&
    var page := PageOf(serve, limit, run.sent, |run.sent| - 1);
    run.error == page.error && (page.error.Some? || ReplyCookie(page.result.controls) == [])
  }

  /** The next request could not be sent. */
  predicate EndsUnsent(serve: Server, lifetime: nat, run: PagedRun) {
    var n := |run.sent|;
    if n >= lifetime then run.error == Some(NotSent)
    else serve(n, run.controls).Refused? && run.error == Some(serve(n, run.controls).error)
  }

  predicate IsComplete(serve: Server, lifetime: nat, limit: nat, at: nat, start: seq<Control>, run: PagedRun) {
    && IsChain(serve, limit, at, start, run.sent)
    && run.result == Total(serve, limit, run.sent, |run.sent|)
    && (EndsWithPage(serve, limit, run) || EndsUnsent(serve, lifetime, run))
  }

  lemma PageIsAdded(serve: Server, limit: nat, at: nat, start: seq<Control>, p: Paged, items: seq<Item>)
    requires IsUnderWay(serve, limit, at, start, p) && serve(p.n, p.controls) == Streamed(items)
    ensures var sent := p.sent + [p.controls];
      && IsChain(serve, limit, at, start, sent) && PageOf(serve, limit, sent, p.n) == Collect(items, limit)
      && Total(serve, limit, sent, p.n + 1) == Append(p.result, Collect(items, limit).result)
  {
    ChainExtends(serve, limit, at, start, p.sent, p.controls);
    TotalPrefix(serve, limit, p.sent, p.controls, p.n);
  }

  lemma GoesOn(serve: Server, limit: nat, at: nat, start: seq<Control>, p: Paged, items: seq<Item>)
    requires IsUnderWay(serve, limit, at, start, p) && serve(p.n, p.controls) == Streamed(items)
    requires Collect(items, limit).error.None? && ReplyCookie(Collect(items, limit).result.controls) != []
    ensures IsUnderWay(serve, limit, at, start, NextPage(p, at, Collect(items, limit).result))
  {
    PageIsAdded(serve, limit, at, start, p, items);
  }

  lemma {:induction false} PagesAreChained(
    serve: Server, lifetime: nat, limit: nat, at: nat, start: seq<Control>, p: Paged)
    requires IsUnderWay(serve, limit, at, start, p)
    ensures IsComplete(serve, lifetime, limit, at, start, Pages(serve, lifetime, limit, at, p))
    decreases lifetime - p.n
  {
    if p.n < lifetime && serve(p.n, p.controls).Streamed? {
      var items := serve(p.n, p.controls).items;
      var o := Collect(items, limit);
      if o.error.None? && ReplyCookie(o.result.controls) != [] {
        GoesOn(serve, limit, at, start, p, items);
        PagesAreChained(serve, lifetime, limit, at, start, NextPage(p, at, o.result));
      } else {
        PageIsAdded(serve, limit, at, start, p, items);
      }
    }
  }

  /** Against any server: each request carries the previous reply's cookie, and the result is exactly
      the pages received, the partial one included. */
  lemma PagingIsFaithful(serve: Server, lifetime: nat, limit: nat, at: nat, start: seq<Control>)
    requires at < |start| && start[at].Paging?
    ensures IsComplete(serve, lifetime, limit, at, start, Pages(serve, lifetime, limit, at, Paged(0, start, EMPTY, [])))
  {
    PagesAreChained(serve, lifetime, limit, at, start, Paged(0, start, EMPTY, []));
  }

  // ---------------------------------------------------------------- a server that pages through a list

  predicate IsDone(i: Item) {
    i.Got? && i.packet.DonePacket?
  }

  predicate HasNoDone(items: seq<Item>) {
    forall k :: 0 <= k < |items| ==> !IsDone(items[k])
  }

  function Final(controls: seq<Decoded>): Item {
    Got(DonePacket(0, Some(controls)))
  }

  function CookieAt(cookies: seq<Octets>, k: nat): Octets {
    if k < |cookies| then cookies[k] else []
  }

  /** The k-th page is served to the request with the k-th cookie, and its final packet carries the
      next cookie, or none on the last page. Cookies are opaque; the first is the request's own. */
  predicate ServesPage(serve: Server, at: nat, start: seq<Control>, pages: seq<seq<Item>>, cookies: seq<Octets>,
                       finals: seq<seq<Decoded>>, k: nat)
    requires at < |start| && start[at].Paging? && k < |pages| == |cookies| == |finals|
  {
    && HasNoDone(pages[k]) && AllKnown(finals[k])
    && (k > 0 ==> cookies[k] != [])
    && ReplyCookie(DecodedPrefix(finals[k])) == CookieAt(cookies, k + 1)
    && serve(k, SetCookie(start, at, cookies[k])) == Streamed(pages[k] + [Final(finals[k])])
  }

  predicate ServesPages(serve: Server, at: nat, start: seq<Control>, pages: seq<seq<Item>>, cookies: seq<Octets>,
                        finals: seq<seq<Decoded>>)
  {
    && at < |start| && start[at].Paging? && start[at].cookie == []
    && 0 < |pages| == |cookies| == |finals| && cookies[0] == []
    && forall k :: 0 <= k < |pages| ==> ServesPage(serve, at, start, pages, cookies, finals, k)
  }

  function Flatten(pages: seq<seq<Item>>): seq<Item> {
    if pages == [] then [] else pages[0] + Flatten(pages[1..])
  }

  /** The same search without paging: the whole list in one reply. */
  function Unpaged(pages: seq<seq<Item>>, limit: nat): Outcome {
    Collect(Flatten(pages) + [Got(DonePacket(0, None))], limit)
  }

  /** Entries, referrals and error agree; a paged result also has the pages' paging controls. */
  predicate Agree(paged: Outcome, unpaged: Outcome) {
    && paged.result.entries == unpaged.result.entries
    && paged.result.referrals == unpaged.result.referrals
    && paged.error == unpaged.error
  }

  function RunOutcome(run: PagedRun): Outcome {
    Outcome(run.result, run.error)
  }

  lemma {:induction false} AbsorbConcat(a: seq<Item>, b: seq<Item>, limit: nat, r: SearchResult)
    ensures Absorb(a + b, limit, r)
         == var p := Absorb(a, limit, r); if p.Ended? then p else Absorb(b, limit, p.result)
  {
    if a == [] {
      assert a + b == b;
    } else {
      assert (a + b)[0] == a[0] && (a + b)[1..] == a[1..] + b;
      var p := Take(a[0], limit, r);
      if p.Running? { AbsorbConcat(a[1..], b, limit, p.result); }
    }
  }

  function Shift(r: SearchResult, p: Progress): Progress {
    match p
    case Running(s) => Running(Append(r, s))
    case Ended(o) => Ended(Outcome(Append(r, o.result), o.error))
  }

  lemma AppendAssoc(a: SearchResult, b: SearchResult, c: SearchResult)
    ensures Append(Append(a, b), c) == Append(a, Append(b, c))
  {
  }

  lemma TakeShift(i: Item, r: SearchResult, s: SearchResult)
    ensures Take(i, 0, Append(r, s)) == Shift(r, Take(i, 0, s))
  {
  }

  /** Without a limit, what a search has already does not matter for what it adds. */
  lemma {:induction false} AbsorbShift(items: seq<Item>, r: SearchResult, s: SearchResult)
    ensures Absorb(items, 0, Append(r, s)) == Shift(r, Absorb(items, 0, s))
  {
    if items != [] {
      TakeShift(items[0], r, s);
      var p := Take(items[0], 0, s);
      if p.Running? { AbsorbShift(items[1..], r, p.result); }
    }
  }

  /** A page that is not cut short: its items, then the controls of its final packet. */
  lemma CollectPage(items: seq<Item>, final: seq<Decoded>, limit: nat)
    requires HasNoDone(items) && AllKnown(final)
    ensures Collect(items + [Final(final)], limit)
         == match Absorb(items, limit, EMPTY)
            case Ended(o) => o
            case Running(s) => Outcome(s.(controls := s.controls + DecodedPrefix(final)), None)
  {
    AbsorbConcat(items, [Final(final)], limit, EMPTY);
  }

  lemma {:induction false} NoControls(items: seq<Item>, limit: nat, r: SearchResult)
    requires HasNoDone(items)
    ensures var p := Absorb(items, limit, r);
      (if p.Running? then p.result else p.outcome.result).controls == r.controls
    ensures Absorb(items, limit, r).Ended? ==> Absorb(items, limit, r).outcome.error.Some?
  {
    if items != [] {
      var p := Take(items[0], limit, r);
      if p.Running? { NoControls(items[1..], limit, p.result); }
    }
  }

  function Finish(p: Progress): Outcome {
    if p.Ended? then p.outcome else Outcome(p.result, Some(ChannelClosed))
  }

  predicate Same(r: SearchResult, s: SearchResult) {
    r.entries == s.entries && r.referrals == s.referrals
  }

  /** The items of the pages from the k-th on, and the final packet of an unpaged reply. */
  function Rest(pages: seq<seq<Item>>, k: nat): seq<Item>
    requires k <= |pages|
  {
    Flatten(pages[k..]) + [Got(DonePacket(0, None))]
  }

  lemma RestUnfolds(pages: seq<seq<Item>>, k: nat, limit: nat, u: SearchResult)
    requires k < |pages|
    ensures Absorb(Rest(pages, k), limit, u)
         == var p := Absorb(pages[k], limit, u); if p.Ended? then p else Absorb(Rest(pages, k + 1), limit, p.result)
  {
    assert pages[k..][1..] == pages[k + 1..];
    assert Rest(pages, k) == pages[k] + Rest(pages, k + 1);
    AbsorbConcat(pages[k], Rest(pages, k + 1), limit, u);
  }

  lemma RestOfNone(pages: seq<seq<Item>>, limit: nat, u: SearchResult)
    ensures Absorb(Rest(pages, |pages|), limit, u) == Ended(Outcome(u, None))
  {
    assert Rest(pages, |pages|) == [Got(DonePacket(0, None))];
  }

  lemma CookieIsReplaced(cs: seq<Control>, at: nat, c: Octets, d: Octets)
    requires at < |cs| && cs[at].Paging?
    ensures SetCookie(SetCookie(cs, at, c), at, d) == SetCookie(cs, at, d)
  {
  }

  /** What the paging loop makes of the k-th page. */
  lemma PageServed(
    serve: Server, at: nat, start: seq<Control>, pages: seq<seq<Item>>, cookies: seq<Octets>,
    finals: seq<seq<Decoded>>, k: nat, limit: nat, o: Outcome)
    requires ServesPages(serve, at, start, pages, cookies, finals) && k < |pages|
    requires o == Collect(pages[k] + [Final(finals[k])], limit)
    ensures var p := Absorb(pages[k], limit, EMPTY);
      && (p.Ended? ==> o == p.outcome && o.error.Some?)
      && (p.Running? ==> o.error.None? && Same(o.result, p.result))
      && (p.Running? ==> ReplyCookie(o.result.controls) == CookieAt(cookies, k + 1))
    ensures k + 1 < |pages| ==> CookieAt(cookies, k + 1) != []
  {
    assert ServesPage(serve, at, start, pages, cookies, finals, k);
    CollectPage(pages[k], finals[k], limit);
    NoControls(pages[k], limit, EMPTY);
    assert [] + DecodedPrefix(finals[k]) == DecodedPrefix(finals[k]);
    if k + 1 < |pages| { assert ServesPage(serve, at, start, pages, cookies, finals, k + 1); }
  }

  lemma {:induction false} PagesAgree(
    serve: Server, lifetime: nat, at: nat, start: seq<Control>, pages: seq<seq<Item>>, cookies: seq<Octets>,
    finals: seq<seq<Decoded>>, p: Paged, u: SearchResult)
    requires ServesPages(serve, at, start, pages, cookies, finals) && p.n < |pages| <= lifetime
    requires p.controls == SetCookie(start, at, cookies[p.n]) && Same(p.result, u)
    ensures Agree(RunOutcome(Pages(serve, lifetime, 0, at, p)), Finish(Absorb(Rest(pages, p.n), 0, u)))
    decreases |pages| - p.n
  {
    var k := p.n;
    assert ServesPage(serve, at, start, pages, cookies, finals, k);
    var o := Collect(pages[k] + [Final(finals[k])], 0);
    PageServed(serve, at, start, pages, cookies, finals, k, 0, o);
    assert Append(u, EMPTY) == u;
    AbsorbShift(pages[k], u, EMPTY);
    RestUnfolds(pages, k, 0, u);
    var page := Absorb(pages[k], 0, EMPTY);
    if page.Running? && k + 1 < |pages| {
      CookieIsReplaced(start, at, cookies[k], cookies[k + 1]);
      PagesAgree(serve, lifetime, at, start, pages, cookies, finals, NextPage(p, at, o.result), Append(u, page.result));
    } else if page.Running? {
      RestOfNone(pages, 0, Append(u, page.result));
    }
  }

  /** For any division of a reply into pages, of whatever items, paged search without an enforced
      size limit returns the entries, the referrals and the error of the unpaged search. */
  lemma PagedEqualsUnpaged(
    serve: Server, lifetime: nat, at: nat, start: seq<Control>, pages: seq<seq<Item>>, cookies: seq<Octets>,
    finals: seq<seq<Decoded>>)
    requires ServesPages(serve, at, start, pages, cookies, finals) && |pages| <= lifetime
    ensures Agree(RunOutcome(Pages(serve, lifetime, 0, at, Paged(0, start, EMPTY, []))), Unpaged(pages, 0))
  {
    assert pages[0..] == pages && SetCookie(start, at, cookies[0]) == start;
    PagesAgree(serve, lifetime, at, start, pages, cookies, finals, Paged(0, start, EMPTY, []), EMPTY);
  }

  // ---------------------------------------------------------------- an enforced size limit

  predicate IsEntry(i: Item) {
    i.Got? && i.packet.EntryPacket?
  }

  /** An item that ends a search with an error whatever the limit. */
  predicate IsFault(i: Item) {
    i.Broken? || (i.packet.EntryPacket? && i.packet.attributes.Malformed?)
  }

  predicate HasFault(items: seq<Item>) {
    exists k :: 0 <= k < |items| && IsFault(items[k])
  }

  /** The entry packets up to the first fault, the faulty one included. */
  function Arrivals(items: seq<Item>): nat {
    if items == [] then 0
    else (if IsEntry(items[0]) then 1 else 0) + if IsFault(items[0]) then 0 else Arrivals(items[1..])
  }

  lemma {:induction false} ArrivalsConcat(a: seq<Item>, b: seq<Item>)
    ensures Arrivals(a + b) == Arrivals(a) + if HasFault(a) then 0 else Arrivals(b)
  {
    if a == [] {
      assert a + b == b;
    } else {
      assert (a + b)[1..] == a[1..] + b;
      FaultCons(a);
      ArrivalsConcat(a[1..], b);
    }
  }

  lemma FaultCons(a: seq<Item>)
    requires a != []
    ensures HasFault(a) <==> IsFault(a[0]) || HasFault(a[1..])
  {
    if HasFault(a) && !IsFault(a[0]) {
      var k :| 0 <= k < |a| && IsFault(a[k]);
      assert IsFault(a[1..][k - 1]);
    }
    if HasFault(a[1..]) {
      var k :| 0 <= k < |a[1..]| && IsFault(a[1..][k]);
      assert IsFault(a[k + 1]);
    }
  }

  /** Within the limit a search takes everything up to a fault, as it would without a limit. */
  lemma {:induction false} AbsorbWithin(items: seq<Item>, limit: nat, r: SearchResult)
    requires HasNoDone(items) && |r.entries| + Arrivals(items) <= limit
    ensures Absorb(items, limit, r) == Absorb(items, 0, r)
    ensures Absorb(items, limit, r).Running? <==> !HasFault(items)
    ensures var p := Absorb(items, limit, r);
      if p.Running? then |p.result.entries| == |r.entries| + Arrivals(items)
      else p.outcome.error == Some(BadAttributes) || |p.outcome.result.entries| == |r.entries| + Arrivals(items)
  {
    if items != [] {
      FaultCons(items);
      var p := Take(items[0], limit, r);
      if p.Running? { AbsorbWithin(items[1..], limit, p.result); }
    }
  }

  /** Beyond the limit it stops with exactly as many entries as the limit allows. */
  lemma {:induction false} AbsorbBeyond(items: seq<Item>, limit: nat, r: SearchResult)
    requires HasNoDone(items) && 0 < limit && |r.entries| <= limit < |r.entries| + Arrivals(items)
    ensures var p := Absorb(items, limit, r);
      p.Ended? && p.outcome.error == Some(SizeLimitExceeded) && |p.outcome.result.entries| == limit
  {
    var p := Take(items[0], limit, r);
    if p.Running? { AbsorbBeyond(items[1..], limit, p.result); }
  }

  lemma TakeFromNone(i: Item, limit: nat, r: SearchResult, s: SearchResult)
    requires r.entries == []
    ensures Take(i, limit, Append(r, s)) == Shift(r, Take(i, limit, s))
  {
    assert Append(r, s).entries == s.entries;
  }

  /** While no entry has been seen, references pass and the limit counts from the start. */
  lemma {:induction false} AbsorbFromNone(items: seq<Item>, limit: nat, r: SearchResult, s: SearchResult)
    requires r.entries == []
    ensures Absorb(items, limit, Append(r, s)) == Shift(r, Absorb(items, limit, s))
  {
    if items != [] {
      TakeFromNone(items[0], limit, r, s);
      var p := Take(items[0], limit, s);
      if p.Running? { AbsorbFromNone(items[1..], limit, r, p.result); }
    }
  }

  /** The entry packets of the first page that has any. */
  function FirstArrivals(pages: seq<seq<Item>>): nat {
    if pages == [] then 0
    else if Arrivals(pages[0]) > 0 then Arrivals(pages[0])
    else FirstArrivals(pages[1..])
  }

  predicate HaveNoDone(pages: seq<seq<Item>>) {
    forall k :: 0 <= k < |pages| ==> HasNoDone(pages[k])
  }

  lemma {:induction false} FlattenNoDone(pages: seq<seq<Item>>)
    requires HaveNoDone(pages)
    ensures HasNoDone(Flatten(pages))
  {
    if pages != [] { FlattenNoDone(pages[1..]); }
  }

  lemma ServedNoDone(
    serve: Server, at: nat, start: seq<Control>, pages: seq<seq<Item>>, cookies: seq<Octets>, finals: seq<seq<Decoded>>)
    requires ServesPages(serve, at, start, pages, cookies, finals)
    ensures HaveNoDone(pages)
  {
    forall k | 0 <= k < |pages| ensures HasNoDone(pages[k]) {
      assert ServesPage(serve, at, start, pages, cookies, finals, k);
    }
  }

  /** The arrivals of the k-th page, and of that page and all later ones. */
  lemma ArrivalsUnfold(pages: seq<seq<Item>>, k: nat)
    requires k < |pages|
    ensures Arrivals(Flatten(pages[k..]))
         == Arrivals(pages[k]) + if HasFault(pages[k]) then 0 else Arrivals(Flatten(pages[k + 1..]))
  {
    assert pages[k..][1..] == pages[k + 1..];
    ArrivalsConcat(pages[k], Flatten(pages[k + 1..]));
  }

  /** A limit that the list does not exceed makes no difference to the paging loop. */
  lemma {:induction false} LimitUnreached(
    serve: Server, lifetime: nat, limit: nat, at: nat, start: seq<Control>, pages: seq<seq<Item>>,
    cookies: seq<Octets>, finals: seq<seq<Decoded>>, p: Paged)
    requires ServesPages(serve, at, start, pages, cookies, finals) && p.n < |pages|
    requires p.controls == SetCookie(start, at, cookies[p.n]) && Arrivals(Flatten(pages[p.n..])) <= limit
    ensures Pages(serve, lifetime, limit, at, p) == Pages(serve, lifetime, 0, at, p)
    decreases |pages| - p.n
  {
    var k := p.n;
    assert ServesPage(serve, at, start, pages, cookies, finals, k);
    var o := Collect(pages[k] + [Final(finals[k])], limit);
    ArrivalsUnfold(pages, k);
    AbsorbWithin(pages[k], limit, EMPTY);
    CollectPage(pages[k], finals[k], limit);
    CollectPage(pages[k], finals[k], 0);
    PageServed(serve, at, start, pages, cookies, finals, k, limit, o);
    if o.error.None? && k + 1 < |pages| {
      CookieIsReplaced(start, at, cookies[k], cookies[k + 1]);
      LimitUnreached(serve, lifetime, limit, at, start, pages, cookies, finals, NextPage(p, at, o.result));
    }
  }

  /** A list that exceeds the limit makes a search stop at it, when no entry was seen before. */
  lemma RestBeyond(pages: seq<seq<Item>>, k: nat, limit: nat, u: SearchResult)
    requires HaveNoDone(pages) && k <= |pages| && 0 < limit < Arrivals(Flatten(pages[k..])) && u.entries == []
    ensures var o := Finish(Absorb(Rest(pages, k), limit, u));
      o.error == Some(SizeLimitExceeded) && |o.result.entries| == limit
  {
    FlattenNoDone(pages[k..]);
    AbsorbConcat(Flatten(pages[k..]), [Got(DonePacket(0, None))], limit, u);
    AbsorbBeyond(Flatten(pages[k..]), limit, u);
  }

  lemma UnpagedWithin(pages: seq<seq<Item>>, limit: nat)
    requires HaveNoDone(pages) && limit > 0 && Arrivals(Flatten(pages)) <= limit
    ensures Unpaged(pages, limit) == Unpaged(pages, 0)
  {
    var items, done := Flatten(pages), [Got(DonePacket(0, None))];
    FlattenNoDone(pages);
    AbsorbConcat(items, done, limit, EMPTY);
    AbsorbConcat(items, done, 0, EMPTY);
    AbsorbWithin(items, limit, EMPTY);
  }

  predicate StopsAt(o: Outcome, limit: nat) {
    o.error == Some(SizeLimitExceeded) && |o.result.entries| == limit
  }

  /** Once it has an entry, a paging loop over too long a list does not stop at the limit: it goes
      beyond it, ends without an error or ends with another one. */
  lemma {:induction false} PagedOverruns(
    serve: Server, lifetime: nat, limit: nat, at: nat, start: seq<Control>, pages: seq<seq<Item>>,
    cookies: seq<Octets>, finals: seq<seq<Decoded>>, p: Paged)
    requires ServesPages(serve, at, start, pages, cookies, finals) && p.n < |pages| <= lifetime && limit > 0
    requires p.controls == SetCookie(start, at, cookies[p.n]) && p.result.entries != []
    requires |p.result.entries| + Arrivals(Flatten(pages[p.n..])) > limit
    ensures !StopsAt(RunOutcome(Pages(serve, lifetime, limit, at, p)), limit)
    decreases |pages| - p.n
  {
    var k := p.n;
    assert ServesPage(serve, at, start, pages, cookies, finals, k);
    var o := Collect(pages[k] + [Final(finals[k])], limit);
    PageServed(serve, at, start, pages, cookies, finals, k, limit, o);
    if Arrivals(pages[k]) > limit {
      AbsorbBeyond(pages[k], limit, EMPTY);
    } else {
      AbsorbWithin(pages[k], limit, EMPTY);
      ArrivalsUnfold(pages, k);
      if o.error.None? && k + 1 < |pages| {
        CookieIsReplaced(start, at, cookies[k], cookies[k + 1]);
        PagedOverruns(serve, lifetime, limit, at, start, pages, cookies, finals, NextPage(p, at, o.result));
      }
    }
  }

  /** The whole list is over the limit, and no entry has been seen before the k-th page. */
  lemma {:induction false} LimitedAgree(
    serve: Server, lifetime: nat, limit: nat, at: nat, start: seq<Control>, pages: seq<seq<Item>>,
    cookies: seq<Octets>, finals: seq<seq<Decoded>>, p: Paged, u: SearchResult)
    requires ServesPages(serve, at, start, pages, cookies, finals) && p.n < |pages| <= lifetime
    requires p.controls == SetCookie(start, at, cookies[p.n]) && Same(p.result, u) && u.entries == []
    requires 0 < limit < Arrivals(Flatten(pages[p.n..]))
    ensures Agree(RunOutcome(Pages(serve, lifetime, limit, at, p)), Finish(Absorb(Rest(pages, p.n), limit, u)))
       <==> FirstArrivals(pages[p.n..]) > limit
    decreases |pages| - p.n
  {
    var k := p.n;
    assert ServesPage(serve, at, start, pages, cookies, finals, k);
    var o := Collect(pages[k] + [Final(finals[k])], limit);
    PageServed(serve, at, start, pages, cookies, finals, k, limit, o);
    ArrivalsUnfold(pages, k);
    assert pages[k..][1..] == pages[k + 1..];
    assert Append(u, EMPTY) == u;
    AbsorbFromNone(pages[k], limit, u, EMPTY);
    RestUnfolds(pages, k, limit, u);
    if Arrivals(pages[k]) > limit {
      AbsorbBeyond(pages[k], limit, EMPTY);
    } else {
      AbsorbWithin(pages[k], limit, EMPTY);
      CookieIsReplaced(start, at, cookies[k], cookies[k + 1]);
      var next := NextPage(p, at, o.result);
      if Arrivals(pages[k]) > 0 {
        ServedNoDone(serve, at, start, pages, cookies, finals);
        RestBeyond(pages, k, limit, u);
        PagedOverruns(serve, lifetime, limit, at, start, pages, cookies, finals, next);
      } else {
        var page := Absorb(pages[k], limit, EMPTY).result;
        LimitedAgree(serve, lifetime, limit, at, start, pages, cookies, finals, next, Append(u, page));
      }
    }
  }

  /** The size limit is enforced page by page. With it, paged search agrees with unpaged search
      exactly when the list is within the limit, up to its first fault, or the first page with an
      entry exceeds it. */
  lemma PagedLimit(
    serve: Server, lifetime: nat, limit: nat, at: nat, start: seq<Control>, pages: seq<seq<Item>>,
    cookies: seq<Octets>, finals: seq<seq<Decoded>>)
    requires ServesPages(serve, at, start, pages, cookies, finals) && |pages| <= lifetime && limit > 0
    ensures Agree(RunOutcome(Pages(serve, lifetime, limit, at, Paged(0, start, EMPTY, []))), Unpaged(pages, limit))
       <==> Arrivals(Flatten(pages)) <= limit || FirstArrivals(pages) > limit
  {
    var p := Paged(0, start, EMPTY, []);
    assert pages[0..] == pages && SetCookie(start, at, cookies[0]) == start;
    if Arrivals(Flatten(pages)) <= limit {
      ServedNoDone(serve, at, start, pages, cookies, finals);
      LimitUnreached(serve, lifetime, limit, at, start, pages, cookies, finals, p);
      UnpagedWithin(pages, limit);
      PagedEqualsUnpaged(serve, lifetime, at, start, pages, cookies, finals);
    } else {
      LimitedAgree(serve, lifetime, limit, at, start, pages, cookies, finals, p, EMPTY);
    }
  }

  /** A server with two pages of the one entry `e`. */
  function TwoPages(e: Item): Server {
    (n: nat, cs: seq<Control>) =>
      if n == 0 then Streamed([e] + [Final([Known(Paging(1, [0x41]))])])
      else Streamed([e] + [Final([Known(Paging(1, []))])])
  }

  /** Under a limit of one, paged search returns both entries and no error, and unpaged search one
      entry and an error. */
  lemma LimitIsPerPage(dn: Octets)
    ensures var e := Got(EntryPacket(dn, Listed([]), None));
      var paged := Pages(TwoPages(e), 2, 1, 0, Paged(0, [Paging(1, [])], EMPTY, []));
      && paged.result.entries == [Entry(dn, []), Entry(dn, [])] && paged.error == None
      && Unpaged([[e], [e]], 1).result.entries == [Entry(dn, [])]
      && Unpaged([[e], [e]], 1).error == Some(SizeLimitExceeded)
  {
    var e := Got(EntryPacket(dn, Listed([]), None));
    TwoPagesPaged(dn, e);
    TwoPagesUnpaged(dn, e);
  }

  /** One page, with the cookie `c` for the next. */
  lemma OneEntryPage(dn: Octets, e: Item, c: Octets)
    requires e == Got(EntryPacket(dn, Listed([]), None))
    ensures Collect([e] + [Final([Known(Paging(1, c))])], 1) == Outcome(SearchResult([Entry(dn, [])], [], [Paging(1, c)]), None)
    ensures ReplyCookie([Paging(1, c)]) == c
  {
    var final := [Known(Paging(1, c))];
    CollectPage([e], final, 1);
    assert [e][1..] == [] && final[1..] == [];
    assert Absorb([e], 1, EMPTY) == Running(SearchResult([Entry(dn, [])], [], []));
    assert DecodedPrefix(final) == [Paging(1, c)];
  }

  lemma TwoPagesPaged(dn: Octets, e: Item)
    requires e == Got(EntryPacket(dn, Listed([]), None))
    ensures var paged := Pages(TwoPages(e), 2, 1, 0, Paged(0, [Paging(1, [])], EMPTY, []));
      paged.result.entries == [Entry(dn, []), Entry(dn, [])] && paged.error == None
  {
    OneEntryPage(dn, e, [0x41]);
    OneEntryPage(dn, e, []);
    var p := Paged(0, [Paging(1, [])], EMPTY, []);
    var first := SearchResult([Entry(dn, [])], [], [Paging(1, [0x41])]);
    var q := NextPage(p, 0, first);
    assert Pages(TwoPages(e), 2, 1, 0, p) == Pages(TwoPages(e), 2, 1, 0, q);
    assert q.n == 1 && q.result.entries == [Entry(dn, [])];
  }

  lemma TwoPagesUnpaged(dn: Octets, e: Item)
    requires e == Got(EntryPacket(dn, Listed([]), None))
    ensures Unpaged([[e], [e]], 1).result.entries == [Entry(dn, [])]
    ensures Unpaged([[e], [e]], 1).error == Some(SizeLimitExceeded)
  {
    var pages := [[e], [e]];
    assert [[e]][1..] == [] && Flatten([[e]]) == [e] + [];
    assert pages[1..] == [[e]] && Flatten(pages) == [e] + Flatten([[e]]);
    var rest := [e, Got(DonePacket(0, None))];
    assert Flatten(pages) + [Got(DonePacket(0, None))] == [e] + rest;
    assert ([e] + rest)[0] == e && ([e] + rest)[1..] == rest;
    var one := SearchResult([Entry(dn, [])], [], []);
    assert Take(e, 1, EMPTY) == Running(one);
    assert Absorb([e] + rest, 1, EMPTY) == Absorb(rest, 1, one);
    assert Take(rest[0], 1, one) == Ended(Outcome(one, Some(SizeLimitExceeded)));
  }
}
