/** Parsing the normalized text of a name gives an equal name back. */
module DnRoundTrip {
  import opened Bytes
  import opened Utf8
  import opened DnEscape
  import opened Lexicographic
  import opened Dn
  import opened DnEquality

  // ---------------------------------------------------------------- the parser over escaped text

  /** The text of one attribute and what it is read as. */
  datatype Piece = Piece(typText: Octets, valueText: Octets, attr: Attribute)

  function PieceText(pc: Piece): Octets {
    pc.typText + ([EQUALS] + pc.valueText)
  }

  /** No unescaped separator, no unescaped equals sign in the type, and both parts are readable. */
  ghost predicate IsReadable(pc: Piece, rd: Readers) {
    && Closed(pc.typText, FreeOf(false)) && Closed(pc.valueText, FreeOf(true))
    && rd.typ(pc.typText) == Some(pc.attr.typ) && pc.attr.typ != []
    && rd.value(pc.valueText) == Some(pc.attr.value)
  }

  /** The loop walks over text that holds nothing it would act on. */
  lemma {:induction false} RunOver(str: Octets, i: nat, j: nat, st: Progress, rd: Readers)
    requires st.start <= i <= j <= |str|
    requires forall k :: i <= k < j && !Escaping(str, k) ==>
               !IsSeparator(str[k]) && (st.typ != [] || str[k] != EQUALS)
    ensures Run(str, i, st, rd) == Run(str, j, st, rd)
    decreases j - i
  {
    if i < j {
      RunOver(str, i + 1, j, st, rd);
    }
  }

  lemma RunOverClosed(str: Octets, p: nat, text: Octets, isValue: bool, st: Progress, rd: Readers)
    requires At(str, p, text) && !Escaping(str, p) && st.start <= p
    requires Closed(text, FreeOf(isValue)) && (isValue ==> st.typ != [])
    ensures Run(str, p, st, rd) == Run(str, p + |text|, st, rd)
    ensures !Escaping(str, p + |text|)
  {
    forall k | p <= k < p + |text| && !Escaping(str, k)
      ensures !IsSeparator(str[k]) && (st.typ != [] || str[k] != EQUALS)
    {
      EscapingAt(str, p, text, k - p);
      AtIndex(str, p, text, k - p);
      assert FreeOf(isValue)(text[k - p]);
    }
    RunOver(str, p, p + |text|, st, rd);
    EscapingAt(str, p, text, |text|);
  }

  /** The type of an attribute is read up to its unescaped equals sign. */
  lemma RunType(str: Octets, p: nat, q: nat, pc: Piece, st: Progress, rd: Readers)
    requires At(str, p, pc.typText) && q == p + |pc.typText| && At(str, q, [EQUALS]) && IsReadable(pc, rd)
    requires !Escaping(str, p) && st.start == p && st.typ == []
    ensures !Escaping(str, q + 1)
    ensures Run(str, p, st, rd) == Run(str, q + 1, st.(typ := pc.attr.typ, start := q + 1), rd)
  {
    RunOverClosed(str, p, pc.typText, false, st, rd);
    AtIndex(str, q, [EQUALS], 0);
  }

  /** What the loop does at `q`, the end or a separator, with the value before it. */
  function Continue(str: Octets, q: nat, st: Progress, a: Attribute, rd: Readers): Parsed
    requires q <= |str|
  {
    var st' := st.(typ := a.typ);
    if q == |str| then Ok(DN(Append(st', a.value, true, q).rdns))
    else Run(str, q + 1, Append(st', a.value, str[q] != PLUS, q + 1), rd)
  }

  predicate EndsAttribute(str: Octets, q: nat) {
    q == |str| || (q < |str| && IsSeparator(str[q]))
  }

  /** Then its value, up to a separator or the end. */
  lemma RunValue(str: Octets, p: nat, q: nat, pc: Piece, st: Progress, rd: Readers)
    requires At(str, p, pc.valueText) && q == p + |pc.valueText| && EndsAttribute(str, q) && IsReadable(pc, rd)
    requires !Escaping(str, p) && st.start == p && st.typ == pc.attr.typ
    ensures !Escaping(str, q)
    ensures Run(str, p, st, rd) == Continue(str, q, st, pc.attr, rd)
  {
    RunOverClosed(str, p, pc.valueText, true, st, rd);
    if q == |str| {
      assert str[p..] == str[p..q];
    }
  }

  lemma AtParts(str: Octets, p: nat, m: nat, t: Octets, v: Octets)
    requires At(str, p, t + ([EQUALS] + v)) && m == p + |t|
    ensures At(str, p, t) && At(str, m, [EQUALS]) && At(str, m + 1, v)
  {
    AtSplit(str, p, t, [EQUALS] + v);
    AtSplit(str, m, [EQUALS], v);
  }

  /** A readable piece of text becomes its attribute. */
  lemma RunPiece(str: Octets, p: nat, q: nat, pc: Piece, st: Progress, rd: Readers)
    requires At(str, p, PieceText(pc)) && q == p + |PieceText(pc)| && EndsAttribute(str, q) && IsReadable(pc, rd)
    requires !Escaping(str, p) && st.start == p && st.typ == []
    ensures !Escaping(str, q)
    ensures Run(str, p, st, rd) == Continue(str, q, st, pc.attr, rd)
  {
    var m := p + |pc.typText|;
    AtParts(str, p, m, pc.typText, pc.valueText);
    RunType(str, p, m, pc, st, rd);
    var mid := st.(typ := pc.attr.typ, start := m + 1);
    RunValue(str, m + 1, q, pc, mid, rd);
    ContinueForgets(str, q, st, mid, pc.attr, rd);
  }

  lemma ContinueForgets(str: Octets, q: nat, st: Progress, mid: Progress, a: Attribute, rd: Readers)
    requires q <= |str| && st.rdns == mid.rdns && st.rdn == mid.rdn
    ensures Continue(str, q, st, a, rd) == Continue(str, q, mid, a, rd)
  {
  }

  // ---------------------------------------------------------------- RDNs

  function AttrOf(pc: Piece): Attribute {
    pc.attr
  }

  function RdnOf(pcs: seq<Piece>): RelativeDN {
    RelativeDN(Map(AttrOf, pcs))
  }

  function PiecesText(pcs: seq<Piece>): Octets {
    Join(Map(PieceText, pcs), PLUS)
  }

  ghost predicate AreReadable(pcs: seq<Piece>, rd: Readers) {
    pcs != [] && forall i :: 0 <= i < |pcs| ==> IsReadable(pcs[i], rd)
  }

  lemma PiecesTextCons(pcs: seq<Piece>)
    requires pcs != []
    ensures |pcs| == 1 ==> PiecesText(pcs) == PieceText(pcs[0])
    ensures |pcs| > 1 ==> PiecesText(pcs) == PieceText(pcs[0]) + ([PLUS] + PiecesText(pcs[1..]))
  {
    MapCons(PieceText, pcs);
  }

  /** The state when the attributes `as` have been added to the open RDN and it is closed. */
  function Close(st: Progress, attrs: seq<Attribute>, next: nat): Progress {
    Progress(st.rdns + [RelativeDN(st.rdn + attrs)], [], [], next)
  }

  function ContinueRdn(str: Octets, q: nat, st: Progress, attrs: seq<Attribute>, rd: Readers): Parsed
    requires q <= |str|
  {
    if q == |str| then Ok(DN(Close(st, attrs, q).rdns)) else Run(str, q + 1, Close(st, attrs, q + 1), rd)
  }

  predicate EndsRdn(str: Octets, q: nat) {
    q == |str| || (q < |str| && (str[q] == COMMA || str[q] == SEMICOLON))
  }

  lemma SeparatorAt(str: Octets, p: nat, a: Octets, sep: byte, tail: Octets, q: nat)
    requires At(str, p, a + ([sep] + tail)) && q == p + |a|
    ensures At(str, p, a) && q < |str| && str[q] == sep && At(str, q + 1, tail)
  {
    AtSplit(str, p, a, [sep] + tail);
    AtSplit(str, q, [sep], tail);
    AtIndex(str, q, [sep], 0);
  }

  lemma RunPlus(str: Octets, p: nat, q: nat, pc: Piece, tail: Octets, st: Progress, next: Progress, rd: Readers)
    requires At(str, p, PieceText(pc) + ([PLUS] + tail)) && IsReadable(pc, rd) && q == p + |PieceText(pc)|
    requires !Escaping(str, p) && st.start == p && st.typ == []
    requires next == Progress(st.rdns, st.rdn + [pc.attr], [], q + 1)
    ensures q < |str| && !Escaping(str, q + 1) && At(str, q + 1, tail)
    ensures Run(str, p, st, rd) == Run(str, q + 1, next, rd)
  {
    SeparatorAt(str, p, PieceText(pc), PLUS, tail, q);
    RunPiece(str, p, q, pc, st, rd);
  }

  /** The text of several pieces, from the first on. */
  lemma PiecesSplit(pcs: seq<Piece>, tail: Octets, rd: Readers)
    requires AreReadable(pcs, rd) && |pcs| > 1 && tail == PiecesText(pcs[1..])
    ensures PiecesText(pcs) == PieceText(pcs[0]) + ([PLUS] + tail) && IsReadable(pcs[0], rd) && AreReadable(pcs[1..], rd)
    ensures |PiecesText(pcs)| == |PieceText(pcs[0])| + 1 + |tail|
  {
    PiecesTextCons(pcs);
  }

  lemma ContinueCons(str: Octets, end: nat, st: Progress, a: Attribute, attrs: seq<Attribute>, start: nat, rd: Readers)
    requires end <= |str|
    ensures ContinueRdn(str, end, Progress(st.rdns, st.rdn + [a], [], start), attrs, rd)
         == ContinueRdn(str, end, st, [a] + attrs, rd)
  {
    ConsAssoc(st.rdn, a, attrs);
  }

  lemma ContinueLast(str: Octets, end: nat, st: Progress, a: Attribute, rd: Readers)
    requires EndsRdn(str, end)
    ensures Continue(str, end, st, a, rd) == ContinueRdn(str, end, st, [a], rd)
  {
  }

  lemma ContinueChain(str: Octets, p: nat, q: nat, end: nat, pcs: seq<Piece>, st: Progress, next: Progress, rd: Readers)
    requires st.start <= p <= |str| && q <= |str| && end <= |str| && pcs != []
    requires next == Progress(st.rdns, st.rdn + [pcs[0].attr], [], q)
    requires Run(str, p, st, rd) == Run(str, q, next, rd)
    requires Run(str, q, next, rd) == ContinueRdn(str, end, next, Map(AttrOf, pcs[1..]), rd)
    ensures Run(str, p, st, rd) == ContinueRdn(str, end, st, Map(AttrOf, pcs), rd)
  {
    MapCons(AttrOf, pcs);
    ContinueCons(str, end, st, pcs[0].attr, Map(AttrOf, pcs[1..]), q, rd);
  }

  lemma RunOnePiece(str: Octets, p: nat, end: nat, pcs: seq<Piece>, st: Progress, rd: Readers)
    requires |pcs| == 1 && AreReadable(pcs, rd) && At(str, p, PieceText(pcs[0])) && end == p + |PieceText(pcs[0])|
    requires EndsRdn(str, end) && !Escaping(str, p) && st.start == p && st.typ == []
    ensures !Escaping(str, end)
    ensures Run(str, p, st, rd) == ContinueRdn(str, end, st, Map(AttrOf, pcs), rd)
  {
    MapCons(AttrOf, pcs);
    RunPiece(str, p, end, pcs[0], st, rd);
    ContinueLast(str, end, st, pcs[0].attr, rd);
  }

  /** The pieces of one RDN come back in order. */
  lemma {:induction false} RunPieces(str: Octets, p: nat, end: nat, pcs: seq<Piece>, st: Progress, rd: Readers)
    requires AreReadable(pcs, rd) && At(str, p, PiecesText(pcs)) && end == p + |PiecesText(pcs)| && EndsRdn(str, end)
    requires !Escaping(str, p) && st.start == p && st.typ == []
    ensures !Escaping(str, end)
    ensures Run(str, p, st, rd) == ContinueRdn(str, end, st, Map(AttrOf, pcs), rd)
    decreases |pcs|
  {
    if |pcs| == 1 {
      PiecesTextCons(pcs);
      RunOnePiece(str, p, end, pcs, st, rd);
    } else {
      var q, tail := p + |PieceText(pcs[0])|, PiecesText(pcs[1..]);
      var next := Progress(st.rdns, st.rdn + [pcs[0].attr], [], q + 1);
      PiecesSplit(pcs, tail, rd);
      RunPlus(str, p, q, pcs[0], tail, st, next, rd);
      RunPieces(str, q + 1, end, pcs[1..], next, rd);
      ContinueChain(str, p, q + 1, end, pcs, st, next, rd);
    }
  }

  // ---------------------------------------------------------------- DNs

  function DnPiecesText(rs: seq<seq<Piece>>): Octets {
    Join(Map(PiecesText, rs), COMMA)
  }

  lemma DnPiecesTextCons(rs: seq<seq<Piece>>)
    requires rs != []
    ensures |rs| == 1 ==> DnPiecesText(rs) == PiecesText(rs[0])
    ensures |rs| > 1 ==> DnPiecesText(rs) == PiecesText(rs[0]) + ([COMMA] + DnPiecesText(rs[1..]))
  {
    MapCons(PiecesText, rs);
  }

  /** One RDN, followed by a comma or a semicolon and more text. */
  lemma RunRdn(str: Octets, p: nat, q: nat, pcs: seq<Piece>, st: Progress, rd: Readers)
    requires AreReadable(pcs, rd) && At(str, p, PiecesText(pcs)) && q == p + |PiecesText(pcs)| && EndsRdn(str, q)
    requires !Escaping(str, p) && st == Progress(st.rdns, [], [], p)
    ensures q == |str| ==> Run(str, p, st, rd) == Ok(DN(st.rdns + [RdnOf(pcs)]))
    ensures q < |str| ==>
              && !Escaping(str, q + 1)
              && Run(str, p, st, rd) == Run(str, q + 1, Progress(st.rdns + [RdnOf(pcs)], [], [], q + 1), rd)
  {
    RunPieces(str, p, q, pcs, st, rd);
    assert [] + Map(AttrOf, pcs) == Map(AttrOf, pcs);
  }

  lemma {:induction false} RunDn(str: Octets, p: nat, rs: seq<seq<Piece>>, st: Progress, rd: Readers)
    requires rs != [] && forall i :: 0 <= i < |rs| ==> AreReadable(rs[i], rd)
    requires At(str, p, DnPiecesText(rs)) && p + |DnPiecesText(rs)| == |str|
    requires !Escaping(str, p) && st == Progress(st.rdns, [], [], p)
    ensures Run(str, p, st, rd) == Ok(DN(st.rdns + Map(RdnOf, rs)))
    decreases |rs|
  {
    DnPiecesTextCons(rs);
    MapCons(RdnOf, rs);
    var r := rs[0];
    if |rs| == 1 {
      RunRdn(str, p, |str|, r, st, rd);
    } else {
      var q := p + |PiecesText(r)|;
      RunComma(str, p, q, r, DnPiecesText(rs[1..]), st, rd);
      RunDn(str, q + 1, rs[1..], Progress(st.rdns + [RdnOf(r)], [], [], q + 1), rd);
      ConsAssoc(st.rdns, RdnOf(r), Map(RdnOf, rs[1..]));
    }
  }

  lemma RunComma(str: Octets, p: nat, q: nat, pcs: seq<Piece>, tail: Octets, st: Progress, rd: Readers)
    requires AreReadable(pcs, rd) && At(str, p, PiecesText(pcs) + ([COMMA] + tail)) && q == p + |PiecesText(pcs)|
    requires !Escaping(str, p) && st == Progress(st.rdns, [], [], p)
    ensures q < |str| && !Escaping(str, q + 1) && At(str, q + 1, tail)
    ensures Run(str, p, st, rd) == Run(str, q + 1, Progress(st.rdns + [RdnOf(pcs)], [], [], q + 1), rd)
  {
    AtSplit(str, p, PiecesText(pcs), [COMMA] + tail);
    AtSplit(str, q, [COMMA], tail);
    AtIndex(str, q, [COMMA], 0);
    RunRdn(str, p, q, pcs, st, rd);
  }

  // ---------------------------------------------------------------- printed names

  function Normal(a: Attribute): Attribute {
    Attribute(Fold(a.typ), a.value)
  }

  function PieceOf(a: Attribute): Piece {
    Piece(Encode(Fold(a.typ), false), Encode(a.value, true), Normal(a))
  }

  lemma EncodedHead(v: Octets)
    ensures Encode(v, true) != [] ==> Encode(v, true)[0] != HASH
  {
  }

  lemma DecodeEncoded(v: Octets, isValue: bool)
    ensures Decode(Encode(v, isValue)) == Some(v)
  {
    DecodeUndoesEncode(0, v, isValue, 0);
    assert Spaces(0) + Encode(v, isValue) + Spaces(0) == Encode(v, isValue);
  }

  lemma ReadEncoded(v: Octets, ber: Octets -> Option<Octets>)
    ensures ReadersWith(ber).value(Encode(v, true)) == Some(v)
  {
    EncodedHead(v);
    DecodeEncoded(v, true);
  }

  lemma PrintedIsReadable(a: Attribute, ber: Octets -> Option<Octets>)
    requires a.typ != []
    ensures IsReadable(PieceOf(a), ReadersWith(ber))
  {
    EncodeClosed(Fold(a.typ), 0, false);
    EncodeClosed(a.value, 0, true);
    DecodeEncoded(Fold(a.typ), false);
    ReadEncoded(a.value, ber);
  }

  lemma {:induction false} MapCompose<A, B, C>(g: B -> C, f: A -> B, h: A -> C, s: seq<A>)
    requires forall i :: 0 <= i < |s| ==> g(f(s[i])) == h(s[i])
    ensures Map(g, Map(f, s)) == Map(h, s)
  {
  }

  /** The attributes of the RDN in printed order, as pieces of text. */
  function PiecesOf(r: RelativeDN): seq<Piece> {
    Map(PieceOf, SortBy(Text, r.attributes))
  }

  lemma PiecesOfText(r: RelativeDN)
    ensures PiecesText(PiecesOf(r)) == RdnText(r)
  {
    var sorted := SortBy(Text, r.attributes);
    MapCompose(PieceText, PieceOf, Text, sorted);
    MapOfSortBy(Text, r.attributes);
  }

  lemma PiecesOfReadable(r: RelativeDN, ber: Octets -> Option<Octets>)
    requires RdnComplete(r)
    ensures AreReadable(PiecesOf(r), ReadersWith(ber))
  {
    var sorted := SortBy(Text, r.attributes);
    SortByKeeps(Text, HasType, r.attributes);
    forall i | 0 <= i < |sorted| ensures IsReadable(PiecesOf(r)[i], ReadersWith(ber)) {
      assert HasType(sorted[i]) in multiset(Map(HasType, sorted));
      assert HasType(sorted[i]) in Map(HasType, r.attributes);
      PrintedIsReadable(sorted[i], ber);
    }
  }

  predicate HasType(a: Attribute) {
    a.typ != []
  }

  /** The name as it comes back: folded types, attributes in printed order. */
  function PrintedRdn(r: RelativeDN): RelativeDN {
    RelativeDN(Map(Normal, SortBy(Text, r.attributes)))
  }

  function Printed(d: DN): DN {
    DN(Map(PrintedRdn, d.rdns))
  }

  lemma {:induction false} BagIsMultiset(attrs: seq<Attribute>)
    ensures Bag(attrs, false) == multiset(Map(Normal, attrs))
  {
    if attrs != [] {
      var n := |attrs| - 1;
      BagIsMultiset(attrs[..n]);
      NormalSnoc(attrs, n);
      MultisetSnoc(Map(Normal, attrs[..n]), Normal(attrs[n]));
    }
  }

  lemma NormalSnoc(attrs: seq<Attribute>, n: nat)
    requires n + 1 == |attrs|
    ensures Map(Normal, attrs) == Map(Normal, attrs[..n]) + [Normal(attrs[n])]
    ensures Key(attrs[n], false) == Normal(attrs[n])
  {
    MapLast(Normal, attrs, n);
  }

  lemma MultisetSnoc<T>(s: seq<T>, x: T)
    ensures multiset(s + [x]) == multiset(s) + multiset{x}
  {
  }

  lemma PrintedRdnEqual(r: RelativeDN)
    ensures RdnEqual(PrintedRdn(r), r, false)
  {
    var sorted := SortBy(Text, r.attributes);
    BagIsMultiset(r.attributes);
    BagIsMultiset(Map(Normal, sorted));
    forall i | 0 <= i < |sorted| ensures Normal(Normal(sorted[i])) == Normal(sorted[i]) {
      FoldIdempotent(sorted[i].typ);
    }
    MapCompose(Normal, Normal, Normal, sorted);
    SortByKeeps(Text, Normal, r.attributes);
  }

  lemma PrintedEqual(d: DN)
    ensures DnEqual(Printed(d), d, false)
  {
    forall i | 0 <= i < |d.rdns| ensures RdnEqual(Printed(d).rdns[i], d.rdns[i], false) {
      PrintedRdnEqual(d.rdns[i]);
    }
    EqualIsPointwise(Printed(d).rdns, d.rdns, false);
  }

  /** The text starts with a visible character. */
  predicate StartsVisibly(s: Octets) {
    s != [] && SPACE < s[0] <= TILDE
  }

  lemma VisibleIsNotBlank(s: Octets)
    requires StartsVisibly(s)
    ensures !IsBlank(s)
  {
    assert Runes(s)[0] == s[0] as int;
  }

  lemma EncodeStartsVisibly(v: Octets, isValue: bool)
    requires v != []
    ensures StartsVisibly(Encode(v, isValue))
  {
    assert Encode(v, isValue)[0] == EncodeOctet(v[0], true, |v| == 1, isValue)[0];
  }

  lemma JoinStartsVisibly(parts: seq<Octets>, sep: byte)
    requires parts != [] && StartsVisibly(parts[0])
    ensures StartsVisibly(Join(parts, sep))
  {
  }

  lemma RdnStartsVisibly(r: RelativeDN)
    requires RdnComplete(r)
    ensures StartsVisibly(RdnText(r))
  {
    PiecesOfText(r);
    PiecesOfReadable(r, _ => None);
    var pc := PiecesOf(r)[0];
    EncodeStartsVisibly(Fold(SortBy(Text, r.attributes)[0].typ), false);
    assert StartsVisibly(PieceText(pc));
    JoinStartsVisibly(Map(PieceText, PiecesOf(r)), PLUS);
  }

  lemma TextNotBlank(d: DN)
    requires d.rdns != [] && IsComplete(d)
    ensures !IsBlank(DnText(d))
  {
    RdnStartsVisibly(d.rdns[0]);
    JoinStartsVisibly(Map(RdnText, d.rdns), COMMA);
    VisibleIsNotBlank(DnText(d));
  }

  lemma ParsePrinted(d: DN, ber: Octets -> Option<Octets>)
    requires IsComplete(d)
    ensures Parse(DnText(d), ber) == Ok(Printed(d))
  {
    if d.rdns == [] {
      assert DnText(d) == [];
    } else {
      TextNotBlank(d);
      var rs := Map(PiecesOf, d.rdns);
      PiecesOfDn(d, ber);
      RunDn(DnText(d), 0, rs, START, ReadersWith(ber));
      assert [] + Map(RdnOf, rs) == Map(RdnOf, rs);
    }
  }

  lemma PiecesOfRdn(r: RelativeDN, ber: Octets -> Option<Octets>)
    requires RdnComplete(r)
    ensures AreReadable(PiecesOf(r), ReadersWith(ber)) && PiecesText(PiecesOf(r)) == RdnText(r)
    ensures RdnOf(PiecesOf(r)) == PrintedRdn(r)
  {
    PiecesOfReadable(r, ber);
    PiecesOfText(r);
    MapCompose(AttrOf, PieceOf, Normal, SortBy(Text, r.attributes));
  }

  lemma PiecesOfDnText(d: DN, ber: Octets -> Option<Octets>)
    requires IsComplete(d)
    ensures DnPiecesText(Map(PiecesOf, d.rdns)) == DnText(d)
  {
    forall i | 0 <= i < |d.rdns| ensures PiecesText(PiecesOf(d.rdns[i])) == RdnText(d.rdns[i]) {
      PiecesOfRdn(d.rdns[i], ber);
    }
    MapCompose(PiecesText, PiecesOf, RdnText, d.rdns);
  }

  lemma PiecesOfDnRead(d: DN, ber: Octets -> Option<Octets>)
    requires IsComplete(d)
    ensures Map(RdnOf, Map(PiecesOf, d.rdns)) == Printed(d).rdns
  {
    forall i | 0 <= i < |d.rdns| ensures RdnOf(PiecesOf(d.rdns[i])) == PrintedRdn(d.rdns[i]) {
      PiecesOfRdn(d.rdns[i], ber);
    }
    MapCompose(RdnOf, PiecesOf, PrintedRdn, d.rdns);
  }

  lemma PiecesOfDn(d: DN, ber: Octets -> Option<Octets>)
    requires IsComplete(d)
    ensures var rs := Map(PiecesOf, d.rdns);
            && (forall i :: 0 <= i < |rs| ==> AreReadable(rs[i], ReadersWith(ber)))
            && DnPiecesText(rs) == DnText(d) && Map(RdnOf, rs) == Printed(d).rdns
  {
    PiecesOfDnText(d, ber);
    PiecesOfDnRead(d, ber);
    forall i | 0 <= i < |d.rdns| ensures AreReadable(PiecesOf(d.rdns[i]), ReadersWith(ber)) {
      PiecesOfRdn(d.rdns[i], ber);
    }
  }

  lemma CompleteIsKept(d: DN, e: DN)
    requires DnEqual(d, e, false) && IsComplete(e)
    ensures IsComplete(d)
  {
    EqualIsPointwise(d.rdns, e.rdns, false);
    forall i | 0 <= i < |d.rdns| ensures RdnComplete(d.rdns[i]) {
      assert RdnEqual(d.rdns[i], e.rdns[i], false);
      RdnCompleteIsKept(d.rdns[i], e.rdns[i]);
    }
  }

  lemma SameMember<T>(a: seq<T>, b: seq<T>, j: nat) returns (k: nat)
    requires multiset(a) == multiset(b) && j < |a|
    ensures k < |b| && b[k] == a[j]
  {
    assert a[j] in multiset(a);
    assert a[j] in b;
    k :| k < |b| && b[k] == a[j];
  }

  lemma RdnCompleteIsKept(r: RelativeDN, s: RelativeDN)
    requires RdnEqual(r, s, false) && RdnComplete(s)
    ensures RdnComplete(r)
  {
    BagIsMultiset(r.attributes);
    BagIsMultiset(s.attributes);
    var rs, ss := Map(Normal, r.attributes), Map(Normal, s.attributes);
    assert |multiset(rs)| == |multiset(ss)|;
    forall j | 0 <= j < |r.attributes| ensures r.attributes[j].typ != [] {
      var k := SameMember(rs, ss, j);
      assert rs[j] == Normal(r.attributes[j]) && ss[k] == Normal(s.attributes[k]);
    }
  }

  /** Parsing the text of a name succeeds with an equal name if and only if every RDN has an
      attribute and every attribute a type; what comes back is the folded name in printed order. */
  lemma RoundTrip(d: DN, ber: Octets -> Option<Octets>)
    requires AreFoldable(d.rdns, false)
    ensures (Parse(DnText(d), ber).Ok? && DnEqual(Parse(DnText(d), ber).dn, d, false)) <==> IsComplete(d)
    ensures IsComplete(d) ==> Parse(DnText(d), ber) == Ok(Printed(d))
  {
    if IsComplete(d) {
      ParsePrinted(d, ber);
      PrintedEqual(d);
    }
    if Parse(DnText(d), ber).Ok? && DnEqual(Parse(DnText(d), ber).dn, d, false) {
      ParseShape(DnText(d), ber);
      EqualIsEquivalence(Parse(DnText(d), ber).dn, d, d, false);
      CompleteIsKept(d, Parse(DnText(d), ber).dn);
    }
  }
}
