/** The normalized text is a canonical form: names have the same text exactly when they are equal. */
module DnCanonical {
  import opened Bytes
  import opened DnEscape
  import opened Lexicographic
  import opened Dn
  import opened DnEquality
  import opened DnRoundTrip

  // ---------------------------------------------------------------- cutting at unescaped separators

  /** The first unescaped separator is the same one however the text is taken apart. */
  lemma CutIsUnique(a: Octets, x: Octets, b: Octets, y: Octets, sep: byte, p: byte -> bool)
    requires Closed(a, p) && Closed(b, p) && !p(sep)
    requires a + ([sep] + x) == b + ([sep] + y)
    ensures a == b && x == y
  {
    var s := a + ([sep] + x);
    if |a| < |b| {
      NotClosedAcross(a, x, b, y, sep, p);
    } else if |b| < |a| {
      NotClosedAcross(b, y, a, x, sep, p);
    } else {
      assert a == s[..|a|] && b == s[..|a|];
      assert [sep] + x == s[|a|..] && [sep] + y == s[|a|..];
      assert x == ([sep] + x)[1..] && y == ([sep] + y)[1..];
    }
  }

  lemma NotClosedAcross(a: Octets, x: Octets, b: Octets, y: Octets, sep: byte, p: byte -> bool)
    requires Closed(a, p) && !p(sep) && |a| < |b|
    requires a + ([sep] + x) == b + ([sep] + y)
    ensures !Closed(b, p)
  {
    var s := a + ([sep] + x);
    assert b[|a|] == s[|a|] == sep;
    assert a == s[..|a|] && s[..|a|] == b[..|a|];
    assert b == b[..|a|] + b[|a|..];
    EscapingPrefix(a, b[|a|..], |a|);
  }

  lemma NoCut(a: Octets, b: Octets, y: Octets, sep: byte, p: byte -> bool)
    requires Closed(b, p) && !p(sep) && a == b + ([sep] + y)
    ensures !Closed(a, p)
  {
    EscapingPrefix(b, [sep] + y, |b|);
    assert a[|b|] == sep;
  }

  ghost predicate AllClosed(parts: seq<Octets>, p: byte -> bool) {
    forall i :: 0 <= i < |parts| ==> Closed(parts[i], p)
  }

  lemma JoinCons(parts: seq<Octets>, sep: byte)
    requires |parts| > 1
    ensures Join(parts, sep) == parts[0] + ([sep] + Join(parts[1..], sep))
  {
  }

  /** Joining nonempty sequences of parts without unescaped separators loses nothing. */
  lemma {:induction false} JoinIsInjective(ss: seq<Octets>, tt: seq<Octets>, sep: byte, p: byte -> bool)
    requires ss != [] && tt != [] && AllClosed(ss, p) && AllClosed(tt, p) && !p(sep)
    requires Join(ss, sep) == Join(tt, sep)
    ensures ss == tt
  {
    if |ss| == 1 && |tt| == 1 {
      assert ss == [ss[0]] && tt == [tt[0]];
    } else if |ss| == 1 {
      JoinCons(tt, sep);
      NoCut(ss[0], tt[0], Join(tt[1..], sep), sep, p);
    } else if |tt| == 1 {
      JoinCons(ss, sep);
      NoCut(tt[0], ss[0], Join(ss[1..], sep), sep, p);
    } else {
      JoinCons(ss, sep);
      JoinCons(tt, sep);
      CutIsUnique(ss[0], Join(ss[1..], sep), tt[0], Join(tt[1..], sep), sep, p);
      JoinIsInjective(ss[1..], tt[1..], sep, p);
      assert ss == [ss[0]] + ss[1..] && tt == [tt[0]] + tt[1..];
    }
  }

  lemma {:induction false} JoinClosed(parts: seq<Octets>, sep: byte, p: byte -> bool)
    requires AllClosed(parts, p) && p(sep) && sep != BACKSLASH
    ensures Closed(Join(parts, sep), p)
  {
    if |parts| > 1 {
      JoinClosed(parts[1..], sep, p);
      JoinCons(parts, sep);
      assert Closed([sep], p);
      ClosedConcat([sep], Join(parts[1..], sep), p);
      ClosedConcat(parts[0], [sep] + Join(parts[1..], sep), p);
    }
  }

  lemma ClosedWeaken(s: Octets, p: byte -> bool, q: byte -> bool)
    requires Closed(s, p) && forall c :: p(c) ==> q(c)
    ensures Closed(s, q)
  {
  }

  // ---------------------------------------------------------------- attributes

  predicate IsNormal(a: Attribute) {
    Fold(a.typ) == a.typ
  }

  lemma EncodeIsInjective(v: Octets, w: Octets, isValue: bool)
    requires Encode(v, isValue) == Encode(w, isValue)
    ensures v == w
  {
    DecodeEncoded(v, isValue);
    DecodeEncoded(w, isValue);
  }

  lemma TextIsInjective(a: Attribute, b: Attribute)
    requires Text(a) == Text(b)
    ensures Normal(a) == Normal(b)
  {
    var ta, tb := Encode(Fold(a.typ), false), Encode(Fold(b.typ), false);
    var va, vb := Encode(a.value, true), Encode(b.value, true);
    EncodeClosed(Fold(a.typ), 0, false);
    EncodeClosed(Fold(b.typ), 0, false);
    CutIsUnique(ta, va, tb, vb, EQUALS, FreeOf(false));
    EncodeIsInjective(Fold(a.typ), Fold(b.typ), false);
    EncodeIsInjective(a.value, b.value, true);
  }

  lemma TextOfNormal(a: Attribute)
    ensures Text(Normal(a)) == Text(a) && IsNormal(Normal(a))
  {
    FoldIdempotent(a.typ);
  }

  lemma TextClosed(a: Attribute)
    ensures Closed(Text(a), FreeOf(true))
  {
    EncodeClosed(Fold(a.typ), 0, false);
    EncodeClosed(a.value, 0, true);
    ClosedWeaken(Encode(Fold(a.typ), false), FreeOf(false), FreeOf(true));
    assert Closed([EQUALS], FreeOf(true));
    ClosedConcat([EQUALS], Encode(a.value, true), FreeOf(true));
    ClosedConcat(Encode(Fold(a.typ), false), [EQUALS] + Encode(a.value, true), FreeOf(true));
  }

  // ---------------------------------------------------------------- RDNs

  /** The texts of the attributes, as a bag, say what the bag of attributes says. */
  lemma TextsDecideBag(cs: seq<Attribute>, bs: seq<Attribute>)
    ensures multiset(Map(Text, cs)) == multiset(Map(Text, bs)) <==> Bag(cs, false) == Bag(bs, false)
  {
    var xs, ys := Map(Normal, cs), Map(Normal, bs);
    forall a: Attribute ensures Text(Normal(a)) == Text(a) && IsNormal(Normal(a)) {
      TextOfNormal(a);
    }
    MapCompose(Text, Normal, Text, cs);
    MapCompose(Text, Normal, Text, bs);
    forall x: Attribute, y: Attribute | IsNormal(x) && IsNormal(y) && Text(x) == Text(y) ensures x == y {
      TextIsInjective(x, y);
    }
    SameThrough(Text, IsNormal, xs, ys);
    BagIsMultiset(cs);
    BagIsMultiset(bs);
  }

  lemma SortedTextsClosed(r: RelativeDN)
    ensures AllClosed(Sort(Map(Text, r.attributes)), FreeOf(true))
    ensures forall i :: 0 <= i < |r.attributes| ==> Sort(Map(Text, r.attributes))[i] != []
  {
    MapOfSortBy(Text, r.attributes);
    SortByKeeps(Text, Text, r.attributes);
    var sorted := SortBy(Text, r.attributes);
    forall i | 0 <= i < |sorted| ensures Closed(Map(Text, sorted)[i], FreeOf(true)) && Map(Text, sorted)[i] != [] {
      TextClosed(sorted[i]);
    }
  }

  /** Two RDNs print alike exactly when they are equal. */
  lemma RdnCanonical(r: RelativeDN, s: RelativeDN)
    ensures RdnText(r) == RdnText(s) <==> RdnEqual(r, s, false)
  {
    var ss, tt := Sort(Map(Text, r.attributes)), Sort(Map(Text, s.attributes));
    SortForgetsOrder(Map(Text, r.attributes), Map(Text, s.attributes));
    TextsDecideBag(r.attributes, s.attributes);
    SortedTextsClosed(r);
    SortedTextsClosed(s);
    if RdnText(r) == RdnText(s) && ss != [] && tt != [] {
      JoinIsInjective(ss, tt, PLUS, FreeOf(true));
    }
  }

  // ---------------------------------------------------------------- DNs

  /** What may stand unescaped inside an RDN. */
  function InsideRdn(): byte -> bool {
    c => c != COMMA && c != SEMICOLON
  }

  lemma RdnClosed(r: RelativeDN)
    ensures Closed(RdnText(r), InsideRdn())
  {
    SortedTextsClosed(r);
    var ss := Sort(Map(Text, r.attributes));
    forall i | 0 <= i < |ss| ensures Closed(ss[i], InsideRdn()) {
      ClosedWeaken(ss[i], FreeOf(true), InsideRdn());
    }
    JoinClosed(ss, PLUS, InsideRdn());
  }

  lemma {:induction false} RdnsCanonical(rs: seq<RelativeDN>, ss: seq<RelativeDN>)
    ensures Map(RdnText, rs) == Map(RdnText, ss) <==> RdnsEqual(rs, ss, false)
  {
    EqualIsPointwise(rs, ss, false);
    forall i | 0 <= i < |rs| && i < |ss| ensures Map(RdnText, rs)[i] == Map(RdnText, ss)[i] <==> RdnEqual(rs[i], ss[i], false) {
      RdnCanonical(rs[i], ss[i]);
    }
    assert |Map(RdnText, rs)| == |rs| && |Map(RdnText, ss)| == |ss|;
  }

  /** No RDNs and one RDN without attributes both print as the empty text. */
  predicate IsEmptyPair(d: DN, e: DN) {
    d.rdns == [] && e.rdns == [RelativeDN([])]
  }

  /** Two names have the same text if and only if they are equal, the one exception being the empty
      name and the name of a single empty RDN. */
  lemma Canonical(d: DN, e: DN)
    requires AreFoldable(d.rdns, false) && AreFoldable(e.rdns, false)
    ensures DnText(d) == DnText(e) <==> DnEqual(d, e, false) || IsEmptyPair(d, e) || IsEmptyPair(e, d)
  {
    var ss, tt := Map(RdnText, d.rdns), Map(RdnText, e.rdns);
    RdnsCanonical(d.rdns, e.rdns);
    forall i | 0 <= i < |d.rdns| ensures Closed(ss[i], InsideRdn()) {
      RdnClosed(d.rdns[i]);
    }
    forall i | 0 <= i < |e.rdns| ensures Closed(tt[i], InsideRdn()) {
      RdnClosed(e.rdns[i]);
    }
    if DnText(d) == DnText(e) {
      if ss != [] && tt != [] {
        JoinIsInjective(ss, tt, COMMA, InsideRdn());
      } else if ss == [] && tt != [] {
        EmptyText(e);
      } else if tt == [] && ss != [] {
        EmptyText(d);
      }
    }
  }

  lemma EmptyText(d: DN)
    requires d.rdns != [] && DnText(d) == []
    ensures d.rdns == [RelativeDN([])]
  {
    var r := d.rdns[0];
    SortedTextsClosed(r);
    assert |d.rdns| == 1;
    assert RdnText(r) == [];
  }

  /** The exception: one text, two names. */
  lemma EmptyRdnIsInvisible()
    ensures DnText(DN([])) == DnText(DN([RelativeDN([])]))
    ensures !DnEqual(DN([]), DN([RelativeDN([])]), false)
  {
    Canonical(DN([]), DN([RelativeDN([])]));
  }

  /** For names without empty RDNs the text alone decides equality. */
  lemma CanonicalWithoutEmptyRdns(d: DN, e: DN)
    requires AreFoldable(d.rdns, false) && AreFoldable(e.rdns, false)
    requires RelativeDN([]) !in d.rdns && RelativeDN([]) !in e.rdns
    ensures DnText(d) == DnText(e) <==> DnEqual(d, e, false)
  {
    Canonical(d, e);
  }

  /** Parsing and printing is idempotent: the text of an accepted name is accepted and unchanged. */
  lemma PrintIsNormal(str: Octets, ber: Octets -> Option<Octets>)
    requires Parse(str, ber).Ok? && AreFoldable(Parse(str, ber).dn.rdns, false)
    ensures var text := DnText(Parse(str, ber).dn);
            Parse(text, ber).Ok? && DnText(Parse(text, ber).dn) == text
  {
    var d := Parse(str, ber).dn;
    ParseShape(str, ber);
    RoundTrip(d, ber);
    PrintedFoldable(d);
    Canonical(Printed(d), d);
  }

  lemma PrintedFoldable(d: DN)
    requires AreFoldable(d.rdns, false)
    ensures AreFoldable(Printed(d).rdns, false)
  {
    forall i | 0 <= i < |d.rdns| ensures IsFoldable(Printed(d).rdns[i].attributes, false) {
      PrintedRdnFoldable(d.rdns[i]);
    }
  }

  lemma PrintedRdnFoldable(r: RelativeDN)
    requires IsFoldable(r.attributes, false)
    ensures IsFoldable(PrintedRdn(r).attributes, false)
  {
    var sorted := SortBy(Text, r.attributes);
    SortByKeeps(Text, HasAsciiType, r.attributes);
    forall j | 0 <= j < |sorted| ensures IsAscii(Normal(sorted[j]).typ) {
      assert HasAsciiType(sorted[j]) in multiset(Map(HasAsciiType, sorted));
      assert HasAsciiType(sorted[j]) in Map(HasAsciiType, r.attributes);
    }
  }

  predicate HasAsciiType(a: Attribute) {
    IsAscii(a.typ)
  }
}
