/** Compiling the text of a filter gives the filter back, exactly when the filter is printable. */
module FilterRoundTrip {
  import opened Bytes
  import opened Utf8
  import opened Filter

  // ---------------------------------------------------------------- what printable means

  /** No octet of `s` is changed by escaping. Attributes and rules are compiled without unescaping. */
  predicate IsPlain(s: Octets) {
    forall i :: 0 <= i < |s| ==> !MustEscape(s[i])
  }

  /** An operator that ends the attribute starts at index `i` of the text. */
  predicate OperatorAt(s: Octets, i: nat) {
    i < |s| &&
    (s[i] == COLON || s[i] == EQUALS ||
     ((s[i] == GREATER || s[i] == LESS || s[i] == TILDE) && i + 1 < |s| && s[i + 1] == EQUALS))
  }

  /** The attribute is plain, is not taken for a set or a negation, and is not cut short by an
      operator of its own or by one it forms with the operator that follows it. */
  predicate AttrOk(attr: Octets, op: Octets) {
    && IsPlain(attr)
    && (attr != [] ==> attr[0] != AMP && attr[0] != PIPE && attr[0] != BANG)
    && (forall i :: 0 <= i < |attr| ==> !OperatorAt(attr + op, i))
  }

  predicate ColonEqualsAt(s: Octets, i: nat) {
    i + 1 < |s| && s[i] == COLON && s[i + 1] == EQUALS
  }

  predicate ReadsAsDn(rule: Octets) {
    rule == [LOWER_D, LOWER_N] || [LOWER_D, LOWER_N, COLON] <= rule
  }

  /** The matching rule is plain, holds no `:=`, does not make one with the colon before it, and is
      not taken for the `dn` marker. */
  predicate RuleOk(rule: Octets, dn: bool) {
    && IsPlain(rule)
    && (rule != [] ==> rule[0] != EQUALS)
    && (forall i :: 0 <= i < |rule| ==> !ColonEqualsAt(rule, i))
    && (!dn ==> !ReadsAsDn(rule))
  }

  predicate PartsOk(parts: seq<Substring>) {
    && parts != []
    && (forall i :: 0 <= i < |parts| ==> parts[i].value != [])
    && (forall i :: 0 <= i < |parts| && parts[i].tag == Initial ==> i == 0)
    && (forall i :: 0 <= i < |parts| && parts[i].tag == Final ==> i == |parts| - 1)
  }

  predicate Printable(t: Filter)
    decreases t
  {
    match t
    case And(children) => forall c :: c in children ==> Printable(c)
    case Or(children) => forall c :: c in children ==> Printable(c)
    case Not(child) => Printable(child)
    case Compare(op, attr, _) => AttrOk(attr, OperatorText(op))
    case Present(attr) => AttrOk(attr, [EQUALS])
    case Substrings(attr, parts) => AttrOk(attr, [EQUALS]) && PartsOk(parts)
    case Extensible(rule, attr, _, dn) => AttrOk(attr, [COLON]) && RuleOk(rule, dn)
  }

  // ---------------------------------------------------------------- escaped text

  predicate IsHexDigit(c: byte) {
    0x30 <= c <= 0x39 || 0x61 <= c <= 0x66
  }

  /** Escaped text is ASCII and holds no parenthesis, asterisk or NUL. */
  predicate IsClean(s: Octets) {
    forall i :: 0 <= i < |s| ==> 0 < s[i] < 0x80 && s[i] != LPAREN && s[i] != RPAREN && s[i] != STAR
  }

  lemma {:induction false} EscapeIsClean(s: Octets)
    ensures IsClean(Escape(s))
  {
    if s != [] {
      EscapeIsClean(s[1..]);
    }
  }

  lemma UnescapeOctet(c: byte, rest: Octets)
    ensures Unescape(EscapeOctet(c) + rest) == Prepend([c], Unescape(rest))
  {
    var e := EscapeOctet(c);
    var s := e + rest;
    assert s[|e|..] == rest;
    assert s[0] == e[0];
    if MustEscape(c) {
      assert s[1] == Hex(c)[0] && s[2] == Hex(c)[1];
    }
  }

  /** `decodeEscapedSymbols` undoes `EscapeFilter` on every octet string. */
  lemma {:induction false} UnescapeOfEscape(s: Octets)
    ensures Unescape(Escape(s)) == Some(s)
  {
    if s != [] {
      UnescapeOfEscape(s[1..]);
      UnescapeOctet(s[0], Escape(s[1..]));
      ConsSelf(s);
    }
  }

  lemma {:induction false} PlainIsUnescaped(s: Octets)
    ensures IsPlain(s) <==> EscapeCount(s) == 0
    ensures IsPlain(s) ==> Escape(s) == s
  {
    if s != [] {
      PlainIsUnescaped(s[1..]);
      if EscapeCount(s) == 0 {
        assert forall i :: 1 <= i < |s| ==> s[i] == s[1..][i - 1];
      }
    }
  }

  lemma EscapePrefixLength(s: Octets, i: nat)
    requires 0 < i <= |s|
    ensures |Escape(s[..i])| == |EscapeOctet(s[0])| + |Escape(s[1..][..i - 1])|
  {
    assert s[..i][0] == s[0] && s[..i][1..] == s[1..][..i - 1];
  }

  /** An octet of escaped text that neither starts nor continues an escape stands for itself. */
  lemma {:induction false} EscapePosition(s: Octets, j: nat) returns (i: nat)
    requires j < |Escape(s)| && Escape(s)[j] != BACKSLASH && !IsHexDigit(Escape(s)[j])
    ensures i < |s| && s[i] == Escape(s)[j]
    ensures j == |Escape(s[..i])|
    ensures Escape(s)[j + 1..] == Escape(s[i + 1..])
  {
    var e := EscapeOctet(s[0]);
    if j < |e| {
      i := 0;
      assert Escape(s)[1..] == Escape(s[1..]);
    } else {
      SkipPrefix(e, Escape(s[1..]), j);
      var i' := EscapePosition(s[1..], j - |e|);
      i := i' + 1;
      EscapePrefixLength(s, i);
      assert s[1..][i' + 1..] == s[i + 1..];
    }
  }

  // ---------------------------------------------------------------- scanning

  /** Over ASCII text the compiler reads octets. */
  lemma RuneAt(f: Octets, p: nat)
    requires p < |f| && f[p] < 0x80
    ensures DecodeRune(f[p..]) == Decoded(f[p] as int, 1)
    ensures EncodeRune(f[p] as int) == [f[p]]
  {
    assert f[p..][0] == f[p];
  }

  lemma ConditionStep(f: Octets, s: Scan, c: byte)
    requires s.state == ReadingCondition && s.pos < |f| && f[s.pos] == c && 0 < c < 0x80 && c != RPAREN
    ensures ScanLoop(f, s) == ScanLoop(f, s.(cond := s.cond + [c], pos := s.pos + 1))
  {
    RuneAt(f, s.pos);
  }

  lemma {:induction false} ScanCondition(f: Octets, s: Scan, c: Octets)
    requires s.state == ReadingCondition && At(f, s.pos, c + [RPAREN])
    requires forall i :: 0 <= i < |c| ==> 0 < c[i] < 0x80 && c[i] != RPAREN
    ensures ScanLoop(f, s) == Stopped(s.(cond := s.cond + c, pos := s.pos + |c|))
    decreases |c|
  {
    AtIndex(f, s.pos, c + [RPAREN], 0);
    RuneAt(f, s.pos);
    if c == [] {
      assert s.cond + c == s.cond;
    } else {
      AtSlice(f, s.pos, c + [RPAREN], 1);
      assert (c + [RPAREN])[1..] == c[1..] + [RPAREN];
      ConditionStep(f, s, c[0]);
      ScanCondition(f, s.(cond := s.cond + [c[0]], pos := s.pos + 1), c[1..]);
      ConsTail(s.cond, c);
    }
  }

  predicate ReadsOn(f: Octets, p: nat, q: nat) {
    q <= |f| && forall i :: p <= i < q ==> 0 < f[i] < 0x80 && f[i] != RPAREN
  }

  lemma CleanReads(f: Octets, p: nat, e: Octets, q: nat)
    requires At(f, p, e) && IsClean(e) && p <= q <= p + |e|
    ensures ReadsOn(f, p, q)
  {
    forall i | p <= i < q ensures 0 < f[i] < 0x80 && f[i] != RPAREN {
      AtIndex(f, p, e, i - p);
    }
  }

  lemma PrefixHead(f: Octets, p: nat, text: Octets)
    requires |text| >= 2
    ensures HasPrefix(f, p, text) ==> p + 1 < |f| && f[p] == text[0] && f[p + 1] == text[1]
    ensures |text| == 2 && p + 1 < |f| && f[p] == text[0] && f[p + 1] == text[1] ==> HasPrefix(f, p, text)
  {
    if p + |text| <= |f| {
      assert f[p..p + |text|][0] == f[p] && f[p..p + |text|][1] == f[p + 1];
    }
  }

  lemma AttrStep(f: Octets, s: Scan)
    requires s.state == ReadingAttr && s.pos < |f| && f[s.pos] < 0x80 && !OperatorAt(f, s.pos)
    ensures ScanStep(f, s) == s.(attr := s.attr + [f[s.pos]], pos := s.pos + 1)
  {
    RuneAt(f, s.pos);
    PrefixHead(f, s.pos, [COLON, LOWER_D, LOWER_N, COLON, EQUALS]);
    PrefixHead(f, s.pos, [COLON, LOWER_D, LOWER_N, COLON]);
    PrefixHead(f, s.pos, [COLON, EQUALS]);
    PrefixHead(f, s.pos, [GREATER, EQUALS]);
    PrefixHead(f, s.pos, [LESS, EQUALS]);
    PrefixHead(f, s.pos, [TILDE, EQUALS]);
  }

  lemma AttrLoop(f: Octets, s: Scan)
    requires s.state == ReadingAttr && s.pos < |f| && 0 < f[s.pos] < 0x80 && f[s.pos] != RPAREN && !OperatorAt(f, s.pos)
    ensures ScanLoop(f, s) == ScanLoop(f, s.(attr := s.attr + [f[s.pos]], pos := s.pos + 1))
  {
    RuneAt(f, s.pos);
    AttrStep(f, s);
  }

  /** Up to the first operator the scanner collects the attribute. */
  lemma {:induction false} ScanAttr(f: Octets, s: Scan, q: nat)
    requires s.state == ReadingAttr && s.pos <= q && ReadsOn(f, s.pos, q)
    requires forall i :: s.pos <= i < q ==> !OperatorAt(f, i)
    ensures ScanLoop(f, s) == ScanLoop(f, s.(attr := s.attr + f[s.pos..q], pos := q))
    decreases q - s.pos
  {
    var p := s.pos;
    if p == q {
      assert s.attr + f[p..q] == s.attr;
    } else {
      AttrLoop(f, s);
      ScanAttr(f, s.(attr := s.attr + [f[p]], pos := p + 1), q);
      ConsSlice(s.attr, f, p, q);
    }
  }

  lemma RuleLoop(f: Octets, s: Scan)
    requires s.state == ReadingRule && s.pos < |f| && 0 < f[s.pos] < 0x80 && f[s.pos] != RPAREN && !ColonEqualsAt(f, s.pos)
    ensures ScanLoop(f, s) == ScanLoop(f, s.(rule := s.rule + [f[s.pos]], pos := s.pos + 1))
  {
    RuneAt(f, s.pos);
    PrefixHead(f, s.pos, [COLON, EQUALS]);
  }

  /** Up to the first `:=` and behind it, the scanner collects the matching rule. */
  lemma {:induction false} ScanRule(f: Octets, s: Scan, q: nat, t: Scan)
    requires s.state == ReadingRule && s.pos <= q && ReadsOn(f, s.pos, q) && ColonEqualsAt(f, q)
    requires forall i :: s.pos <= i < q ==> !ColonEqualsAt(f, i)
    requires t == s.(rule := s.rule + f[s.pos..q], state := ReadingCondition, pos := q + 2)
    ensures ScanLoop(f, s) == ScanLoop(f, t)
    decreases q - s.pos
  {
    var p := s.pos;
    if p == q {
      assert s.rule + f[p..q] == s.rule;
      ColonEqualsStep(f, s);
    } else {
      RuleLoop(f, s);
      ConsSlice(s.rule, f, p, q);
      ScanRule(f, s.(rule := s.rule + [f[p]], pos := p + 1), q, t);
    }
  }

  lemma ColonEqualsStep(f: Octets, s: Scan)
    requires s.state == ReadingRule && ColonEqualsAt(f, s.pos)
    ensures ScanLoop(f, s) == ScanLoop(f, s.(state := ReadingCondition, pos := s.pos + 2))
  {
    LoopStep(f, s);
    PrefixHead(f, s.pos, [COLON, EQUALS]);
  }

  // ---------------------------------------------------------------- attributes and rules, exactly

  lemma {:induction false} FirstOperator(f: Octets, p: nat, last: nat) returns (q: nat)
    requires p <= last && OperatorAt(f, last)
    ensures p <= q <= last && OperatorAt(f, q)
    ensures forall i :: p <= i < q ==> !OperatorAt(f, i)
    decreases last - p
  {
    q := p;
    if !OperatorAt(f, p) {
      q := FirstOperator(f, p + 1, last);
    }
  }

  lemma {:induction false} FirstColonEquals(f: Octets, p: nat, last: nat) returns (q: nat)
    requires p <= last && ColonEqualsAt(f, last)
    ensures p <= q <= last && ColonEqualsAt(f, q)
    ensures forall i :: p <= i < q ==> !ColonEqualsAt(f, i)
    decreases last - p
  {
    q := p;
    if !ColonEqualsAt(f, p) {
      q := FirstColonEquals(f, p + 1, last);
    }
  }

  /** A cut behind as many octets as the whole text has, in the middle of its escaped form. */
  lemma BehindCut(s: Octets, i: nat)
    requires i < |s| && |Escape(s[..i])| == |s|
    ensures i + 1 < |s| && Escape(s[i + 1..]) != []
    ensures Escape(s[i + 1..])[0] == EQUALS ==> s[i + 1] == EQUALS
  {
    EscapeLength(s[..i]);
    var tail := s[i + 1..];
    assert tail[0] == s[i + 1];
  }

  lemma TailAt(f: Octets, p: nat, text: Octets, k: nat)
    requires At(f, p, text) && k <= |text| && text[k..] != []
    ensures k < |text| && f[p + k] == text[k..][0]
  {
    AtIndex(f, p, text, k);
  }

  /** Text cut before the end of the escaped form can equal the original only if the cut is at an
      octet that stands for itself, which the parity of the lengths then puts before the last one. */
  lemma CutInside(f: Octets, p: nat, s: Octets, q: nat) returns (i: nat)
    requires At(f, p, Escape(s)) && p <= q < p + |Escape(s)| && f[p..q] == s
    requires f[q] != BACKSLASH && !IsHexDigit(f[q])
    ensures i + 1 < |s| && s[i] == f[q] && p + i + 1 < q
    ensures f[p + i] == f[q]
    ensures q + 1 < p + |Escape(s)| && (f[q + 1] == EQUALS ==> f[p + i + 1] == EQUALS)
  {
    AtIndex(f, p, Escape(s), q - p);
    i := EscapePosition(s, q - p);
    BehindCut(s, i);
    TailAt(f, p, Escape(s), q - p + 1);
    SliceIndex(f, p, q, s, i);
    SliceIndex(f, p, q, s, i + 1);
  }

  lemma SliceIndex(f: Octets, p: nat, q: nat, s: Octets, i: nat)
    requires p <= q <= |f| && f[p..q] == s && i < |s|
    ensures p + i < q && f[p + i] == s[i]
  {
    assert f[p..q][i] == f[p + i];
  }

  /** So the cut was not at the first operator, nor at the first `:=`. */
  lemma CutHasEarlierStop(f: Octets, p: nat, s: Octets, q: nat)
    requires At(f, p, Escape(s)) && p <= q < p + |Escape(s)| && f[p..q] == s
    ensures OperatorAt(f, q) ==> exists k :: p <= k < q && OperatorAt(f, k)
    ensures ColonEqualsAt(f, q) ==> exists k :: p <= k < q && ColonEqualsAt(f, k)
  {
    if OperatorAt(f, q) {
      var i := CutInside(f, p, s, q);
      assert OperatorAt(f, p + i);
      if ColonEqualsAt(f, q) {
        assert ColonEqualsAt(f, p + i);
      }
    }
  }

  lemma PlainAt(f: Octets, p: nat, s: Octets, op: Octets)
    requires At(f, p, Escape(s) + op) && IsPlain(s)
    ensures Escape(s) == s && p + |s| + |op| <= |f| && f[p..p + |s|] == s
    ensures forall i :: 0 <= i < |s| + |op| ==> f[p + i] == (s + op)[i]
  {
    PlainIsUnescaped(s);
    AtSplit(f, p, s, op);
    forall i | 0 <= i < |s| + |op| ensures f[p + i] == (s + op)[i] {
      AtIndex(f, p, s + op, i);
    }
  }

  /** The scanned attribute is the printed one exactly when that one has the right shape. */
  lemma AttrExact(f: Octets, p: nat, attr: Octets, op: Octets, q: nat)
    requires At(f, p, Escape(attr) + op) && op != []
    requires p <= q <= p + |Escape(attr)| && OperatorAt(f, q)
    requires forall i :: p <= i < q ==> !OperatorAt(f, i)
    ensures f[p..q] == attr <==> IsPlain(attr) && forall i :: 0 <= i < |attr| ==> !OperatorAt(attr + op, i)
    ensures f[p..q] == attr ==> q == p + |attr| && Escape(attr) == attr
  {
    AtSplit(f, p, Escape(attr), op);
    EscapeLength(attr);
    PlainIsUnescaped(attr);
    if IsPlain(attr) {
      PlainAt(f, p, attr, op);
      assert forall i :: 0 <= i < |attr| ==> (OperatorAt(attr + op, i) <==> OperatorAt(f, p + i));
      if f[p..q] == attr {
        assert q == p + |attr|;
      } else if q < p + |attr| {
        assert OperatorAt(attr + op, q - p);
      }
    } else if f[p..q] == attr {
      CutHasEarlierStop(f, p, attr, q);
    }
  }

  lemma SameColonEquals(f: Octets, p: nat, rule: Octets)
    requires p + |rule| < |f| && f[p + |rule|] == COLON
    requires forall i :: 0 <= i < |rule| ==> f[p + i] == rule[i]
    ensures forall i :: 0 <= i < |rule| ==> (ColonEqualsAt(rule, i) <==> ColonEqualsAt(f, p + i))
  {
  }

  lemma RuleExact(f: Octets, p: nat, rule: Octets, q: nat)
    requires At(f, p, Escape(rule) + [COLON, EQUALS])
    requires p <= q <= p + |Escape(rule)| && ColonEqualsAt(f, q)
    requires forall i :: p <= i < q ==> !ColonEqualsAt(f, i)
    ensures f[p..q] == rule <==> IsPlain(rule) && forall i :: 0 <= i < |rule| ==> !ColonEqualsAt(rule, i)
    ensures f[p..q] == rule ==> q == p + |rule| && Escape(rule) == rule
  {
    AtSplit(f, p, Escape(rule), [COLON, EQUALS]);
    EscapeLength(rule);
    PlainIsUnescaped(rule);
    if IsPlain(rule) {
      PlainAt(f, p, rule, [COLON, EQUALS]);
      SameColonEquals(f, p, rule);
      if f[p..q] == rule {
        assert q == p + |rule|;
      } else if q < p + |rule| {
        assert ColonEqualsAt(rule, q - p);
      }
    } else if f[p..q] == rule {
      CutHasEarlierStop(f, p, rule, q);
    }
  }

  // ---------------------------------------------------------------- substrings, exactly

  predicate IsReadable(s: Octets) {
    forall i :: 0 <= i < |s| ==> 0 < s[i] < 0x80 && s[i] != RPAREN
  }

  lemma {:induction false} PartsTextReadable(parts: seq<Substring>)
    ensures IsReadable(PartsText(parts))
  {
    if parts != [] {
      PartsTextReadable(parts[..|parts| - 1]);
      EscapeIsClean(parts[|parts| - 1].value);
    }
  }

  function Join(pieces: seq<Octets>): Octets
    requires pieces != []
  {
    if |pieces| == 1 then pieces[0] else pieces[0] + [STAR] + Join(pieces[1..])
  }

  lemma {:induction false} JoinLast(xs: seq<Octets>, a: Octets, b: Octets)
    ensures Join(xs + [a]) + b == Join(xs + [a + b])
    ensures Join(xs + [a]) + [STAR] + b == Join(xs + [a, b])
  {
    if xs == [] {
      assert xs + [a] == [a] && xs + [a + b] == [a + b] && xs + [a, b] == [a, b];
      assert [a, b][1..] == [b];
    } else {
      assert (xs + [a])[1..] == xs[1..] + [a];
      assert (xs + [a + b])[1..] == xs[1..] + [a + b];
      assert (xs + [a, b])[1..] == xs[1..] + [a, b];
      JoinLast(xs[1..], a, b);
    }
  }

  lemma {:induction false} SplitFree(s: Octets, rest: Octets)
    requires STAR !in s
    ensures Split(s) == [s]
    ensures Split(s + [STAR] + rest) == [s] + Split(rest)
  {
    var t := s + [STAR] + rest;
    if s == [] {
      assert t[1..] == rest;
    } else {
      assert t[1..] == s[1..] + [STAR] + rest;
      assert [s[0]] + s[1..] == s;
      SplitFree(s[1..], rest);
    }
  }

  lemma {:induction false} SplitOfJoin(pieces: seq<Octets>)
    requires pieces != [] && forall i :: 0 <= i < |pieces| ==> STAR !in pieces[i]
    ensures Split(Join(pieces)) == pieces
  {
    if |pieces| == 1 {
      SplitFree(pieces[0], []);
      assert pieces == [pieces[0]];
    } else {
      SplitFree(pieces[0], Join(pieces[1..]));
      SplitOfJoin(pieces[1..]);
    }
  }

  function Lead(parts: seq<Substring>): seq<Octets>
    requires parts != []
  {
    if parts[0].tag != Initial then [[]] else []
  }

  function Trail(parts: seq<Substring>): seq<Octets>
    requires parts != []
  {
    if parts[|parts| - 1].tag != Final then [[]] else []
  }

  function Escaped(parts: seq<Substring>): (es: seq<Octets>)
    ensures |es| == |parts|
    ensures forall i :: 0 <= i < |parts| ==> es[i] == Escape(parts[i].value)
  {
    if parts == [] then [] else Escaped(parts[..|parts| - 1]) + [Escape(parts[|parts| - 1].value)]
  }

  /** The pieces between the asterisks of the printed substrings. */
  function Pieces(parts: seq<Substring>): seq<Octets>
    requires parts != []
  {
    Lead(parts) + Escaped(parts) + Trail(parts)
  }

  lemma JoinTwo(a: Octets, b: Octets)
    ensures Join([a, b]) == a + [STAR] + b
  {
    assert [a, b][1..] == [b];
  }

  lemma JoinThree(a: Octets, b: Octets, c: Octets)
    ensures Join([a, b, c]) == a + [STAR] + (b + [STAR] + c)
  {
    assert [a, b, c][1..] == [b, c];
    JoinTwo(b, c);
  }

  lemma PiecesOne(p: Substring)
    ensures Pieces([p]) == (if p.tag != Initial then [[]] else []) + [Escape(p.value)] + (if p.tag != Final then [[]] else [])
  {
    assert Escaped([p]) == [Escape(p.value)];
  }

  lemma JoinOne(p: Substring)
    ensures PartText(p, true) == Join(Pieces([p]))
  {
    var e := Escape(p.value);
    PiecesOne(p);
    match p.tag {
      case Initial =>
        assert [] + [e] + [[]] == [e, []];
        JoinTwo(e, []);
      case Any =>
        assert [[]] + [e] + [[]] == [[], e, []];
        JoinThree([], e, []);
      case Final =>
        assert [[]] + [e] + [] == [[], e];
        JoinTwo([], e);
    }
  }

  lemma JoinNext(xs: seq<Octets>, p: Substring)
    ensures Join(xs + [[]]) + PartText(p, false) == Join(xs + [Escape(p.value)] + if p.tag != Final then [[]] else [])
  {
    var e := Escape(p.value);
    JoinLast(xs, [], e);
    assert [] + e == e;
    if p.tag == Final {
      assert xs + [e] + [] == xs + [e];
      assert PartText(p, false) == e;
    } else {
      JoinLast(xs, e, []);
      assert xs + [e] + [[]] == xs + [e, []];
      assert Join(xs + [[]]) + (e + [STAR]) == Join(xs + [[]]) + e + [STAR] + [];
      assert PartText(p, false) == e + [STAR];
    }
  }

  lemma PiecesSnoc(parts: seq<Substring>)
    requires PartsOk(parts) && |parts| > 1
    ensures var prefix, last := parts[..|parts| - 1], parts[|parts| - 1];
      var xs := Lead(parts) + Escaped(prefix);
      && PartsOk(prefix) && Pieces(prefix) == xs + [[]]
      && Pieces(parts) == xs + [Escape(last.value)] + Trail(parts)
  {
    var n := |parts|;
    assert parts[..n - 1][n - 2] == parts[n - 2];
    assert (Lead(parts) + Escaped(parts[..n - 1])) + [Escape(parts[n - 1].value)]
        == Lead(parts) + (Escaped(parts[..n - 1]) + [Escape(parts[n - 1].value)]);
  }

  lemma {:induction false} PartsTextJoins(parts: seq<Substring>)
    requires PartsOk(parts)
    ensures PartsText(parts) == Join(Pieces(parts))
  {
    var n := |parts|;
    var last := parts[n - 1];
    if n == 1 {
      assert parts == [last];
      assert PartsText(parts[..0]) == [];
      JoinOne(last);
    } else {
      var prefix := parts[..n - 1];
      PartsTextJoins(prefix);
      PiecesSnoc(parts);
      JoinNext(Lead(parts) + Escaped(prefix), last);
    }
  }

  ghost predicate PiecesOf(pieces: seq<Octets>, lead: nat, parts: seq<Substring>) {
    && lead + |parts| <= |pieces| <= lead + |parts| + 1
    && (lead + |parts| < |pieces| ==> pieces[lead + |parts|] == [])
    && forall j :: 0 <= j < |parts| ==>
      && pieces[lead + j] == Escape(parts[j].value) != []
      && PartTag(lead + j, |pieces|) == parts[j].tag
  }

  lemma PieceFits(parts: seq<Substring>, j: nat)
    requires PartsOk(parts) && j < |parts|
    ensures |Pieces(parts)| == |Lead(parts)| + |parts| + |Trail(parts)|
    ensures Pieces(parts)[|Lead(parts)| + j] == Escape(parts[j].value) != []
    ensures PartTag(|Lead(parts)| + j, |Pieces(parts)|) == parts[j].tag
  {
    EscapeLength(parts[j].value);
  }

  lemma PiecesFit(parts: seq<Substring>)
    requires PartsOk(parts)
    ensures PiecesOf(Pieces(parts), |Lead(parts)|, parts)
  {
    forall j | 0 <= j < |parts|
      ensures Pieces(parts)[|Lead(parts)| + j] == Escape(parts[j].value) != []
      ensures PartTag(|Lead(parts)| + j, |Pieces(parts)|) == parts[j].tag
    {
      PieceFits(parts, j);
    }
  }

  lemma BuildStep(pieces: seq<Octets>, i: nat, v: Octets, rest: seq<Substring>)
    requires i < |pieces| && pieces[i] != [] && Unescape(pieces[i]) == Some(v)
    requires BuildParts(pieces, i + 1) == Some(rest)
    ensures BuildParts(pieces, i) == Some([Substring(PartTag(i, |pieces|), v)] + rest)
  {
  }

  lemma {:induction false} BuildPieces(pieces: seq<Octets>, lead: nat, parts: seq<Substring>, k: nat)
    requires PiecesOf(pieces, lead, parts) && k <= |parts|
    ensures BuildParts(pieces, lead + k) == Some(parts[k..])
    decreases |parts| - k
  {
    if k < |parts| {
      assert pieces[lead + k] == Escape(parts[k].value);
      UnescapeOfEscape(parts[k].value);
      BuildPieces(pieces, lead, parts, k + 1);
      BuildStep(pieces, lead + k, parts[k].value, parts[k + 1..]);
      SliceCons(parts, k);
    } else {
      assert parts[k..] == [];
      assert lead + k < |pieces| ==> BuildParts(pieces, lead + k) == BuildParts(pieces, lead + k + 1);
    }
  }

  lemma {:induction false} BuildShape(pieces: seq<Octets>, i: nat, out: seq<Substring>)
    requires i <= |pieces| && BuildParts(pieces, i) == Some(out)
    ensures forall k :: 0 <= k < |out| ==> out[k].value != []
    ensures forall k :: 0 <= k < |out| && out[k].tag == Initial ==> i == 0 && k == 0
    ensures forall k :: 0 <= k < |out| && out[k].tag == Final ==> k == |out| - 1
    decreases |pieces| - i
  {
    if i < |pieces| {
      if pieces[i] == [] {
        BuildShape(pieces, i + 1, out);
      } else {
        var rest := BuildParts(pieces, i + 1).value;
        BuildShape(pieces, i + 1, rest);
      }
    }
  }

  lemma PartsTextHasStar(parts: seq<Substring>)
    requires PartsOk(parts)
    ensures STAR in PartsText(parts) && PartsText(parts) != [STAR]
  {
    var n := |parts|;
    var last := parts[n - 1];
    EscapeLength(last.value);
    var text := PartText(last, n == 1);
    assert |text| >= 1;
    if n == 1 {
      assert PartsText(parts) == PartsText(parts[..0]) + text;
      assert STAR in text && |text| >= 2;
    } else {
      var before := parts[n - 2];
      assert parts[..n - 1][n - 2] == before && before.tag != Final;
      var prefix := PartsText(parts[..n - 1]);
      assert prefix[|prefix| - 1] == STAR;
    }
  }

  lemma PiecesAreStarless(parts: seq<Substring>)
    requires parts != []
    ensures forall i :: 0 <= i < |Pieces(parts)| ==> STAR !in Pieces(parts)[i]
  {
    forall i | 0 <= i < |Pieces(parts)| ensures STAR !in Pieces(parts)[i] {
      if |Lead(parts)| <= i < |Lead(parts)| + |parts| {
        EscapeIsClean(parts[i - |Lead(parts)|].value);
      }
    }
  }

  lemma PiecesBuild(parts: seq<Substring>)
    requires PartsOk(parts)
    ensures BuildParts(Pieces(parts), 0) == Some(parts)
  {
    PiecesFit(parts);
    BuildPieces(Pieces(parts), |Lead(parts)|, parts, 0);
    assert parts[0..] == parts;
  }

  /** Splitting the printed substrings gives them back exactly when they have the right shape. */
  lemma PartsExact(parts: seq<Substring>)
    ensures PartsOk(parts) ==>
              && STAR in PartsText(parts) && PartsText(parts) != [STAR]
              && BuildParts(Split(PartsText(parts)), 0) == Some(parts)
    ensures STAR in PartsText(parts) && BuildParts(Split(PartsText(parts)), 0) == Some(parts) ==> PartsOk(parts)
  {
    if PartsOk(parts) {
      PartsTextHasStar(parts);
      PartsTextJoins(parts);
      PiecesAreStarless(parts);
      SplitOfJoin(Pieces(parts));
      PiecesBuild(parts);
    }
    if STAR in PartsText(parts) && BuildParts(Split(PartsText(parts)), 0) == Some(parts) {
      BuildShape(Split(PartsText(parts)), 0, parts);
    }
  }

  // ---------------------------------------------------------------- items, exactly

  predicate IsItem(t: Filter) {
    !t.And? && !t.Or? && !t.Not?
  }

  /** Compiling at `p` gives `t` back exactly when `t` is printable, and then reads `n` octets. */
  ghost predicate ExactAt(f: Octets, p: nat, t: Filter, n: nat)
    requires p <= |f|
  {
    var r := Compile(f, p);
    && (Printable(t) <==> r.Done? && r.node == t)
    && (r.Done? && r.node == t ==> r.pos == p + n)
  }

  lemma ItemDispatch(f: Octets, p: nat)
    requires p < |f| && f[p] < 0x80 && f[p] != LPAREN && f[p] != AMP && f[p] != PIPE && f[p] != BANG
    ensures Compile(f, p) == CompileItem(f, p)
  {
    RuneAt(f, p);
  }

  lemma {:induction false} ScanFrozen(f: Octets, s: Scan)
    requires s.pos <= |f| && s.state != ReadingAttr && ScanLoop(f, s).Stopped?
    ensures var t := ScanLoop(f, s).scan;
            && t.attr == s.attr && t.packet == s.packet && t.dn == s.dn
            && (s.state == ReadingCondition ==> t.rule == s.rule)
    decreases |f| - s.pos
  {
    if s.pos < |f| {
      var d := DecodeRune(f[s.pos..]);
      if d.rune != RPAREN as int && d.rune != RUNE_ERROR {
        ScanFrozen(f, ScanStep(f, s));
      }
    }
  }

  lemma LoopStep(f: Octets, s: Scan)
    requires s.pos < |f| && f[s.pos] < 0x80 && f[s.pos] != RPAREN
    ensures ScanLoop(f, s) == ScanLoop(f, ScanStep(f, s))
  {
    RuneAt(f, s.pos);
  }

  lemma OperatorStep(f: Octets, s: Scan)
    requires s.state == ReadingAttr && OperatorAt(f, s.pos)
    ensures ScanLoop(f, s) == ScanLoop(f, ScanStep(f, s))
    ensures ScanStep(f, s).state != ReadingAttr && ScanStep(f, s).attr == s.attr
  {
    LoopStep(f, s);
    OperatorEndsAttr(f, s);
  }

  lemma OperatorEndsAttr(f: Octets, s: Scan)
    requires s.state == ReadingAttr && OperatorAt(f, s.pos)
    ensures ScanStep(f, s).state != ReadingAttr && ScanStep(f, s).attr == s.attr
  {
    RuneAt(f, s.pos);
    PrefixHead(f, s.pos, [GREATER, EQUALS]);
    PrefixHead(f, s.pos, [LESS, EQUALS]);
    PrefixHead(f, s.pos, [TILDE, EQUALS]);
  }

  /** The scan reaches the first operator; it stands behind the whole attribute exactly when the
      attribute has the right shape. */
  lemma ScanToOperator(f: Octets, p: nat, attr: Octets, op: Octets) returns (s: Scan)
    requires At(f, p, Escape(attr) + op) && op != [] && OperatorAt(f, p + |Escape(attr)|)
    ensures p <= s.pos && OperatorAt(f, s.pos) && s == StartScan(s.pos).(attr := f[p..s.pos])
    ensures ScanLoop(f, StartScan(p)) == ScanLoop(f, s)
    ensures s.attr == attr <==> IsPlain(attr) && forall i :: 0 <= i < |attr| ==> !OperatorAt(attr + op, i)
    ensures s.attr == attr ==> s.pos == p + |attr| && |Escape(attr)| == |attr|
  {
    var q := FirstOperator(f, p, p + |Escape(attr)|);
    AtSplit(f, p, Escape(attr), op);
    EscapeIsClean(attr);
    CleanReads(f, p, Escape(attr), q);
    ScanAttr(f, StartScan(p), q);
    assert [] + f[p..q] == f[p..q];
    AttrExact(f, p, attr, op, q);
    s := StartScan(q).(attr := f[p..q]);
  }

  lemma BuildKeepsAttr(s: Scan)
    requires s.packet.Some?
    ensures Build(s).Done? ==> IsItem(Build(s).node) && Build(s).node.attr == s.attr
  {
  }

  /** A wrong attribute is never repaired later. */
  lemma WrongAttr(f: Octets, p: nat, s: Scan)
    requires p <= |f| && s.state == ReadingAttr && OperatorAt(f, s.pos)
    requires ScanLoop(f, StartScan(p)) == ScanLoop(f, s)
    ensures CompileItem(f, p).Done? ==> IsItem(CompileItem(f, p).node) && CompileItem(f, p).node.attr == s.attr
  {
    OperatorStep(f, s);
    if ScanLoop(f, s).Stopped? {
      ScanFrozen(f, ScanStep(f, s));
      var t := ScanLoop(f, s).scan;
      if t.packet.Some? { BuildKeepsAttr(t); }
    }
  }

  /** The first octet of an item decides how it is compiled: as an item, unless its attribute
      starts like a set or a negation. */
  lemma ItemHead(f: Octets, p: nat, attr: Octets, op: Octets)
    requires At(f, p, Escape(attr) + op) && op != [] && op[0] < 0x80
    requires op[0] != LPAREN && op[0] != AMP && op[0] != PIPE && op[0] != BANG
    ensures p < |f|
    ensures attr != [] && (attr[0] == AMP || attr[0] == PIPE || attr[0] == BANG) ==> f[p] == attr[0]
    ensures (attr != [] ==> attr[0] != AMP && attr[0] != PIPE && attr[0] != BANG) ==>
              Compile(f, p) == CompileItem(f, p)
  {
    AtIndex(f, p, Escape(attr) + op, 0);
    if attr != [] {
      assert (Escape(attr) + op)[0] == EscapeOctet(attr[0])[0];
    } else {
      assert (Escape(attr) + op)[0] == op[0];
    }
    if attr != [] ==> attr[0] != AMP && attr[0] != PIPE && attr[0] != BANG {
      ItemDispatch(f, p);
    }
  }

  lemma NotAnItem(f: Octets, p: nat)
    requires p < |f| && (f[p] == AMP || f[p] == PIPE || f[p] == BANG)
    ensures Compile(f, p).Done? ==> !IsItem(Compile(f, p).node)
  {
    RuneAt(f, p);
  }

  /** An attribute of the right shape is read whole, and the scan arrives at the operator. */
  lemma AttrRead(f: Octets, p: nat, attr: Octets, op: Octets, q: nat)
    requires At(f, p, Escape(attr) + op) && op != [] && q == p + |Escape(attr)| && OperatorAt(f, q) && AttrOk(attr, op)
    ensures ScanLoop(f, StartScan(p)) == ScanLoop(f, StartScan(q).(attr := attr))
  {
    var s := ScanToOperator(f, p, attr, op);
    assert s == StartScan(q).(attr := attr);
  }

  /** An item with such an attribute is compiled as an item. */
  lemma ItemRead(f: Octets, p: nat, attr: Octets, op: Octets)
    requires At(f, p, Escape(attr) + op) && AttrOk(attr, op) && op != [] && OperatorAt(op, 0)
    ensures p <= |f| && Compile(f, p) == CompileItem(f, p)
  {
    ItemHead(f, p, attr, op);
  }

  /** An item whose attribute has another shape does not come back. */
  lemma ItemMisread(f: Octets, p: nat, t: Filter, op: Octets)
    requires IsItem(t) && At(f, p, Escape(t.attr) + op) && OperatorAt(f, p + |Escape(t.attr)|) && !AttrOk(t.attr, op)
    requires op != [] && OperatorAt(op, 0)
    ensures p <= |f| && !(Compile(f, p).Done? && Compile(f, p).node == t)
  {
    var s := ScanToOperator(f, p, t.attr, op);
    ItemHead(f, p, t.attr, op);
    if t.attr != [] && (t.attr[0] == AMP || t.attr[0] == PIPE || t.attr[0] == BANG) {
      NotAnItem(f, p);
    } else {
      WrongAttr(f, p, s);
    }
  }

  /** The operator of a comparison is read as itself. */
  lemma CompareStep(f: Octets, s: Scan, op: Comparison)
    requires s.state == ReadingAttr && At(f, s.pos, OperatorText(op))
    ensures ScanLoop(f, s) == ScanLoop(f, ScanStep(f, s))
    ensures ScanStep(f, s) ==
            s.(packet := Some(Comparing(op)), state := ReadingCondition, pos := s.pos + |OperatorText(op)|)
  {
    AtIndex(f, s.pos, OperatorText(op), 0);
    if op != EqualityMatch {
      AtIndex(f, s.pos, OperatorText(op), 1);
    }
    LoopStep(f, s);
    RuneAt(f, s.pos);
    PrefixHead(f, s.pos, [COLON, LOWER_D, LOWER_N, COLON, EQUALS]);
    PrefixHead(f, s.pos, [COLON, LOWER_D, LOWER_N, COLON]);
    PrefixHead(f, s.pos, [COLON, EQUALS]);
    PrefixHead(f, s.pos, [GREATER, EQUALS]);
    PrefixHead(f, s.pos, [LESS, EQUALS]);
    PrefixHead(f, s.pos, [TILDE, EQUALS]);
  }

  /** From the condition on, the rest of the item is its condition. */
  lemma ConditionEnds(f: Octets, s: Scan, c: Octets, v: Scan)
    requires s.state == ReadingCondition && s.cond == [] && At(f, s.pos, c + [RPAREN]) && IsReadable(c)
    requires v == s.(cond := c, pos := s.pos + |c|)
    ensures ScanLoop(f, s) == Stopped(v) && v.pos < |f|
  {
    assert s.cond + c == c;
    AtIndex(f, s.pos, c + [RPAREN], |c|);
    ScanCondition(f, s, c);
  }

  lemma ItemBuilds(f: Octets, p: nat, v: Scan)
    requires p <= |f| && ScanLoop(f, StartScan(p)) == Stopped(v) && v.pos < |f| && v.packet.Some?
    ensures CompileItem(f, p) == Build(v)
  {
  }

  lemma OperatorStarts(f: Octets, p: nat, op: Comparison)
    requires At(f, p, OperatorText(op))
    ensures OperatorAt(f, p) && OperatorAt(OperatorText(op), 0)
  {
    AtIndex(f, p, OperatorText(op), 0);
    if op != EqualityMatch {
      AtIndex(f, p, OperatorText(op), 1);
    }
  }

  lemma AtPieces(f: Octets, p: nat, a: Octets, o: Octets, c: Octets)
    requires At(f, p, a + o + c + [RPAREN])
    ensures At(f, p, a + o) && At(f, p + |a|, o) && At(f, p + |a| + |o|, c + [RPAREN])
  {
    assert a + o + c + [RPAREN] == (a + o) + (c + [RPAREN]);
    AtSplit(f, p, a + o, c + [RPAREN]);
    AtSplit(f, p, a, o);
  }

  lemma CompareLoop(f: Octets, s: Scan, op: Comparison, u: Scan)
    requires s.state == ReadingAttr && At(f, s.pos, OperatorText(op))
    requires u == s.(packet := Some(Comparing(op)), state := ReadingCondition, pos := s.pos + |OperatorText(op)|)
    ensures ScanLoop(f, s) == ScanLoop(f, u)
  {
    CompareStep(f, s, op);
  }

  lemma ComparisonTail(f: Octets, s: Scan, op: Comparison, c: Octets, m: nat, v: Scan)
    requires s.state == ReadingAttr && s.cond == [] && IsReadable(c) && m == s.pos + |OperatorText(op)|
    requires At(f, s.pos, OperatorText(op)) && At(f, m, c + [RPAREN])
    requires v == s.(packet := Some(Comparing(op)), state := ReadingCondition, cond := c, pos := m + |c|)
    ensures ScanLoop(f, s) == Stopped(v) && v.pos < |f|
  {
    var u := s.(packet := Some(Comparing(op)), state := ReadingCondition, pos := m);
    CompareLoop(f, s, op, u);
    ConditionEnds(f, u, c, v);
  }

  /** The scan at the end of a comparison. */
  function CompareEnd(q: nat, attr: Octets, op: Comparison, c: Octets): Scan {
    Scan(ReadingCondition, Some(Comparing(op)), attr, false, [], c, q + |OperatorText(op)| + |c|)
  }

  /** A scan that reads the attribute and then ends in `v`. */
  lemma ScanOf(f: Octets, p: nat, attr: Octets, o: Octets, s: Scan, v: Scan)
    requires At(f, p, Escape(attr) + o) && o != [] && OperatorAt(f, s.pos) && AttrOk(attr, o)
    requires s.pos == p + |Escape(attr)| && s == StartScan(s.pos).(attr := attr)
    requires ScanLoop(f, s) == Stopped(v) && v.pos < |f| && v.packet.Some?
    ensures p <= |f| && CompileItem(f, p) == Build(v)
  {
    AttrRead(f, p, attr, o, s.pos);
    ItemBuilds(f, p, v);
  }

  lemma ComparisonOf(f: Octets, p: nat, s: Scan, op: Comparison, c: Octets, m: nat, v: Scan)
    requires IsReadable(c) && AttrOk(s.attr, OperatorText(op)) && OperatorAt(f, s.pos)
    requires s.pos == p + |Escape(s.attr)| && s == StartScan(s.pos).(attr := s.attr) && m == s.pos + |OperatorText(op)|
    requires At(f, p, Escape(s.attr) + OperatorText(op)) && At(f, s.pos, OperatorText(op)) && At(f, m, c + [RPAREN])
    requires v == s.(packet := Some(Comparing(op)), state := ReadingCondition, cond := c, pos := m + |c|)
    ensures p <= |f| && CompileItem(f, p) == Build(v)
  {
    ComparisonTail(f, s, op, c, m, v);
    ScanOf(f, p, s.attr, OperatorText(op), s, v);
  }

  lemma ComparisonRead(f: Octets, p: nat, q: nat, attr: Octets, op: Comparison, c: Octets, v: Scan)
    requires IsReadable(c) && At(f, p, Escape(attr) + OperatorText(op) + c + [RPAREN]) && AttrOk(attr, OperatorText(op))
    requires q == p + |Escape(attr)| && v == CompareEnd(q, attr, op, c)
    ensures p <= |f| && Compile(f, p) == Build(v)
  {
    AtPieces(f, p, Escape(attr), OperatorText(op), c);
    OperatorStarts(f, q, op);
    ComparisonOf(f, p, StartScan(q).(attr := attr), op, c, q + |OperatorText(op)|, v);
    ItemRead(f, p, attr, OperatorText(op));
  }

  lemma ComparisonMisread(f: Octets, p: nat, t: Filter, op: Comparison, c: Octets)
    requires IsItem(t) && At(f, p, Escape(t.attr) + OperatorText(op) + c + [RPAREN]) && !AttrOk(t.attr, OperatorText(op))
    ensures p <= |f| && !(Compile(f, p).Done? && Compile(f, p).node == t)
  {
    AtPieces(f, p, Escape(t.attr), OperatorText(op), c);
    OperatorStarts(f, p + |Escape(t.attr)|, op);
    ItemMisread(f, p, t, OperatorText(op));
  }

  lemma CompareExact(f: Octets, p: nat, t: Filter)
    requires t.Compare? && At(f, p, ItemText(t) + [RPAREN])
    ensures p <= |f| && ExactAt(f, p, t, |ItemText(t)| + 1)
  {
    var c := Escape(t.value);
    EscapeIsClean(t.value);
    UnescapeOfEscape(t.value);
    if AttrOk(t.attr, OperatorText(t.op)) {
      var q := p + |Escape(t.attr)|;
      ComparisonRead(f, p, q, t.attr, t.op, c, CompareEnd(q, t.attr, t.op, c));
      assert STAR !in c;
    } else {
      ComparisonMisread(f, p, t, t.op, c);
    }
  }

  lemma PresentExact(f: Octets, p: nat, t: Filter)
    requires t.Present? && At(f, p, ItemText(t) + [RPAREN])
    ensures p <= |f| && ExactAt(f, p, t, |ItemText(t)| + 1)
  {
    assert ItemText(t) == Escape(t.attr) + OperatorText(EqualityMatch) + [STAR];
    if AttrOk(t.attr, [EQUALS]) {
      var q := p + |Escape(t.attr)|;
      ComparisonRead(f, p, q, t.attr, EqualityMatch, [STAR], CompareEnd(q, t.attr, EqualityMatch, [STAR]));
    } else {
      ComparisonMisread(f, p, t, EqualityMatch, [STAR]);
    }
  }

  lemma SubstringsExact(f: Octets, p: nat, t: Filter)
    requires t.Substrings? && At(f, p, ItemText(t) + [RPAREN])
    ensures p <= |f| && ExactAt(f, p, t, |ItemText(t)| + 1)
  {
    PartsTextReadable(t.parts);
    PartsExact(t.parts);
    if AttrOk(t.attr, [EQUALS]) {
      var q := p + |Escape(t.attr)|;
      ComparisonRead(f, p, q, t.attr, EqualityMatch, PartsText(t.parts), CompareEnd(q, t.attr, EqualityMatch, PartsText(t.parts)));
    } else {
      ComparisonMisread(f, p, t, EqualityMatch, PartsText(t.parts));
    }
  }

  // ---------------------------------------------------------------- extensible matches, exactly

  /** The end of an extensible match: `:=`, the value and the closing parenthesis. */
  function ValueText(value: Octets): Octets {
    [COLON, EQUALS] + (Escape(value) + [RPAREN])
  }

  lemma {:induction false} EscapeHead(s: Octets, c: byte)
    requires !MustEscape(c) && c != BACKSLASH
    ensures Escape(s) != [] && Escape(s)[0] == c <==> s != [] && s[0] == c
    ensures s != [] && s[0] == c ==> Escape(s)[1..] == Escape(s[1..])
  {
    if s != [] && s[0] == c {
      assert Escape(s)[1..] == Escape(s[1..]);
    }
  }

  lemma ValueEnds(f: Octets, s: Scan, value: Octets)
    requires s.pos <= |f| && s.state == ReadingCondition && s.cond == [] && At(f, s.pos, Escape(value) + [RPAREN])
    ensures ScanLoop(f, s) == Stopped(s.(cond := Escape(value), pos := s.pos + |Escape(value)|))
  {
    EscapeIsClean(value);
    ScanCondition(f, s, Escape(value));
    assert [] + Escape(value) == Escape(value);
  }

  predicate RulePlain(rule: Octets) {
    IsPlain(rule) && forall i :: 0 <= i < |rule| ==> !ColonEqualsAt(rule, i)
  }

  lemma AtValue(f: Octets, p: nat, e: Octets, v: Octets)
    requires At(f, p, e + ([COLON, EQUALS] + v))
    ensures At(f, p, e) && At(f, p, e + [COLON, EQUALS]) && ColonEqualsAt(f, p + |e|) && At(f, p + |e| + 2, v)
  {
    assert e + ([COLON, EQUALS] + v) == (e + [COLON, EQUALS]) + v;
    AtSplit(f, p, e + [COLON, EQUALS], v);
    AtSplit(f, p, e, [COLON, EQUALS]);
    AtIndex(f, p + |e|, [COLON, EQUALS], 0);
    AtIndex(f, p + |e|, [COLON, EQUALS], 1);
  }

  /** The scan passes the first `:=`; the rule read so far is the printed one exactly when that one
      has the right shape. */
  lemma RuleScan(f: Octets, s: Scan, rule: Octets, v: Octets) returns (t: Scan)
    requires s.state == ReadingRule && s.rule == [] && s.pos <= |f|
    requires At(f, s.pos, Escape(rule) + ([COLON, EQUALS] + v))
    ensures t.pos <= |f| && ScanLoop(f, s) == ScanLoop(f, t)
    ensures t == s.(rule := t.rule, state := ReadingCondition, pos := t.pos)
    ensures t.rule == rule <==> RulePlain(rule)
    ensures t.rule == rule ==> t.pos == s.pos + |Escape(rule)| + 2 && At(f, t.pos, v)
  {
    var p, e := s.pos, Escape(rule);
    AtValue(f, p, e, v);
    var q := FirstColonEquals(f, p, p + |e|);
    RuleExact(f, p, rule, q);
    t := s.(rule := f[p..q], state := ReadingCondition, pos := q + 2);
    RuleReached(f, s, rule, q, f[p..q], t);
    if t.rule == rule {
      assert t.pos == p + |e| + 2;
    }
  }

  lemma RuleEnds(f: Octets, s: Scan, rule: Octets, value: Octets)
    requires s.state == ReadingRule && s.rule == [] && s.cond == [] && s.pos <= |f|
    requires At(f, s.pos, Escape(rule) + ValueText(value))
    ensures RulePlain(rule) ==>
              ScanLoop(f, s) == Stopped(s.(
                state := ReadingCondition, rule := rule, cond := Escape(value),
                pos := s.pos + |Escape(rule)| + 2 + |Escape(value)|))
    ensures !RulePlain(rule) && ScanLoop(f, s).Stopped? ==> ScanLoop(f, s).scan.rule != rule
  {
    var t := RuleScan(f, s, rule, Escape(value) + [RPAREN]);
    if RulePlain(rule) {
      ValueEnds(f, t, value);
    } else if ScanLoop(f, t).Stopped? {
      ScanFrozen(f, t);
    }
  }

  lemma RuleReached(f: Octets, s: Scan, rule: Octets, q: nat, got: Octets, t: Scan)
    requires s.state == ReadingRule && s.rule == [] && s.pos <= |f|
    requires At(f, s.pos, Escape(rule)) && s.pos <= q <= s.pos + |Escape(rule)| && ColonEqualsAt(f, q)
    requires forall i :: s.pos <= i < q ==> !ColonEqualsAt(f, i)
    requires got == f[s.pos..q] && t == s.(rule := got, state := ReadingCondition, pos := q + 2)
    ensures ScanLoop(f, s) == ScanLoop(f, t)
  {
    EscapeIsClean(rule);
    CleanReads(f, s.pos, Escape(rule), q);
    assert s.rule + got == got;
    ScanRule(f, s, q, t);
  }

  /** What the scanner has read when it stops behind an extensible match. */
  function ExtensibleEnd(s: Scan, dn: bool, rule: Octets, value: Octets, pos: nat): Scan {
    s.(state := ReadingCondition, packet := Some(Extending), dn := dn, rule := rule, cond := Escape(value), pos := pos)
  }

  /** Reading `text` from `s` yields the given marker and rule exactly when the rule has the right shape. */
  ghost predicate ReadsExtensible(f: Octets, s: Scan, dn: bool, rule: Octets, value: Octets, n: nat)
    requires s.pos <= |f|
  {
    && (RuleOk(rule, dn) ==> ScanLoop(f, s) == Stopped(ExtensibleEnd(s, dn, rule, value, s.pos + n)))
    && (!RuleOk(rule, dn) && ScanLoop(f, s).Stopped? ==>
          ScanLoop(f, s).scan.rule != rule || ScanLoop(f, s).scan.dn != dn)
  }

  /** An attribute followed by `:=` or `:dn:=`. */
  lemma NoRule(f: Octets, s: Scan, dn: bool, value: Octets)
    requires s == StartScan(s.pos).(attr := s.attr) && s.pos <= |f|
    requires At(f, s.pos, DnText(dn) + ValueText(value))
    ensures ReadsExtensible(f, s, dn, [], value, |DnText(dn)| + 2 + |Escape(value)|)
  {
    var d := DnText(dn);
    AtValue(f, s.pos, d, Escape(value) + [RPAREN]);
    NoRuleStep(f, s, dn);
    ValueEnds(f, ScanStep(f, s), value);
  }

  lemma NoRuleStep(f: Octets, s: Scan, dn: bool)
    requires s.state == ReadingAttr && !s.dn && At(f, s.pos, DnText(dn) + [COLON, EQUALS])
    ensures ScanLoop(f, s) == ScanLoop(f, ScanStep(f, s))
    ensures ScanStep(f, s) ==
            s.(packet := Some(Extending), dn := dn, state := ReadingCondition, pos := s.pos + |DnText(dn)| + 2)
  {
    var text := DnText(dn) + [COLON, EQUALS];
    AtIndex(f, s.pos, text, 0);
    LoopStep(f, s);
    if dn {
      assert text == [COLON, LOWER_D, LOWER_N, COLON, EQUALS];
    } else {
      assert text == [COLON, EQUALS];
      AtIndex(f, s.pos, text, 1);
      PrefixHead(f, s.pos, [COLON, LOWER_D, LOWER_N, COLON, EQUALS]);
      PrefixHead(f, s.pos, [COLON, LOWER_D, LOWER_N, COLON]);
    }
  }

  /** The colon before a matching rule is read as such unless the rule forms an operator with it. */
  lemma RuleStep(f: Octets, s: Scan, rule: Octets, v: Octets)
    requires s.state == ReadingAttr && !s.dn && rule != [] && v != [] && v[0] == COLON
    requires At(f, s.pos, [COLON] + (Escape(rule) + v))
    ensures ScanLoop(f, s) == ScanLoop(f, ScanStep(f, s))
    ensures ScanStep(f, s).dn <==> ReadsAsDn(rule)
    ensures rule[0] == EQUALS ==> ScanStep(f, s).state == ReadingCondition && ScanStep(f, s).rule == s.rule
    ensures !ReadsAsDn(rule) && rule[0] != EQUALS ==>
              ScanStep(f, s) == s.(packet := Some(Extending), state := ReadingRule, pos := s.pos + 1)
  {
    var text := [COLON] + (Escape(rule) + v);
    AtIndex(f, s.pos, text, 0);
    AtIndex(f, s.pos, text, 1);
    LoopStep(f, s);
    EscapeHead(rule, EQUALS);
    DnPrefix(f, s.pos, rule, v);
    ColonStep(f, s, ReadsAsDn(rule));
  }

  /** What a colon behind an attribute makes the scanner do. */
  lemma ColonStep(f: Octets, s: Scan, dn: bool)
    requires s.state == ReadingAttr && !s.dn && s.pos + 1 < |f| && f[s.pos] == COLON
    requires HasPrefix(f, s.pos, [COLON, LOWER_D, LOWER_N, COLON]) == dn
    ensures ScanStep(f, s).dn == dn
    ensures !dn && f[s.pos + 1] == EQUALS ==>
              ScanStep(f, s).state == ReadingCondition && ScanStep(f, s).rule == s.rule
    ensures !dn && f[s.pos + 1] != EQUALS ==>
              ScanStep(f, s) == s.(packet := Some(Extending), state := ReadingRule, pos := s.pos + 1)
    ensures dn ==> f[s.pos + 1] == LOWER_D
  {
    RuneAt(f, s.pos);
    PrefixHead(f, s.pos, [COLON, EQUALS]);
    PrefixHead(f, s.pos, [COLON, LOWER_D, LOWER_N, COLON]);
    if HasPrefix(f, s.pos, [COLON, LOWER_D, LOWER_N, COLON, EQUALS]) {
      ShorterPrefix(f, s.pos);
    }
  }

  lemma ShorterPrefix(f: Octets, p: nat)
    requires HasPrefix(f, p, [COLON, LOWER_D, LOWER_N, COLON, EQUALS])
    ensures HasPrefix(f, p, [COLON, LOWER_D, LOWER_N, COLON])
  {
    var text := [COLON, LOWER_D, LOWER_N, COLON, EQUALS];
    assert f[p..p + 4] == f[p..p + 5][..4] && text[..4] == [COLON, LOWER_D, LOWER_N, COLON];
  }

  predicate StartsWithDn(s: Octets) {
    |s| >= 3 && s[0] == LOWER_D && s[1] == LOWER_N && s[2] == COLON
  }

  lemma DnStart(rule: Octets, v: Octets)
    requires rule != [] && v != [] && v[0] == COLON
    ensures StartsWithDn(Escape(rule) + v) <==> ReadsAsDn(rule)
  {
    var e := Escape(rule);
    EscapeHead(rule, LOWER_D);
    assert (e + v)[0] == e[0];
    if rule[0] == LOWER_D {
      var r1 := rule[1..];
      assert e + v == [LOWER_D] + (Escape(r1) + v);
      EscapeHead(r1, LOWER_N);
      if r1 != [] && r1[0] == LOWER_N {
        var r2 := r1[1..];
        assert Escape(r1) + v == [LOWER_N] + (Escape(r2) + v);
        EscapeHead(r2, COLON);
        assert r2 == [] ==> rule == [LOWER_D, LOWER_N];
      }
    }
  }

  lemma DnPrefix(f: Octets, p: nat, rule: Octets, v: Octets)
    requires rule != [] && v != [] && v[0] == COLON && At(f, p, [COLON] + (Escape(rule) + v))
    ensures HasPrefix(f, p, [COLON, LOWER_D, LOWER_N, COLON]) <==> ReadsAsDn(rule)
    ensures HasPrefix(f, p, [COLON, LOWER_D, LOWER_N, COLON, EQUALS]) ==> ReadsAsDn(rule)
  {
    var text := Escape(rule) + v;
    DnStart(rule, v);
    DnPrefixText(f, p, text);
  }

  lemma DnPrefixText(f: Octets, p: nat, text: Octets)
    requires At(f, p, [COLON] + text) && |text| >= 2
    requires text[0] == LOWER_D && text[1] == LOWER_N ==> |text| >= 3
    ensures HasPrefix(f, p, [COLON, LOWER_D, LOWER_N, COLON]) <==> StartsWithDn(text)
    ensures HasPrefix(f, p, [COLON, LOWER_D, LOWER_N, COLON, EQUALS]) ==> StartsWithDn(text)
  {
    AtIndex(f, p, [COLON] + text, 0);
    AtIndex(f, p, [COLON] + text, 1);
    AtIndex(f, p, [COLON] + text, 2);
    if |text| >= 3 {
      AtIndex(f, p, [COLON] + text, 3);
      assert f[p..p + 4] == [f[p], f[p + 1], f[p + 2], f[p + 3]];
    }
    if HasPrefix(f, p, [COLON, LOWER_D, LOWER_N, COLON, EQUALS]) {
      assert f[p..p + 5][..4] == f[p..p + 4];
    }
    if HasPrefix(f, p, [COLON, LOWER_D, LOWER_N, COLON]) {
      assert f[p..p + 4][1] == f[p + 1] && f[p..p + 4][2] == f[p + 2];
    }
  }

  lemma DnEqualsPrefix(f: Octets, p: nat)
    requires At(f, p, [COLON, LOWER_D, LOWER_N, COLON]) && p + 4 < |f|
    ensures HasPrefix(f, p, [COLON, LOWER_D, LOWER_N, COLON, EQUALS]) <==> f[p + 4] == EQUALS
  {
    var marker := [COLON, LOWER_D, LOWER_N, COLON];
    assert f[p..p + 5] == f[p..p + 4] + [f[p + 4]];
    assert [COLON, LOWER_D, LOWER_N, COLON, EQUALS] == marker + [EQUALS];
    assert f[p..p + 5][4] == f[p + 4];
  }

  lemma DnColon(f: Octets, s: Scan)
    requires s.state == ReadingAttr && s.pos + 4 < |f| && At(f, s.pos, [COLON, LOWER_D, LOWER_N, COLON])
    ensures ScanLoop(f, s) == ScanLoop(f, ScanStep(f, s))
    ensures f[s.pos + 4] == EQUALS ==> ScanStep(f, s).state == ReadingCondition && ScanStep(f, s).rule == s.rule
    ensures f[s.pos + 4] != EQUALS ==>
              ScanStep(f, s) == s.(packet := Some(Extending), dn := true, state := ReadingRule, pos := s.pos + 4)
  {
    AtIndex(f, s.pos, [COLON, LOWER_D, LOWER_N, COLON], 0);
    LoopStep(f, s);
    DnEqualsPrefix(f, s.pos);
  }

  lemma DnRuleStep(f: Octets, s: Scan, rule: Octets, v: Octets)
    requires s.state == ReadingAttr && rule != []
    requires At(f, s.pos, [COLON, LOWER_D, LOWER_N, COLON]) && At(f, s.pos + 4, Escape(rule) + v)
    ensures ScanLoop(f, s) == ScanLoop(f, ScanStep(f, s))
    ensures rule[0] == EQUALS ==> ScanStep(f, s).state == ReadingCondition && ScanStep(f, s).rule == s.rule
    ensures rule[0] != EQUALS ==>
              ScanStep(f, s) == s.(packet := Some(Extending), dn := true, state := ReadingRule, pos := s.pos + 4)
  {
    AtIndex(f, s.pos, [COLON, LOWER_D, LOWER_N, COLON], 0);
    AtIndex(f, s.pos + 4, Escape(rule) + v, 0);
    EscapeHead(rule, EQUALS);
    DnColon(f, s);
  }

  lemma RuleOkWithoutDn(rule: Octets)
    requires rule != []
    ensures RuleOk(rule, true) <==> RulePlain(rule) && rule[0] != EQUALS
    ensures RuleOk(rule, false) <==> RulePlain(rule) && rule[0] != EQUALS && !ReadsAsDn(rule)
  {
  }

  /** An attribute followed by `:rule:=`. */
  lemma WithRule(f: Octets, s: Scan, rule: Octets, value: Octets)
    requires s == StartScan(s.pos).(attr := s.attr) && s.pos <= |f| && rule != []
    requires At(f, s.pos, [COLON] + (Escape(rule) + ValueText(value)))
    ensures ReadsExtensible(f, s, false, rule, value, 1 + |Escape(rule)| + 2 + |Escape(value)|)
  {
    var v := ValueText(value);
    RuleStep(f, s, rule, v);
    RuleOkWithoutDn(rule);
    var t := ScanStep(f, s);
    if !ReadsAsDn(rule) && rule[0] != EQUALS {
      AtSplit(f, s.pos, [COLON], Escape(rule) + v);
      RuleEnds(f, t, rule, value);
    } else if ScanLoop(f, t).Stopped? {
      NotAttrAfterColon(f, s, rule, v);
      ScanFrozen(f, t);
    }
  }

  lemma NotAttrAfterColon(f: Octets, s: Scan, rule: Octets, v: Octets)
    requires s.state == ReadingAttr && At(f, s.pos, [COLON] + (Escape(rule) + v))
    ensures ScanStep(f, s).state != ReadingAttr
  {
    AtIndex(f, s.pos, [COLON] + (Escape(rule) + v), 0);
    RuneAt(f, s.pos);
  }

  /** An attribute followed by `:dn:rule:=`. */
  lemma WithDnAndRule(f: Octets, s: Scan, rule: Octets, value: Octets)
    requires s == StartScan(s.pos).(attr := s.attr) && s.pos <= |f| && rule != []
    requires At(f, s.pos, [COLON, LOWER_D, LOWER_N, COLON] + (Escape(rule) + ValueText(value)))
    ensures ReadsExtensible(f, s, true, rule, value, 4 + |Escape(rule)| + 2 + |Escape(value)|)
  {
    var v := ValueText(value);
    AtSplit(f, s.pos, [COLON, LOWER_D, LOWER_N, COLON], Escape(rule) + v);
    DnRuleStep(f, s, rule, v);
    RuleOkWithoutDn(rule);
    var t := ScanStep(f, s);
    if rule[0] != EQUALS {
      RuleEnds(f, t, rule, value);
    } else if ScanLoop(f, t).Stopped? {
      ScanFrozen(f, t);
    }
  }

  /** What follows the attribute of an extensible match. */
  function ExtensibleTail(rule: Octets, value: Octets, dn: bool): Octets {
    if rule == [] then DnText(dn) + ValueText(value)
    else if dn then [COLON, LOWER_D, LOWER_N, COLON] + (Escape(rule) + ValueText(value))
    else [COLON] + (Escape(rule) + ValueText(value))
  }

  lemma Regroup(a: Octets, b: Octets, c: Octets, d: Octets, e: Octets, g: Octets)
    ensures a + b + c + d + e + g == a + (b + c + (d + (e + g)))
  {
    assert a + b + c + d + e + g == (a + b + c) + (d + (e + g));
    assert a + b + c == a + (b + c);
  }

  lemma ExtensibleTailText(a: Octets, rule: Octets, value: Octets, dn: bool)
    ensures a + DnText(dn) + RuleText(rule) + [COLON, EQUALS] + Escape(value) + [RPAREN]
         == a + ExtensibleTail(rule, value, dn)
  {
    Regroup(a, DnText(dn), RuleText(rule), [COLON, EQUALS], Escape(value), [RPAREN]);
    MarkerAndRule(rule, ValueText(value), dn);
  }

  lemma MarkerAndRule(rule: Octets, v: Octets, dn: bool)
    ensures rule == [] ==> DnText(dn) + RuleText(rule) + v == DnText(dn) + v
    ensures rule != [] && dn ==> DnText(dn) + RuleText(rule) + v == [COLON, LOWER_D, LOWER_N, COLON] + (Escape(rule) + v)
    ensures rule != [] && !dn ==> DnText(dn) + RuleText(rule) + v == [COLON] + (Escape(rule) + v)
  {
    if rule == [] {
      assert DnText(dn) + [] == DnText(dn);
    } else {
      Regroup3(DnText(dn), [COLON], Escape(rule), v);
      if dn {
        assert DnText(dn) + [COLON] == [COLON, LOWER_D, LOWER_N, COLON];
      } else {
        assert DnText(dn) + [COLON] == [COLON];
      }
    }
  }

  lemma Regroup3(m: Octets, c: Octets, e: Octets, v: Octets)
    ensures m + (c + e) + v == (m + c) + (e + v)
  {
  }

  lemma ExtensibleScan(f: Octets, s: Scan, rule: Octets, value: Octets, dn: bool)
    requires s == StartScan(s.pos).(attr := s.attr) && s.pos <= |f|
    requires At(f, s.pos, ExtensibleTail(rule, value, dn))
    ensures ReadsExtensible(f, s, dn, rule, value, |ExtensibleTail(rule, value, dn)| - 1)
  {
    if rule == [] {
      NoRule(f, s, dn, value);
    } else if dn {
      WithDnAndRule(f, s, rule, value);
    } else {
      WithRule(f, s, rule, value);
    }
  }

  lemma ColonStarts(f: Octets, p: nat, a: Octets, rule: Octets, value: Octets, dn: bool)
    requires At(f, p, a + ExtensibleTail(rule, value, dn))
    ensures At(f, p, a + [COLON]) && OperatorAt(f, p + |a|)
  {
    var text := a + ExtensibleTail(rule, value, dn);
    assert ExtensibleTail(rule, value, dn)[0] == COLON;
    assert text[..|a| + 1] == a + [COLON];
    AtSlice(f, p, text, |a| + 1);
    AtIndex(f, p, text, |a|);
  }

  lemma ExtensibleRest(f: Octets, p: nat, s: Scan, t: Filter, n: nat)
    requires p <= |f| && t.Extensible? && n == |ExtensibleTail(t.rule, t.value, t.dnAttributes)| - 1
    requires s.pos <= |f| && s == StartScan(s.pos).(attr := t.attr)
    requires At(f, s.pos, ExtensibleTail(t.rule, t.value, t.dnAttributes))
    requires ScanLoop(f, StartScan(p)) == ScanLoop(f, s)
    ensures RuleOk(t.rule, t.dnAttributes) ==> CompileItem(f, p) == Done(t, s.pos + n + 1)
    ensures !RuleOk(t.rule, t.dnAttributes) ==> !(CompileItem(f, p).Done? && CompileItem(f, p).node == t)
  {
    ExtensibleScan(f, s, t.rule, t.value, t.dnAttributes);
    ExtensibleBuild(f, p, s, t, n);
  }

  lemma ExtensibleText(f: Octets, p: nat, t: Filter, a: Octets, tail: Octets)
    requires t.Extensible? && At(f, p, ItemText(t) + [RPAREN])
    requires a == Escape(t.attr) && tail == ExtensibleTail(t.rule, t.value, t.dnAttributes)
    ensures At(f, p, a + [COLON]) && OperatorAt(f, p + |a|) && At(f, p + |a|, tail)
    ensures |ItemText(t)| + 1 == |a| + |tail|
  {
    ExtensibleTailText(a, t.rule, t.value, t.dnAttributes);
    assert ItemText(t) + [RPAREN] == a + tail;
    ColonStarts(f, p, a, t.rule, t.value, t.dnAttributes);
    AtSplit(f, p, a, tail);
  }

  lemma ExtensibleGood(f: Octets, p: nat, t: Filter, n: nat)
    requires p <= |f| && t.Extensible? && AttrOk(t.attr, [COLON]) && Compile(f, p) == CompileItem(f, p)
    requires RuleOk(t.rule, t.dnAttributes) ==> CompileItem(f, p) == Done(t, p + n)
    requires !RuleOk(t.rule, t.dnAttributes) ==> !(CompileItem(f, p).Done? && CompileItem(f, p).node == t)
    ensures ExactAt(f, p, t, n)
  {
  }

  lemma ExtensibleBad(f: Octets, p: nat, t: Filter, n: nat)
    requires p <= |f| && t.Extensible? && !AttrOk(t.attr, [COLON]) && !(Compile(f, p).Done? && Compile(f, p).node == t)
    ensures ExactAt(f, p, t, n)
  {
  }

  lemma ExtensibleRead(f: Octets, p: nat, q: nat, t: Filter)
    requires t.Extensible? && AttrOk(t.attr, [COLON]) && q == p + |Escape(t.attr)| && OperatorAt(f, q)
    requires At(f, p, Escape(t.attr) + [COLON]) && At(f, q, ExtensibleTail(t.rule, t.value, t.dnAttributes))
    ensures p <= |f| && ExactAt(f, p, t, q - p + |ExtensibleTail(t.rule, t.value, t.dnAttributes)|)
  {
    var n := |ExtensibleTail(t.rule, t.value, t.dnAttributes)|;
    AttrRead(f, p, t.attr, [COLON], q);
    ExtensibleRest(f, p, StartScan(q).(attr := t.attr), t, n - 1);
    ItemRead(f, p, t.attr, [COLON]);
    ExtensibleGood(f, p, t, q - p + n);
  }

  lemma ExtensibleExact(f: Octets, p: nat, t: Filter)
    requires t.Extensible? && At(f, p, ItemText(t) + [RPAREN])
    ensures p <= |f| && ExactAt(f, p, t, |ItemText(t)| + 1)
  {
    var a, tail := Escape(t.attr), ExtensibleTail(t.rule, t.value, t.dnAttributes);
    ExtensibleText(f, p, t, a, tail);
    if AttrOk(t.attr, [COLON]) {
      ExtensibleRead(f, p, p + |a|, t);
    } else {
      ItemMisread(f, p, t, [COLON]);
      ExtensibleBad(f, p, t, |a| + |tail|);
    }
  }

  lemma BuildExtensible(s: Scan, value: Octets)
    requires s.packet == Some(Extending) && s.cond == Escape(value)
    ensures Build(s) == Done(Extensible(s.rule, s.attr, value, s.dn), s.pos + 1)
  {
    UnescapeOfEscape(value);
  }

  lemma BuildKeepsRule(s: Scan)
    requires s.packet.Some? && Build(s).Done? && Build(s).node.Extensible?
    ensures Build(s).node.rule == s.rule && Build(s).node.dnAttributes == s.dn
  {
  }

  lemma ExtensibleBuild(f: Octets, p: nat, s: Scan, t: Filter, n: nat)
    requires p <= |f| && s.pos <= |f| && t.Extensible? && s.attr == t.attr && s.pos + n < |f|
    requires ScanLoop(f, StartScan(p)) == ScanLoop(f, s)
    requires ReadsExtensible(f, s, t.dnAttributes, t.rule, t.value, n)
    ensures RuleOk(t.rule, t.dnAttributes) ==> CompileItem(f, p) == Done(t, s.pos + n + 1)
    ensures !RuleOk(t.rule, t.dnAttributes) ==> !(CompileItem(f, p).Done? && CompileItem(f, p).node == t)
  {
    if RuleOk(t.rule, t.dnAttributes) {
      BuildExtensible(ExtensibleEnd(s, t.dnAttributes, t.rule, t.value, s.pos + n), t.value);
    } else if CompileItem(f, p).Done? && CompileItem(f, p).node == t {
      BuildKeepsRule(ScanLoop(f, s).scan);
    }
  }

  // ---------------------------------------------------------------- whole filters, exactly

  lemma ItemExact(f: Octets, p: nat, t: Filter)
    requires IsItem(t) && At(f, p, ItemText(t) + [RPAREN])
    ensures p <= |f| && ExactAt(f, p, t, |ItemText(t)| + 1)
  {
    match t {
      case Compare(_, _, _) => CompareExact(f, p, t);
      case Present(_) => PresentExact(f, p, t);
      case Substrings(_, _) => SubstringsExact(f, p, t);
      case Extensible(_, _, _, _) => ExtensibleExact(f, p, t);
    }
  }

  /** Compiling behind the opening parenthesis of printed text, wherever it stands. */
  lemma {:induction false} InnerExact(f: Octets, p: nat, t: Filter)
    requires At(f, p, Inner(t) + [RPAREN])
    ensures p <= |f| && ExactAt(f, p, t, |Inner(t)| + 1)
    decreases t, 3
  {
    match t {
      case And(children) =>
        SetNodeExact(f, p, AMP, children);
      case Or(children) =>
        SetNodeExact(f, p, PIPE, children);
      case Not(child) =>
        NotExact(f, p, child);
      case _ =>
        ItemExact(f, p, t);
    }
  }

  function SetNode(c: byte, children: seq<Filter>): Filter {
    if c == AMP then And(children) else Or(children)
  }

  lemma {:induction false} SetNodeExact(f: Octets, p: nat, c: byte, children: seq<Filter>)
    requires c == AMP || c == PIPE
    requires At(f, p, [c] + PrintAll(children) + [RPAREN])
    ensures p <= |f| && ExactAt(f, p, SetNode(c, children), |PrintAll(children)| + 2)
    decreases children, 1
  {
    var rest := PrintAll(children) + [RPAREN];
    assert [c] + PrintAll(children) + [RPAREN] == [c] + rest;
    AtSplit(f, p, [c], rest);
    AtIndex(f, p, [c], 0);
    RuneAt(f, p);
    SetExact(f, p + 1, [], children);
    assert [] + children == children;
  }

  lemma AtNegated(f: Octets, p: nat, inner: Octets)
    requires At(f, p, [BANG] + ([LPAREN] + inner + [RPAREN]) + [RPAREN])
    ensures p + 2 <= |f| && f[p] == BANG && f[p + 1] == LPAREN && At(f, p + 2, inner + [RPAREN])
    ensures p + 3 + |inner| < |f| && f[p + 3 + |inner|] == RPAREN
  {
    var text := inner + [RPAREN];
    assert [BANG] + ([LPAREN] + inner + [RPAREN]) + [RPAREN] == [BANG, LPAREN] + (text + [RPAREN]);
    AtSplit(f, p, [BANG, LPAREN], text + [RPAREN]);
    AtSplit(f, p + 2, text, [RPAREN]);
    AtIndex(f, p, [BANG, LPAREN], 0);
    AtIndex(f, p, [BANG, LPAREN], 1);
    AtIndex(f, p + 2 + |text|, [RPAREN], 0);
  }

  lemma {:induction false} NotExact(f: Octets, p: nat, child: Filter)
    requires At(f, p, [BANG] + Print(child) + [RPAREN])
    ensures p <= |f| && ExactAt(f, p, Not(child), |Print(child)| + 2)
    decreases child, 4
  {
    AtNegated(f, p, Inner(child));
    RuneAt(f, p);
    RuneAt(f, p + 1);
    InnerExact(f, p + 2, child);
  }

  predicate AllPrintable(ts: seq<Filter>) {
    forall c :: c in ts ==> Printable(c)
  }

  /** A run of printed filters comes back, behind what was already read, exactly when all of them
      are printable. */
  ghost predicate SetExactAt(f: Octets, p: nat, acc: seq<Filter>, ts: seq<Filter>) {
    var r := CompileSet(f, p, acc);
    && (AllPrintable(ts) <==> r.SetDone? && r.children == acc + ts)
    && (r.SetDone? && r.children == acc + ts ==> r.pos == p + |PrintAll(ts)| + 1)
  }

  lemma AtParenthesised(f: Octets, p: nat, inner: Octets, rest: Octets)
    requires At(f, p, [LPAREN] + inner + [RPAREN] + rest + [RPAREN])
    ensures p < |f| && f[p] == LPAREN && At(f, p + 1, inner + [RPAREN]) && At(f, p + |inner| + 2, rest + [RPAREN])
  {
    var a, b := inner + [RPAREN], rest + [RPAREN];
    assert [LPAREN] + inner + [RPAREN] + rest + [RPAREN] == [LPAREN] + (a + b);
    AtSplit(f, p, [LPAREN], a + b);
    AtSplit(f, p + 1, a, b);
    AtIndex(f, p, [LPAREN], 0);
  }

  lemma PrintAllCons(ts: seq<Filter>)
    requires ts != []
    ensures PrintAll(ts) == [LPAREN] + Inner(ts[0]) + [RPAREN] + PrintAll(ts[1..])
  {
  }

  lemma AtFirst(f: Octets, p: nat, ts: seq<Filter>)
    requires At(f, p, PrintAll(ts) + [RPAREN]) && ts != []
    ensures p < |f| && f[p] == LPAREN && At(f, p + 1, Inner(ts[0]) + [RPAREN])
    ensures At(f, p + |Inner(ts[0])| + 2, PrintAll(ts[1..]) + [RPAREN])
  {
    PrintAllCons(ts);
    AtParenthesised(f, p, Inner(ts[0]), PrintAll(ts[1..]));
  }

  lemma PrintableStep(ts: seq<Filter>)
    requires ts != []
    ensures AllPrintable(ts) <==> Printable(ts[0]) && AllPrintable(ts[1..])
    ensures |PrintAll(ts)| == |Inner(ts[0])| + 2 + |PrintAll(ts[1..])|
  {
    assert ts == [ts[0]] + ts[1..];
  }

  lemma SetGoesOn(f: Octets, p: nat, acc: seq<Filter>, t: Filter, next: nat)
    requires p < |f| && f[p] == LPAREN && Compile(f, p + 1) == Done(t, next)
    ensures CompileSet(f, p, acc) == CompileSet(f, next, acc + [t])
  {
  }

  lemma SetConsGood(f: Octets, p: nat, acc: seq<Filter>, ts: seq<Filter>, r: SetOutcome, end: nat)
    requires CompileSet(f, p, acc) == r && end == p + |PrintAll(ts)| + 1
    requires AllPrintable(ts) <==> r.SetDone? && r.children == acc + ts
    requires r.SetDone? && r.children == acc + ts ==> r.pos == end
    ensures SetExactAt(f, p, acc, ts)
  {
  }

  /** One step of the set: the first filter and the rest each come back exactly when printable. */
  lemma SetConsRead(f: Octets, p: nat, acc: seq<Filter>, ts: seq<Filter>, next: nat, r: SetOutcome)
    requires p < |f| && f[p] == LPAREN && ts != [] && next == p + |Inner(ts[0])| + 2
    requires Printable(ts[0]) && Compile(f, p + 1) == Done(ts[0], next) && r == CompileSet(f, next, acc + [ts[0]])
    requires AllPrintable(ts[1..]) <==> r.SetDone? && r.children == acc + ts
    requires r.SetDone? && r.children == acc + ts ==> r.pos == next + |PrintAll(ts[1..])| + 1
    ensures SetExactAt(f, p, acc, ts)
  {
    PrintableStep(ts);
    SetGoesOn(f, p, acc, ts[0], next);
    SetConsGood(f, p, acc, ts, r, next + |PrintAll(ts[1..])| + 1);
  }

  lemma SetConsExact(f: Octets, p: nat, acc: seq<Filter>, ts: seq<Filter>, next: nat)
    requires p < |f| && f[p] == LPAREN && ts != [] && next == p + |Inner(ts[0])| + 2 && Printable(ts[0])
    requires ExactAt(f, p + 1, ts[0], |Inner(ts[0])| + 1) && SetExactAt(f, next, acc + [ts[0]], ts[1..])
    ensures SetExactAt(f, p, acc, ts)
  {
    ConsTail(acc, ts);
    SetConsRead(f, p, acc, ts, next, CompileSet(f, next, acc + [ts[0]]));
  }

  lemma SetConsFails(f: Octets, p: nat, acc: seq<Filter>, ts: seq<Filter>)
    requires p < |f| && f[p] == LPAREN && ts != [] && !Printable(ts[0])
    requires !(Compile(f, p + 1).Done? && Compile(f, p + 1).node == ts[0])
    ensures SetExactAt(f, p, acc, ts)
  {
    PrintableStep(ts);
    SetFails(f, p, acc, ts);
  }

  lemma SetCons(f: Octets, p: nat, acc: seq<Filter>, ts: seq<Filter>, next: nat)
    requires p < |f| && f[p] == LPAREN && ts != [] && next == p + |Inner(ts[0])| + 2
    requires ExactAt(f, p + 1, ts[0], |Inner(ts[0])| + 1) && SetExactAt(f, next, acc + [ts[0]], ts[1..])
    ensures SetExactAt(f, p, acc, ts)
  {
    if Printable(ts[0]) { SetConsExact(f, p, acc, ts, next); } else { SetConsFails(f, p, acc, ts); }
  }

  lemma SetEnds(f: Octets, p: nat, acc: seq<Filter>)
    requires At(f, p, PrintAll([]) + [RPAREN])
    ensures p <= |f| && SetExactAt(f, p, acc, [])
  {
    AtIndex(f, p, PrintAll([]) + [RPAREN], 0);
    assert acc + [] == acc;
  }

  lemma {:induction false} SetExact(f: Octets, p: nat, acc: seq<Filter>, ts: seq<Filter>)
    requires At(f, p, PrintAll(ts) + [RPAREN])
    ensures p <= |f| && SetExactAt(f, p, acc, ts)
    decreases ts, 0
  {
    if ts == [] {
      SetEnds(f, p, acc);
    } else {
      var t, rest := ts[0], ts[1..];
      var next := p + |Inner(t)| + 2;
      AtFirst(f, p, ts);
      InnerExact(f, p + 1, t);
      SetExact(f, next, acc + [t], rest);
      SetCons(f, p, acc, ts, next);
    }
  }

  lemma {:induction false} SetFails(f: Octets, p: nat, acc: seq<Filter>, ts: seq<Filter>)
    requires p < |f| && f[p] == LPAREN && ts != [] && !(Compile(f, p + 1).Done? && Compile(f, p + 1).node == ts[0])
    ensures !(CompileSet(f, p, acc).SetDone? && CompileSet(f, p, acc).children == acc + ts)
  {
    var c := Compile(f, p + 1);
    if c.Done? {
      SetGoesOn(f, p, acc, c.node, c.pos);
      OtherHead(acc, c.node, ts, CompileSet(f, p, acc));
    }
  }

  lemma OtherHead(acc: seq<Filter>, t: Filter, ts: seq<Filter>, r: SetOutcome)
    requires ts != [] && t != ts[0] && (r.SetDone? ==> acc + [t] <= r.children)
    ensures !(r.SetDone? && r.children == acc + ts)
  {
    if r.SetDone? { assert (acc + [t])[|acc|] == r.children[|acc|]; }
  }

  /** `CompileFilter(DecompileFilter(t))` succeeds with exactly `t` if and only if `t` is printable. */
  lemma RoundTrip(t: Filter)
    ensures CompileText(Print(t)) == Ok(Some(t)) <==> Printable(t)
  {
    var f := Print(t);
    assert f == [LPAREN] + (Inner(t) + [RPAREN]);
    assert f[1..] == Inner(t) + [RPAREN];
    InnerExact(f, 1, t);
  }

  /** So two printable filters with the same text are the same filter. */
  lemma PrintIsInjective(t: Filter, u: Filter)
    requires Printable(t) && Printable(u) && Print(t) == Print(u)
    ensures t == u
  {
    RoundTrip(t);
    RoundTrip(u);
  }

  lemma SpliceText(a: Octets, v: Octets)
    ensures [LPAREN] + (a + [EQUALS] + v) + [RPAREN] == [LPAREN] + a + [EQUALS] + v + [RPAREN]
  {
  }

  lemma EqualityText(attr: Octets, value: Octets)
    requires AttrOk(attr, [EQUALS])
    ensures Print(Compare(EqualityMatch, attr, value)) == [LPAREN] + attr + [EQUALS] + Escape(value) + [RPAREN]
  {
    PlainIsUnescaped(attr);
    SpliceText(attr, Escape(value));
  }

  /** A value spliced into an equality filter through `EscapeFilter` cannot change the filter's
      structure: whatever its octets, the text compiles to that one comparison. */
  lemma EscapedValueIsInert(attr: Octets, value: Octets)
    requires AttrOk(attr, [EQUALS])
    ensures CompileText([LPAREN] + attr + [EQUALS] + Escape(value) + [RPAREN]) ==
            Ok(Some(Compare(EqualityMatch, attr, value)))
  {
    var t := Compare(EqualityMatch, attr, value);
    EqualityText(attr, value);
    RoundTrip(t);
  }

  /** The alphabet of attribute descriptions and numeric or named rules: letters, digits, hyphen,
      full stop and the semicolon before options. */
  predicate IsDescriptor(s: Octets) {
    forall i :: 0 <= i < |s| ==>
      0x30 <= s[i] <= 0x39 || 0x41 <= s[i] <= 0x5A || 0x61 <= s[i] <= 0x7A || s[i] == 0x2D || s[i] == 0x2E || s[i] == SEMICOLON
  }

  lemma NoColon(s: Octets)
    requires IsDescriptor(s)
    ensures !([LOWER_D, LOWER_N, COLON] <= s)
  {
    assert |s| > 2 ==> s[2] != COLON;
  }

  /** On the names the protocol allows, the only text that does not survive is the rule `dn`
      without the dn flag. */
  lemma DescriptorsSurvive(attr: Octets, rule: Octets, op: Octets, dn: bool)
    requires IsDescriptor(attr) && IsDescriptor(rule)
    ensures AttrOk(attr, op)
    ensures RuleOk(rule, dn) <==> dn || rule != [LOWER_D, LOWER_N]
  {
    if ReadsAsDn(rule) && |rule| > 2 {
      NoColon(rule);
    }
  }

  /** Trees that print but do not come back: the rule `dn` without the dn flag. */
  lemma RuleNamedDn(attr: Octets, value: Octets)
    ensures var t := Extensible([LOWER_D, LOWER_N], attr, value, false); CompileText(Print(t)) != Ok(Some(t))
  {
    RoundTrip(Extensible([LOWER_D, LOWER_N], attr, value, false));
  }

  /** A substring filter without substrings. */
  lemma NoSubstrings(attr: Octets)
    ensures var t := Substrings(attr, []); CompileText(Print(t)) != Ok(Some(t))
  {
    RoundTrip(Substrings(attr, []));
  }

  /** An attribute that forms another operator with the one behind it. */
  lemma AttributeEndsInOperator(value: Octets)
    ensures var t := Compare(EqualityMatch, [GREATER], value); CompileText(Print(t)) != Ok(Some(t))
  {
    RoundTrip(Compare(EqualityMatch, [GREATER], value));
    assert OperatorAt([GREATER] + [EQUALS], 0);
  }
}
