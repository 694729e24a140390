/** `EscapeDN`, for splicing a value into the text of a name, and what the parser makes of it. */
module EscapeDn {
  import opened Bytes
  import opened Utf8
  import opened DnEscape
  import opened Dn
  import opened DnRoundTrip

  predicate TakesEscape(r: int, first: bool, last: bool) {
    || ((first || last) && r == SPACE as int)
    || (first && r == HASH as int)
    || (0 <= r < 0x80 && IsSpecial(r as byte))
  }

  /** What is written for one rune. */
  function EscapeRune(r: int, first: bool, last: bool): (e: seq<int>)
    requires IsScalar(r)
    ensures |e| >= 1 && AreScalars(e)
  {
    if TakesEscape(r, first, last) then [BACKSLASH as int, r]
    else if r == 0 then [BACKSLASH as int, 0x30, 0x30]
    else [r]
  }

  /** The runes written for the runes from index `k` on. */
  function EscapeFrom(rs: seq<int>, k: nat): (e: seq<int>)
    requires k <= |rs| && AreScalars(rs)
    ensures AreScalars(e)
    decreases |rs| - k
  {
    if k == |rs| then [] else EscapeRune(rs[k], k == 0, k == |rs| - 1) + EscapeFrom(rs, k + 1)
  }

  predicate AreScalars(rs: seq<int>) {
    forall i :: 0 <= i < |rs| ==> IsScalar(rs[i])
  }

  function Escaped(v: Octets): Octets {
    FromRunes(EscapeFrom(Runes(v), 0))
  }

  /** The body of the loop: what is written for the rune `c`. */
  method WriteRune(c: int, first: bool, last: bool) returns (w: Octets)
    requires IsScalar(c)
    ensures w == FromRunes(EscapeRune(c, first, last))
  {
    if (first || last) && c == SPACE as int {
      return FromRunes([BACKSLASH as int, c]);
    }
    if first && c == HASH as int {
      return FromRunes([BACKSLASH as int, c]);
    }
    if c < 0x80 && IsSpecial(c as byte) {
      return FromRunes([BACKSLASH as int, c]);
    }
    if c == 0 {
      return FromRunes([BACKSLASH as int, 0x30, 0x30]);
    }
    return FromRunes([c]);
  }

  /** The rune at octet `i` is the first of those left; a blank is the last rune exactly when it is
      the last octet. */
  lemma RuneAtOctet(v: Octets, i: nat, j: nat, c: int, rs: seq<int>, k: nat)
    requires i < |v| && k <= |rs| && Runes(v[i..]) == rs[k..]
    requires DecodeRune(v[i..]).rune == c && j == i + DecodeRune(v[i..]).width
    ensures k < |rs| && c == rs[k] && i < j <= |v| && Runes(v[j..]) == rs[k + 1..]
    ensures c == SPACE as int ==> (i == |v| - 1 <==> k == |rs| - 1)
  {
    assert v[i..][j - i..] == v[j..];
    assert Runes(v[i..])[0] == c && Runes(v[i..])[1..] == Runes(v[j..]);
    assert rs[k..][1..] == rs[k + 1..];
    assert |v[j..]| == 0 <==> |Runes(v[j..])| == 0;
  }

  lemma EscapeStep(rs: seq<int>, k: nat, builder: Octets)
    requires k < |rs| && AreScalars(rs)
    ensures builder + FromRunes(EscapeFrom(rs, k))
         == builder + FromRunes(EscapeRune(rs[k], k == 0, k == |rs| - 1)) + FromRunes(EscapeFrom(rs, k + 1))
  {
    FromRunesConcat(EscapeRune(rs[k], k == 0, k == |rs| - 1), EscapeFrom(rs, k + 1));
    ConcatAssoc(builder, FromRunes(EscapeRune(rs[k], k == 0, k == |rs| - 1)), FromRunes(EscapeFrom(rs, k + 1)));
  }

  lemma SameEscape(r: int, first: bool, last: bool, last': bool)
    requires IsScalar(r) && (r == SPACE as int ==> last == last')
    ensures EscapeRune(r, first, last) == EscapeRune(r, first, last')
  {
  }

  /** One turn of the loop, seen from the octets. */
  lemma EscapeTurn(v: Octets, i: nat, j: nat, c: int, rs: seq<int>, k: nat, builder: Octets)
    requires i < |v| && k <= |rs| && AreScalars(rs) && Runes(v[i..]) == rs[k..] && (i == 0 <==> k == 0)
    requires DecodeRune(v[i..]).rune == c && j == i + DecodeRune(v[i..]).width
    ensures k < |rs| && IsScalar(c) && i < j <= |v| && Runes(v[j..]) == rs[k + 1..]
    ensures builder + FromRunes(EscapeFrom(rs, k))
         == builder + FromRunes(EscapeRune(c, i == 0, i == |v| - 1)) + FromRunes(EscapeFrom(rs, k + 1))
  {
    RuneAtOctet(v, i, j, c, rs, k);
    EscapeStep(rs, k, builder);
    SameEscape(rs[k], k == 0, i == |v| - 1, k == |rs| - 1);
  }

  /** `EscapeDN`, which ranges over the runes of the text and their octet positions. */
  method EscapeDN(dn: Octets) returns (r: Octets)
    ensures r == Escaped(dn)
  {
    var builder: Octets := [];
    var i := 0;
    ghost var rs, k := Runes(dn), 0;
    assert dn[0..] == dn && rs[0..] == rs;
    while i < |dn|
      invariant 0 <= i <= |dn| && k <= |rs| && Runes(dn[i..]) == rs[k..]
      invariant i == 0 <==> k == 0
      invariant Escaped(dn) == builder + FromRunes(EscapeFrom(rs, k))
      decreases |dn| - i
    {
      var c, j := DecodeRune(dn[i..]).rune, i + DecodeRune(dn[i..]).width;
      EscapeTurn(dn, i, j, c, rs, k, builder);
      var written := WriteRune(c, i == 0, i == |dn| - 1);
      builder := builder + written;
      i, k := j, k + 1;
    }
    assert dn[i..] == [];
    return builder;
  }

  // ---------------------------------------------------------------- decoding

  lemma UnescapeRune(r: int, first: bool, last: bool, rest: seq<int>)
    requires IsScalar(r)
    ensures Unescape(EscapeRune(r, first, last) + rest) == Prepend(EncodeRune(r), Unescape(rest))
  {
    var e := EscapeRune(r, first, last);
    var s := e + rest;
    assert s[|e|..] == rest;
    if |e| == 2 {
      assert s[0] == BACKSLASH as int && s[1] == r;
    } else if |e| == 3 {
      assert s[0] == BACKSLASH as int && s[1] == 0x30 && s[2] == 0x30;
      assert HexPair(0x30, 0x30) == Some(0);
    } else {
      assert s[0] == r;
    }
  }

  lemma {:induction false} UnescapeOfEscape(rs: seq<int>, k: nat)
    requires k <= |rs| && AreScalars(rs)
    ensures Unescape(EscapeFrom(rs, k)) == Some(FromRunes(rs[k..]))
    decreases |rs| - k
  {
    if k < |rs| {
      UnescapeOfEscape(rs, k + 1);
      UnescapeStep(rs[k], k == 0, k == |rs| - 1, EscapeFrom(rs, k + 1), rs[k + 1..]);
      SliceCons(rs, k);
    } else {
      assert rs[k..] == [];
    }
  }

  lemma UnescapeStep(r: int, first: bool, last: bool, rest: seq<int>, rs: seq<int>)
    requires IsScalar(r) && Unescape(rest) == Some(FromRunes(rs))
    ensures Unescape(EscapeRune(r, first, last) + rest) == Some(FromRunes([r] + rs))
  {
    UnescapeRune(r, first, last, rest);
    FromRunesCons(r, rs);
  }

  lemma FromRunesCons(r: int, rs: seq<int>)
    ensures FromRunes([r] + rs) == EncodeRune(r) + FromRunes(rs)
  {
    assert ([r] + rs)[1..] == rs;
  }

  // ---------------------------------------------------------------- shape of the escaped text

  lemma WideIsClosed(s: Octets)
    requires forall k :: 0 <= k < |s| ==> 0x80 <= s[k]
    ensures Closed(s, FreeOf(true))
  {
    forall k | 0 <= k <= |s| ensures !Escaping(s, k) {
    }
  }

  lemma EscapedRuneShape(r: int, first: bool, last: bool)
    requires IsScalar(r)
    ensures var e := FromRunes(EscapeRune(r, first, last));
            && Closed(e, FreeOf(true)) && e != []
            && (first ==> e[0] != SPACE && e[0] != HASH)
            && (last ==> EndsClean(e)) && (e[|e| - 1] == SPACE ==> r == SPACE as int)
  {
    var w := EscapeRune(r, first, last);
    var e := FromRunes(w);
    if |w| == 1 {
      FromRunesCons(r, []);
      assert w == [r] + [] && e == EncodeRune(r);
      if r < 0x80 {
        assert !Escaping(e, 0) && !Escaping(e, 1);
      } else {
        WideIsClosed(e);
      }
    } else {
      EscapedText(r, first, last);
      assert !Escaping(e, 0) && Escaping(e, 1) && !Escaping(e, 2);
    }
  }

  lemma EscapedText(r: int, first: bool, last: bool)
    requires IsScalar(r) && |EscapeRune(r, first, last)| > 1
    ensures TakesEscape(r, first, last) ==> FromRunes(EscapeRune(r, first, last)) == [BACKSLASH, r as byte]
    ensures !TakesEscape(r, first, last) ==> FromRunes(EscapeRune(r, first, last)) == [BACKSLASH, 0x30, 0x30]
  {
    FromRunesCons(0x30, []);
    assert [0x30] + [] == [0x30];
    FromRunesCons(0x30, [0x30]);
    assert [0x30] + [0x30] == [0x30, 0x30];
    FromRunesCons(BACKSLASH as int, [0x30, 0x30]);
    assert [BACKSLASH as int] + [0x30, 0x30] == [BACKSLASH as int, 0x30, 0x30];
    FromRunesCons(r, []);
    assert [r] + [] == [r];
    FromRunesCons(BACKSLASH as int, [r]);
    assert [BACKSLASH as int] + [r] == [BACKSLASH as int, r];
  }

  ghost predicate HasShape(e: Octets, ends: bool) {
    Closed(e, FreeOf(true)) && (ends ==> EndsClean(e))
  }

  lemma ShapeStep(r: int, first: bool, last: bool, rest: seq<int>)
    requires IsScalar(r) && AreScalars(rest) && HasShape(FromRunes(rest), !last) && (last ==> rest == [])
    ensures HasShape(FromRunes(EscapeRune(r, first, last) + rest), true)
  {
    var e := EscapeRune(r, first, last);
    EscapedRuneShape(r, first, last);
    FromRunesConcat(e, rest);
    ShapeOfConcat(FromRunes(e), FromRunes(rest), last);
  }

  /** Escaped text holds no unescaped separator and keeps its blanks to itself. */
  lemma {:induction false} EscapedShape(rs: seq<int>, k: nat)
    requires k <= |rs| && AreScalars(rs)
    ensures HasShape(FromRunes(EscapeFrom(rs, k)), k < |rs|)
    decreases |rs| - k
  {
    if k < |rs| {
      EscapedShape(rs, k + 1);
      ShapeStep(rs[k], k == 0, k == |rs| - 1, EscapeFrom(rs, k + 1));
    }
  }

  lemma ShapeOfConcat(a: Octets, b: Octets, last: bool)
    requires Closed(a, FreeOf(true)) && Closed(b, FreeOf(true))
    requires if last then EndsClean(a) && b == [] else EndsClean(b)
    ensures Closed(a + b, FreeOf(true)) && EndsClean(a + b)
  {
    ClosedConcat(a, b, FreeOf(true));
    if last {
      assert a + b == a;
    } else {
      EndOfConcat(a, b);
    }
  }

  lemma EscapedStart(rs: seq<int>)
    requires rs != [] && AreScalars(rs)
    ensures var e := FromRunes(EscapeFrom(rs, 0)); e != [] && e[0] != SPACE && e[0] != HASH
  {
    EscapedRuneShape(rs[0], true, |rs| == 1);
    FromRunesConcat(EscapeRune(rs[0], true, |rs| == 1), EscapeFrom(rs, 1));
  }

  /** Decoding escaped text gives the value back, copied rune by rune. */
  lemma DecodeOfEscape(v: Octets)
    ensures Decode(Escaped(v)) == Some(Sanitize(v))
  {
    var e := Escaped(v);
    var rs := Runes(v);
    EscapedShape(rs, 0);
    if rs != [] {
      EscapedStart(rs);
    }
    StripAround(0, e, 0);
    assert Spaces(0) + e + Spaces(0) == e;
    RunesOfFromRunes(EscapeFrom(rs, 0));
    UnescapeOfEscape(rs, 0);
    assert rs[0..] == rs;
  }

  /** `EscapeDN` is undone by decoding exactly on valid UTF-8. */
  lemma EscapeIsFaithful(v: Octets)
    ensures Decode(Escaped(v)) == Some(v) <==> IsValid(v)
  {
    DecodeOfEscape(v);
    SanitizeIsIdentity(v);
  }

  /** A value that is not valid UTF-8 comes back as the three octets of U+FFFD. */
  lemma InvalidValueIsLost()
    ensures Decode(Escaped([0xFF])) == Some([0xEF, 0xBF, 0xBD])
  {
    DecodeOfEscape([0xFF]);
    SanitizeInvalid();
  }

  // ---------------------------------------------------------------- escaping inside a name

  /** The piece of text `t=value` with the value escaped. */
  function EscapedPiece(t: Octets, v: Octets): Piece {
    Piece(Encode(t, false), Escaped(v), Attribute(t, Sanitize(v)))
  }

  lemma EscapedIsReadable(t: Octets, v: Octets, ber: Octets -> Option<Octets>)
    requires t != []
    ensures IsReadable(EscapedPiece(t, v), ReadersWith(ber))
  {
    EncodeClosed(t, 0, false);
    DecodeEncoded(t, false);
    EscapedShape(Runes(v), 0);
    DecodeOfEscape(v);
    if v != [] {
      EscapedStart(Runes(v));
    }
  }

  /** What has been read in front of some text: finished RDNs, and the attributes of an open one. */
  datatype Head = Head(rdns: seq<RelativeDN>, attrs: seq<Attribute>)

  /** The RDNs of the text behind, the first of which belongs to the open one. */
  function Joined(h: Head, rdns: seq<RelativeDN>): seq<RelativeDN>
    requires rdns != []
  {
    h.rdns + [RelativeDN(h.attrs + rdns[0].attributes)] + rdns[1..]
  }

  function After(h: Head, p: Parsed): Parsed {
    match p
    case Ok(d) => Ok(DN(if d.rdns == [] then h.rdns else Joined(h, d.rdns)))
    case Err(_) => p
  }

  function Behind(h: Head, k: nat, st: Progress): Progress {
    if st.rdns == [] then Progress(h.rdns, h.attrs + st.rdn, st.typ, k + st.start)
    else Progress(Joined(h, st.rdns), st.rdn, st.typ, k + st.start)
  }

  lemma JoinedSnoc(h: Head, rdns: seq<RelativeDN>, r: RelativeDN)
    requires rdns != []
    ensures Joined(h, rdns + [r]) == Joined(h, rdns) + [r]
  {
    assert (rdns + [r])[1..] == rdns[1..] + [r];
    ConcatAssoc(h.rdns + [RelativeDN(h.attrs + rdns[0].attributes)], rdns[1..], [r]);
  }

  lemma BehindAppend(h: Head, k: nat, st: Progress, v: Octets, last: bool, next: nat)
    ensures Behind(h, k, Append(st, v, last, next)) == Append(Behind(h, k, st), v, last, k + next)
  {
    var rdn := st.rdn + [Attribute(st.typ, v)];
    ConcatAssoc(h.attrs, st.rdn, [Attribute(st.typ, v)]);
    if last && st.rdns == [] {
      assert st.rdns + [RelativeDN(rdn)] == [RelativeDN(rdn)];
      assert h.rdns + [RelativeDN(h.attrs + rdn)] + [] == h.rdns + [RelativeDN(h.attrs + rdn)];
    } else if last {
      JoinedSnoc(h, st.rdns, RelativeDN(rdn));
    }
  }

  lemma StepBehind(str: Octets, k: nat, tail: Octets, i: nat, st: Progress, h: Head, rd: Readers)
    requires At(str, k, tail) && !Escaping(str, k) && st.start <= i < |tail|
    ensures match Step(tail, i, st, rd)
            case Stop(e) => Step(str, k + i, Behind(h, k, st), rd) == Stop(e)
            case Go(st') => Step(str, k + i, Behind(h, k, st), rd) == Go(Behind(h, k, st'))
  {
    EscapingAt(str, k, tail, i);
    SliceOf(str, k, tail, st.start, i);
    AtIndex(str, k, tail, i);
    var v := rd.value(tail[st.start..i]);
    if v.Some? {
      BehindAppend(h, k, st, v.value, tail[i] != PLUS, i + 1);
    }
  }

  lemma FinishBehind(str: Octets, k: nat, tail: Octets, st: Progress, h: Head, rd: Readers)
    requires At(str, k, tail) && k + |tail| == |str| && st.start <= |tail|
    ensures Finish(str, Behind(h, k, st), rd) == After(h, Finish(tail, st, rd))
  {
    SliceOf(str, k, tail, st.start, |tail|);
    var v := rd.value(tail[st.start..]);
    if v.Some? {
      BehindAppend(h, k, st, v.value, true, |tail|);
    }
  }

  /** Behind a separator the rest of the text is parsed as it would be on its own. */
  lemma {:induction false} RunBehind(str: Octets, k: nat, tail: Octets, i: nat, st: Progress, h: Head, rd: Readers)
    requires At(str, k, tail) && k + |tail| == |str| && !Escaping(str, k) && st.start <= i <= |tail|
    ensures Run(str, k + i, Behind(h, k, st), rd) == After(h, Run(tail, i, st, rd))
    decreases |tail| - i
  {
    if i == |tail| {
      FinishBehind(str, k, tail, st, h, rd);
    } else {
      StepBehind(str, k, tail, i, st, h, rd);
      var m := Step(tail, i, st, rd);
      if m.Go? {
        RunBehind(str, k, tail, i + 1, m.st, h, rd);
      }
    }
  }

  lemma SliceOf(str: Octets, k: nat, tail: Octets, a: nat, b: nat)
    requires At(str, k, tail) && a <= b <= |tail|
    ensures str[k + a..k + b] == tail[a..b]
    ensures k + |tail| == |str| ==> str[k + a..] == tail[a..]
  {
    AtSlice(str, k, tail, b);
    AtSlice(str, k, tail[..b], a);
    assert tail[..b][a..] == tail[a..b];
    AtSlice(str, k, tail, a);
  }

  lemma {:induction false} BlankHasNoStructure(s: Octets, k: nat)
    requires IsBlank(s) && k < |s|
    ensures s[k] != EQUALS && !IsSeparator(s[k]) && s[k] != BACKSLASH
    decreases |s|
  {
    var d := DecodeRune(s);
    assert Runes(s)[0] == d.rune;
    if !IsInvalid(s) {
      EncodeOfDecode(s);
      if k < d.width {
        assert s[k] == EncodeRune(d.rune)[k];
      } else {
        assert forall i :: 0 <= i < |Runes(s[d.width..])| ==> Runes(s[d.width..])[i] == Runes(s)[i + 1];
        BlankHasNoStructure(s[d.width..], k - d.width);
      }
    }
  }

  lemma BlankIsIncomplete(tail: Octets, rd: Readers)
    requires IsBlank(tail)
    ensures Run(tail, 0, START, rd) == Err(IncompletePair)
  {
    forall k | 0 <= k < |tail| ensures !IsSeparator(tail[k]) && tail[k] != EQUALS {
      BlankHasNoStructure(tail, k);
    }
    RunOver(tail, 0, |tail|, START, rd);
  }

  // ---------------------------------------------------------------- text in front of a splice

  /** The parsing loop over the whole text, without what follows it. */
  function Walk(str: Octets, i: nat, st: Progress, rd: Readers): Move
    requires st.start <= i <= |str|
    decreases |str| - i
  {
    if i == |str| then Go(st)
    else
      match Step(str, i, st, rd)
      case Stop(e) => Stop(e)
      case Go(st') => Walk(str, i + 1, st', rd)
  }

  lemma StepInside(str: Octets, pre: Octets, i: nat, st: Progress, rd: Readers)
    requires At(str, 0, pre) && st.start <= i < |pre|
    ensures Step(str, i, st, rd) == Step(pre, i, st, rd)
  {
    EscapingAt(str, 0, pre, i);
    SliceOf(str, 0, pre, st.start, i);
    AtIndex(str, 0, pre, i);
  }

  /** What the loop does with the start of a text does not depend on the rest. */
  lemma {:induction false} RunWalks(str: Octets, pre: Octets, i: nat, st: Progress, rd: Readers)
    requires At(str, 0, pre) && st.start <= i <= |pre|
    ensures match Walk(pre, i, st, rd)
            case Stop(e) => Run(str, i, st, rd) == Err(e)
            case Go(u) => u.start <= |pre| && Run(str, i, st, rd) == Run(str, |pre|, u, rd)
    decreases |pre| - i
  {
    if i < |pre| {
      StepInside(str, pre, i, st, rd);
      var m := Step(pre, i, st, rd);
      if m.Go? {
        RunWalks(str, pre, i + 1, m.st, rd);
      }
    }
  }

  /** The start of a name, or text that ends in an unescaped separator. */
  predicate IsOpen(pre: Octets) {
    pre == [] || (IsSeparator(pre[|pre| - 1]) && !Escaping(pre, |pre| - 1))
  }

  lemma {:induction false} WalkEnds(pre: Octets, i: nat, st: Progress, rd: Readers)
    requires IsOpen(pre) && st.start <= i < |pre|
    ensures match Walk(pre, i, st, rd)
            case Stop(_) => true
            case Go(u) => u.typ == [] && u.start == |pre|
    decreases |pre| - i
  {
    var m := Step(pre, i, st, rd);
    if m.Go? && i + 1 < |pre| {
      WalkEnds(pre, i + 1, m.st, rd);
    }
  }

  // ---------------------------------------------------------------- splicing

  /** The name made of what was read before, the attribute `a`, and the text behind it. */
  function Spliced(before: Move, a: Attribute, rest: Octets, rd: Readers): Parsed {
    match before
    case Stop(e) => Err(e)
    case Go(st) =>
      if rest == [] then Ok(DN(st.rdns + [RelativeDN(st.rdn + [a])]))
      else if rest[0] == PLUS then After(Head(st.rdns, st.rdn + [a]), Run(rest[1..], 0, START, rd))
      else After(Head(st.rdns + [RelativeDN(st.rdn + [a])], []), Run(rest[1..], 0, START, rd))
  }

  lemma TailBehind(str: Octets, p: nat, tail: Octets, h: Head, rd: Readers)
    requires At(str, p, tail) && p + |tail| == |str| && !Escaping(str, p)
    ensures Run(str, p, Progress(h.rdns, h.attrs, [], p), rd) == After(h, Run(tail, 0, START, rd))
  {
    RunBehind(str, p, tail, 0, START, h, rd);
    assert h.attrs + [] == h.attrs;
  }

  /** The text at `q` behind a piece: nothing, or a separator and more. */
  lemma ContinueBehind(str: Octets, q: nat, rest: Octets, st: Progress, a: Attribute, rd: Readers)
    requires At(str, q, rest) && q + |rest| == |str| && !Escaping(str, q)
    requires rest == [] || IsSeparator(rest[0])
    ensures Continue(str, q, st, a, rd) == Spliced(Go(st), a, rest, rd)
  {
    if rest != [] {
      AtIndex(str, q, rest, 0);
      AtSlice(str, q, rest, 1);
      var h := if rest[0] == PLUS then Head(st.rdns, st.rdn + [a]) else Head(st.rdns + [RelativeDN(st.rdn + [a])], []);
      TailBehind(str, q + 1, rest[1..], h, rd);
    }
  }

  lemma PieceBehind(str: Octets, p: nat, q: nat, pc: Piece, rest: Octets, st: Progress, rd: Readers)
    requires IsReadable(pc, rd) && (rest == [] || IsSeparator(rest[0])) && st.start == p && st.typ == []
    requires At(str, p, PieceText(pc)) && q == p + |PieceText(pc)| && At(str, q, rest) && q + |rest| == |str|
    requires !Escaping(str, p)
    ensures Run(str, p, st, rd) == Spliced(Go(st), pc.attr, rest, rd)
  {
    if rest != [] { AtIndex(str, q, rest, 0); }
    RunPiece(str, p, q, pc, st, rd);
    ContinueBehind(str, q, rest, st, pc.attr, rd);
  }

  lemma RunSpliced(str: Octets, pre: Octets, pc: Piece, rest: Octets, rd: Readers)
    requires IsOpen(pre) && IsReadable(pc, rd) && (rest == [] || IsSeparator(rest[0]))
    requires At(str, 0, pre) && At(str, |pre|, PieceText(pc)) && At(str, |pre| + |PieceText(pc)|, rest)
    requires |pre| + |PieceText(pc)| + |rest| == |str|
    ensures Run(str, 0, START, rd) == Spliced(Walk(pre, 0, START, rd), pc.attr, rest, rd)
  {
    RunWalks(str, pre, 0, START, rd);
    if pre != [] { WalkEnds(pre, 0, START, rd); }
    var m := Walk(pre, 0, START, rd);
    if m.Go? {
      EscapingAt(str, 0, pre, |pre|);
      PieceBehind(str, |pre|, |pre| + |PieceText(pc)|, pc, rest, m.st, rd);
    }
  }

  lemma SpliceAt(str: Octets, a: Octets, b: Octets, c: Octets)
    requires str == a + (b + c)
    ensures At(str, 0, a) && At(str, |a|, b) && At(str, |a| + |b|, c) && |a| + |b| + |c| == |str|
  {
    assert str[0..|str|] == str;
    AtSplit(str, 0, a, b + c);
    AtSplit(str, |a|, b, c);
  }

  lemma EqualsIsNotBlank(str: Octets, p: nat, pc: Piece)
    requires At(str, p, PieceText(pc))
    ensures !IsBlank(str)
  {
    AtParts(str, p, p + |pc.typText|, pc.typText, pc.valueText);
    AtIndex(str, p + |pc.typText|, [EQUALS], 0);
    if IsBlank(str) { BlankHasNoStructure(str, p + |pc.typText|); }
  }

  function SplicedText(pre: Octets, t: Octets, v: Octets, rest: Octets): Octets {
    pre + (PieceText(EscapedPiece(t, v)) + rest)
  }

  /** A value spliced in through `EscapeDN`, at the start of a name or behind any unescaped separator
      and before the end or any separator, becomes the value of that one attribute, copied rune by
      rune; the text in front and the text behind are read as they are without it. */
  lemma SplicedValueIsInert(pre: Octets, t: Octets, v: Octets, rest: Octets, ber: Octets -> Option<Octets>)
    requires t != [] && IsOpen(pre) && (rest == [] || IsSeparator(rest[0]))
    ensures Parse(SplicedText(pre, t, v, rest), ber)
         == Spliced(Walk(pre, 0, START, ReadersWith(ber)), Attribute(t, Sanitize(v)), rest, ReadersWith(ber))
  {
    var pc, str := EscapedPiece(t, v), SplicedText(pre, t, v, rest);
    SpliceAt(str, pre, PieceText(pc), rest);
    EscapedIsReadable(t, v, ber);
    EqualsIsNotBlank(str, |pre|, pc);
    RunSpliced(str, pre, pc, rest, ReadersWith(ber));
  }

  function Replace(d: DN, i: nat, j: nat, a: Attribute): DN
    requires i < |d.rdns| && j < |d.rdns[i].attributes|
  {
    DN(d.rdns[i := RelativeDN(d.rdns[i].attributes[j := a])])
  }

  /** `p` and `q` are one error, or names that differ at most in their attribute at (i, j). */
  predicate DifferAt(p: Parsed, q: Parsed, i: nat, j: nat, a: Attribute, b: Attribute) {
    if p.Err? then q == p
    else
      && i < |p.dn.rdns| && j < |p.dn.rdns[i].attributes| && p.dn.rdns[i].attributes[j] == a
      && q == Ok(Replace(p.dn, i, j, b))
  }

  lemma AfterDiffers(before: Head, a: Attribute, b: Attribute, p: Parsed)
    requires p.Ok? ==> p.dn.rdns != []
    ensures DifferAt(After(Head(before.rdns, before.attrs + [a]), p), After(Head(before.rdns, before.attrs + [b]), p),
                     |before.rdns|, |before.attrs|, a, b)
  {
    if p.Ok? {
      var x := before.attrs + [a] + p.dn.rdns[0].attributes;
      var y := before.attrs + [b] + p.dn.rdns[0].attributes;
      assert x[|before.attrs| := b] == y;
      var xs, ys := Joined(Head(before.rdns, before.attrs + [a]), p.dn.rdns), Joined(Head(before.rdns, before.attrs + [b]), p.dn.rdns);
      assert xs[|before.rdns|] == RelativeDN(x);
      assert xs[|before.rdns| := RelativeDN(y)] == ys;
    }
  }

  lemma ClosedDiffers(rdns: seq<RelativeDN>, attrs: seq<Attribute>, a: Attribute, b: Attribute, more: seq<RelativeDN>)
    ensures DifferAt(Ok(DN(rdns + [RelativeDN(attrs + [a])] + more)), Ok(DN(rdns + [RelativeDN(attrs + [b])] + more)),
                     |rdns|, |attrs|, a, b)
  {
    assert (attrs + [a])[|attrs| := b] == attrs + [b];
    var xs := rdns + [RelativeDN(attrs + [a])] + more;
    assert xs[|rdns| := RelativeDN(attrs + [b])] == rdns + [RelativeDN(attrs + [b])] + more;
  }

  lemma {:induction false} RunHasRdns(str: Octets, i: nat, st: Progress, rd: Readers)
    requires st.start <= i <= |str|
    ensures Run(str, i, st, rd).Ok? ==> Run(str, i, st, rd).dn.rdns != []
    decreases |str| - i
  {
    if i < |str| {
      var m := Step(str, i, st, rd);
      if m.Go? { RunHasRdns(str, i + 1, m.st, rd); }
    }
  }

  lemma SplicedDiffers(st: Progress, a: Attribute, b: Attribute, rest: Octets, rd: Readers)
    ensures DifferAt(Spliced(Go(st), a, rest, rd), Spliced(Go(st), b, rest, rd), |st.rdns|, |st.rdn|, a, b)
  {
    if rest == [] {
      ClosedDiffers(st.rdns, st.rdn, a, b, []);
      var xs, ys := st.rdns + [RelativeDN(st.rdn + [a])], st.rdns + [RelativeDN(st.rdn + [b])];
      assert xs + [] == xs && ys + [] == ys;
    } else {
      var p := Run(rest[1..], 0, START, rd);
      RunHasRdns(rest[1..], 0, START, rd);
      if rest[0] == PLUS {
        AfterDiffers(Head(st.rdns, st.rdn), a, b, p);
      } else if p.Ok? {
        assert [] + p.dn.rdns[0].attributes == p.dn.rdns[0].attributes;
        ClosedDiffers(st.rdns, st.rdn, a, b, p.dn.rdns);
        JoinedClosed(st.rdns + [RelativeDN(st.rdn + [a])], p.dn.rdns);
        JoinedClosed(st.rdns + [RelativeDN(st.rdn + [b])], p.dn.rdns);
      }
    }
  }

  lemma JoinedClosed(rdns: seq<RelativeDN>, more: seq<RelativeDN>)
    requires more != []
    ensures Joined(Head(rdns, []), more) == rdns + more
  {
    assert RelativeDN([] + more[0].attributes) == more[0];
    ConsTail(rdns, more);
  }

  /** So whatever two values are spliced in at a place, both texts are refused with the same error or
      their names are the same but for that one value. */
  lemma SpliceChangesOneValue(
    pre: Octets, t: Octets, v: Octets, w: Octets, rest: Octets, ber: Octets -> Option<Octets>) returns (i: nat, j: nat)
    requires t != [] && IsOpen(pre) && (rest == [] || IsSeparator(rest[0]))
    ensures DifferAt(Parse(SplicedText(pre, t, v, rest), ber), Parse(SplicedText(pre, t, w, rest), ber), i, j,
                     Attribute(t, Sanitize(v)), Attribute(t, Sanitize(w)))
  {
    SplicedValueIsInert(pre, t, v, rest, ber);
    SplicedValueIsInert(pre, t, w, rest, ber);
    var m := Walk(pre, 0, START, ReadersWith(ber));
    i, j := 0, 0;
    if m.Go? {
      i, j := |m.st.rdns|, |m.st.rdn|;
      SplicedDiffers(m.st, Attribute(t, Sanitize(v)), Attribute(t, Sanitize(w)), rest, ReadersWith(ber));
    }
  }

  /** At the start of a name: the one attribute is the whole name, or its first RDN, or the first
      attribute of its first RDN, and what is behind the separator is parsed as on its own. */
  lemma EscapedValueIsInert(t: Octets, v: Octets, sep: byte, tail: Octets, ber: Octets -> Option<Octets>)
    requires t != [] && IsSeparator(sep)
    ensures var text, a := PieceText(EscapedPiece(t, v)), Attribute(t, Sanitize(v));
            && Parse(text, ber) == Ok(DN([RelativeDN([a])]))
            && Parse(text + ([sep] + tail), ber) ==
               if IsBlank(tail) then Err(IncompletePair)
               else After(if sep == PLUS then Head([], [a]) else Head([RelativeDN([a])], []), Parse(tail, ber))
  {
    var text, a := PieceText(EscapedPiece(t, v)), Attribute(t, Sanitize(v));
    var rest := [sep] + tail;
    SplicedValueIsInert([], t, v, [], ber);
    SplicedValueIsInert([], t, v, rest, ber);
    assert [] + (text + []) == text && [] + (text + rest) == text + rest;
    assert [] + [a] == [a] && [] + [RelativeDN([a])] == [RelativeDN([a])] && rest[1..] == tail;
    if IsBlank(tail) {
      BlankIsIncomplete(tail, ReadersWith(ber));
    }
  }
}
