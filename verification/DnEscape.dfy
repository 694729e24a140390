/** Escaping and unescaping of the attribute types and values in a distinguished name. */
module DnEscape {
  import opened Bytes
  import opened Utf8

  // ---------------------------------------------------------------- the escape state

  /** The octets before index `i` end in a backslash that waits for the character it escapes. */
  predicate Escaping(s: Octets, i: nat)
    requires i <= |s|
  {
    i > 0 && s[i - 1] == BACKSLASH && !Escaping(s, i - 1)
  }

  /** The number of backslashes right before index `i`. */
  function Backslashes(s: Octets, i: nat): nat
    requires i <= |s|
  {
    if i > 0 && s[i - 1] == BACKSLASH then 1 + Backslashes(s, i - 1) else 0
  }

  /** Counting the backslashes at the end tells whether the next character is escaped. */
  lemma {:induction false} EscapeParity(s: Octets, i: nat)
    requires i <= |s|
    ensures Escaping(s, i) <==> Backslashes(s, i) % 2 == 1
  {
    if i > 0 && s[i - 1] == BACKSLASH {
      EscapeParity(s, i - 1);
    }
  }

  /** Scanning starts afresh behind text that leaves no escape open. */
  lemma {:induction false} EscapingAt(str: Octets, p: nat, text: Octets, k: nat)
    requires At(str, p, text) && !Escaping(str, p) && k <= |text|
    ensures Escaping(str, p + k) == Escaping(text, k)
  {
    if k > 0 {
      AtIndex(str, p, text, k - 1);
      EscapingAt(str, p, text, k - 1);
    }
  }

  lemma {:induction false} EscapingPrefix(a: Octets, b: Octets, k: nat)
    requires k <= |a|
    ensures Escaping(a + b, k) == Escaping(a, k)
  {
    if k > 0 {
      EscapingPrefix(a, b, k - 1);
    }
  }

  lemma EscapingSuffix(a: Octets, b: Octets, k: nat)
    requires !Escaping(a, |a|) && k <= |b|
    ensures Escaping(a + b, |a| + k) == Escaping(b, k)
  {
    EscapingPrefix(a, b, |a|);
    assert (a + b)[|a|..|a| + |b|] == b;
    EscapingAt(a + b, |a|, b, k);
  }

  /** Every unescaped octet of `s` satisfies `p`, and no escape is left open. */
  ghost predicate Closed(s: Octets, p: byte -> bool) {
    !Escaping(s, |s|) && forall k :: 0 <= k < |s| && !Escaping(s, k) ==> p(s[k])
  }

  lemma ClosedConcat(a: Octets, b: Octets, p: byte -> bool)
    requires Closed(a, p) && Closed(b, p)
    ensures Closed(a + b, p)
  {
    EscapingSuffix(a, b, |b|);
    forall k | 0 <= k < |a + b| && !Escaping(a + b, k) ensures p((a + b)[k]) {
      if k < |a| {
        EscapingPrefix(a, b, k);
      } else {
        EscapingSuffix(a, b, k - |a|);
      }
    }
  }

  // ---------------------------------------------------------------- encoding

  predicate IsSpecial(c: byte) {
    c == QUOTE || c == PLUS || c == COMMA || c == SEMICOLON || c == LESS || c == GREATER || c == BACKSLASH
  }

  /** The octet is written behind a backslash. */
  predicate TakesBackslash(c: byte, first: bool, last: bool, isValue: bool) {
    || (first && (c == SPACE || c == HASH))
    || (last && c == SPACE)
    || IsSpecial(c)
    || (!isValue && c == EQUALS)
  }

  function EncodeOctet(c: byte, first: bool, last: bool, isValue: bool): (e: Octets)
    ensures 1 <= |e| <= 3 && IsAscii(e)
    ensures SPACE <= e[0] <= TILDE && (first ==> e[0] != SPACE)
  {
    if TakesBackslash(c, first, last, isValue) then assert c < 0x80; [BACKSLASH, c]
    else if c < SPACE || c > TILDE then [BACKSLASH] + Hex(c)
    else [c]
  }

  function EncodeFrom(v: Octets, i: nat, isValue: bool): (e: Octets)
    requires i <= |v|
    ensures i < |v| ==> e != []
    decreases |v| - i
  {
    if i == |v| then [] else EncodeOctet(v[i], i == 0, i == |v| - 1, isValue) + EncodeFrom(v, i + 1, isValue)
  }

  function Encode(v: Octets, isValue: bool): Octets {
    EncodeFrom(v, 0, isValue)
  }

  /** `encodeString`. */
  method EncodeString(value: Octets, isValue: bool) returns (r: Octets)
    ensures r == Encode(value, isValue)
  {
    var builder: Octets := [];
    for i := 0 to |value|
      invariant Encode(value, isValue) == builder + EncodeFrom(value, i, isValue)
    {
      var c := value[i];
      var written: Octets;
      if i == 0 && (c == SPACE || c == HASH) {
        written := [BACKSLASH, c];
      } else if i == |value| - 1 && c == SPACE {
        written := [BACKSLASH, c];
      } else if IsSpecial(c) {
        written := [BACKSLASH, c];
      } else if !isValue && c == EQUALS {
        written := [BACKSLASH, c];
      } else if c < SPACE || c > TILDE {
        written := [BACKSLASH] + Hex(c);
      } else {
        written := [c];
      }
      assert written == EncodeOctet(c, i == 0, i == |value| - 1, isValue);
      ConcatAssoc(builder, written, EncodeFrom(value, i + 1, isValue));
      builder := builder + written;
    }
    return builder;
  }

  /** What may stand unescaped in an encoded value or type. */
  function FreeOf(isValue: bool): byte -> bool {
    c => c != COMMA && c != PLUS && c != SEMICOLON && (isValue || c != EQUALS)
  }

  lemma EncodeOctetClosed(c: byte, first: bool, last: bool, isValue: bool)
    ensures Closed(EncodeOctet(c, first, last, isValue), FreeOf(isValue))
  {
    var e := EncodeOctet(c, first, last, isValue);
    assert !Escaping(e, 0);
    if |e| > 1 {
      assert Escaping(e, 1) && !Escaping(e, 2);
    }
  }

  /** Encoded text is ASCII and holds no unescaped separator. */
  lemma {:induction false} EncodeClosed(v: Octets, i: nat, isValue: bool)
    requires i <= |v|
    ensures Closed(EncodeFrom(v, i, isValue), FreeOf(isValue)) && IsAscii(EncodeFrom(v, i, isValue))
    decreases |v| - i
  {
    if i < |v| {
      EncodeOctetClosed(v[i], i == 0, i == |v| - 1, isValue);
      EncodeClosed(v, i + 1, isValue);
      ClosedConcat(EncodeOctet(v[i], i == 0, i == |v| - 1, isValue), EncodeFrom(v, i + 1, isValue), FreeOf(isValue));
    }
  }

  // ---------------------------------------------------------------- stripping spaces

  function TrimLeft(s: Octets): Octets {
    if s != [] && s[0] == SPACE then TrimLeft(s[1..]) else s
  }

  function TrimRight(s: Octets): Octets {
    if s != [] && s[|s| - 1] == SPACE then TrimRight(s[..|s| - 1]) else s
  }

  function Strip(s: Octets): Octets {
    var t := TrimRight(TrimLeft(s));
    if t != [] && s[|s| - 1] == SPACE && Backslashes(t, |t|) % 2 == 1 then t + [SPACE] else t
  }

  /** `stripLeadingAndTrailingSpaces`. */
  method StripLeadingAndTrailingSpaces(inVal: Octets) returns (r: Octets)
    ensures r == Strip(inVal)
  {
    var noSpaces := TrimRight(TrimLeft(inVal));
    if |noSpaces| > 0 && inVal[|inVal| - 1] == SPACE {
      var backslashes := 0;
      var i := |noSpaces| - 1;
      while i >= 0 && noSpaces[i] == BACKSLASH
        invariant -1 <= i < |noSpaces|
        invariant backslashes + Backslashes(noSpaces, i + 1) == Backslashes(noSpaces, |noSpaces|)
        decreases i
      {
        backslashes := backslashes + 1;
        i := i - 1;
      }
      if backslashes % 2 == 1 {
        noSpaces := noSpaces + [SPACE];
      }
    }
    return noSpaces;
  }

  function Spaces(n: nat): (s: Octets)
    ensures |s| == n
  {
    seq(n, _ => SPACE)
  }

  lemma {:induction false} TrimLeftSpaces(m: nat, s: Octets)
    requires s != [] ==> s[0] != SPACE
    ensures TrimLeft(Spaces(m) + s) == s
  {
    if m == 0 {
      assert Spaces(m) + s == s;
    } else {
      assert (Spaces(m) + s)[1..] == Spaces(m - 1) + s;
      TrimLeftSpaces(m - 1, s);
    }
  }

  lemma {:induction false} TrimRightSpaces(s: Octets, n: nat)
    requires s != [] ==> s[|s| - 1] != SPACE
    ensures TrimRight(s + Spaces(n)) == s
  {
    if n == 0 {
      assert s + Spaces(n) == s;
    } else {
      assert (s + Spaces(n))[..|s| + n - 1] == s + Spaces(n - 1);
      TrimRightSpaces(s, n - 1);
    }
  }

  /** Blanks around text that starts with no blank and leaves no escape open are dropped, and an
      escaped blank at its end is kept. */
  lemma StripAround(m: nat, s: Octets, n: nat)
    requires s != [] ==> s[0] != SPACE
    requires !Escaping(s, |s|)
    requires s != [] ==> EndsClean(s)
    ensures Strip(Spaces(m) + s + Spaces(n)) == s
  {
    if s == [] {
      assert Spaces(m) + s + Spaces(n) == Spaces(m + n) + [];
      TrimLeftSpaces(m + n, []);
    } else {
      assert Spaces(m) + s + Spaces(n) == Spaces(m) + (s + Spaces(n));
      TrimLeftSpaces(m, s + Spaces(n));
      if s[|s| - 1] == SPACE {
        StripEscapedEnd(Spaces(m) + s + Spaces(n), s, n);
      } else {
        PlainEnd(s, n);
      }
    }
  }

  lemma StripEscapedEnd(all: Octets, s: Octets, n: nat)
    requires s != [] && s[|s| - 1] == SPACE && Escaping(s, |s| - 1)
    requires TrimLeft(all) == s + Spaces(n) && all != [] && all[|all| - 1] == SPACE
    ensures Strip(all) == s
  {
    var t := s[..|s| - 1];
    assert s == t + [SPACE];
    EscapingPrefix(t, [SPACE], |t|);
    EscapedEnd(t, n);
  }

  lemma PlainEnd(s: Octets, n: nat)
    requires s != [] && !Escaping(s, |s|) && s[|s| - 1] != SPACE
    ensures TrimRight(s + Spaces(n)) == s && Backslashes(s, |s|) % 2 == 0
  {
    TrimRightSpaces(s, n);
    EscapeParity(s, |s|);
  }

  /** Behind the last escape a run of blanks loses all but the escaped one, which the count of
      backslashes brings back. */
  lemma EscapedEnd(t: Octets, n: nat)
    requires Escaping(t, |t|)
    ensures TrimRight(t + [SPACE] + Spaces(n)) == t && Backslashes(t, |t|) % 2 == 1
  {
    assert t + [SPACE] + Spaces(n) == t + Spaces(n + 1);
    TrimRightSpaces(t, n + 1);
    EscapeParity(t, |t|);
  }

  // ---------------------------------------------------------------- decoding

  predicate IsEscapable(r: int) {
    r == SPACE as int || r == QUOTE as int || r == HASH as int || r == PLUS as int || r == COMMA as int ||
    r == SEMICOLON as int || r == LESS as int || r == EQUALS as int || r == GREATER as int || r == BACKSLASH as int
  }

  /** The characters `decodeString` refuses unescaped. */
  predicate IsRefused(r: int) {
    r == QUOTE as int || r == SEMICOLON as int || r == LESS as int || r == GREATER as int || r == 0
  }

  /** The decoding loop, on the runes of the stripped text. */
  function Unescape(s: seq<int>): Option<Octets> {
    if s == [] then Some([])
    else if s[0] != BACKSLASH as int then
      if IsRefused(s[0]) then None else Prepend(EncodeRune(s[0]), Unescape(s[1..]))
    else if |s| < 2 then None
    else if IsEscapable(s[1]) then Prepend([s[1] as byte], Unescape(s[2..]))
    else if |s| < 3 then None
    else
      match HexPair(s[1], s[2])
      case None => None
      case Some(b) => Prepend([b], Unescape(s[3..]))
  }

  /** Two runes that are hexadecimal digits. */
  function HexPair(hi: int, lo: int): Option<byte> {
    var xx := EncodeRune(hi) + EncodeRune(lo);
    if |xx| != 2 then None else Unhex(xx[0], xx[1])
  }

  function Decode(str: Octets): Option<Octets> {
    Unescape(Runes(Strip(str)))
  }

  /** `decodeString`. */
  method DecodeString(str: Octets) returns (r: Option<Octets>)
    ensures r == Decode(str)
  {
    var stripped := StripLeadingAndTrailingSpaces(str);
    var s := Runes(stripped);
    var builder: Octets := [];
    var i := 0;
    assert s[0..] == s && forall rest: Octets :: [] + rest == rest;
    while i < |s|
      invariant 0 <= i <= |s|
      invariant Unescape(s) == Prepend(builder, Unescape(s[i..]))
      decreases |s| - i
    {
      var c := s[i];
      ghost var rest := s[i..];
      if c != BACKSLASH as int {
        if IsRefused(c) {
          return None;
        }
        PrependTwice(builder, EncodeRune(c), Unescape(s[i + 1..]));
        assert rest[1..] == s[i + 1..];
        builder := builder + EncodeRune(c);
        i := i + 1;
        continue;
      }
      if i + 1 >= |s| {
        return None;
      }
      if IsEscapable(s[i + 1]) {
        PrependTwice(builder, [s[i + 1] as byte], Unescape(s[i + 2..]));
        assert rest[2..] == s[i + 2..];
        builder := builder + [s[i + 1] as byte];
        i := i + 2;
        continue;
      }
      if i + 2 >= |s| {
        return None;
      }
      var b := HexPair(s[i + 1], s[i + 2]);
      if b.None? {
        return None;
      }
      PrependTwice(builder, [b.value], Unescape(s[i + 3..]));
      assert rest[3..] == s[i + 3..];
      builder := builder + [b.value];
      i := i + 3;
    }
    assert builder + [] == builder;
    return Some(builder);
  }

  lemma PrependTwice(a: Octets, b: Octets, r: Option<Octets>)
    ensures Prepend(a, Prepend(b, r)) == Prepend(a + b, r)
  {
    if r.Some? {
      assert a + (b + r.value) == a + b + r.value;
    }
  }

  lemma UnescapeOctet(c: byte, first: bool, last: bool, isValue: bool, rest: seq<int>)
    ensures var e := EncodeOctet(c, first, last, isValue);
            Unescape(Runes(e) + rest) == Prepend([c], Unescape(rest))
  {
    var e := EncodeOctet(c, first, last, isValue);
    RunesOfAscii(e);
    var s := Runes(e) + rest;
    assert s[|e|..] == rest;
    assert s[0] == e[0] as int;
    if |e| == 2 {
      assert s[1] == c as int;
    } else if |e| == 3 {
      assert s[1] == Hex(c)[0] as int && s[2] == Hex(c)[1] as int;
    }
  }

  lemma {:induction false} RunesOfAsciiConcat(a: Octets, b: Octets)
    requires IsAscii(a)
    ensures Runes(a + b) == Runes(a) + Runes(b)
  {
    if a == [] {
      assert a + b == b;
    } else {
      assert (a + b)[1..] == a[1..] + b;
      RunesOfAsciiConcat(a[1..], b);
    }
  }

  lemma UnescapeCons(c: byte, first: bool, last: bool, isValue: bool, rest: Octets, v: Octets)
    requires Unescape(Runes(rest)) == Some(v)
    ensures Unescape(Runes(EncodeOctet(c, first, last, isValue) + rest)) == Some([c] + v)
  {
    RunesOfAsciiConcat(EncodeOctet(c, first, last, isValue), rest);
    UnescapeOctet(c, first, last, isValue, Runes(rest));
  }

  lemma {:induction false} UnescapeOfEncode(v: Octets, i: nat, isValue: bool)
    requires i <= |v|
    ensures Unescape(Runes(EncodeFrom(v, i, isValue))) == Some(v[i..])
    decreases |v| - i
  {
    if i < |v| {
      UnescapeOfEncode(v, i + 1, isValue);
      UnescapeCons(v[i], i == 0, i == |v| - 1, isValue, EncodeFrom(v, i + 1, isValue), v[i + 1..]);
      SliceCons(v, i);
    } else {
      assert v[i..] == [];
    }
  }

  /** The text ends in a blank only where the blank is escaped. */
  predicate EndsClean(e: Octets) {
    e != [] && (e[|e| - 1] == SPACE ==> Escaping(e, |e| - 1))
  }

  /** The octet `n` of `b` stands behind `a` as it stands in `b`. */
  lemma OctetBehind(a: Octets, b: Octets, n: nat, m: nat)
    requires !Escaping(a, |a|) && n < |b| && m == |a| + n
    ensures (a + b)[m] == b[n] && Escaping(a + b, m) == Escaping(b, n)
  {
    EscapingSuffix(a, b, n);
  }

  lemma EndOfConcat(a: Octets, b: Octets)
    requires !Escaping(a, |a|) && EndsClean(b)
    ensures EndsClean(a + b)
  {
    OctetBehind(a, b, |b| - 1, |a + b| - 1);
  }

  lemma {:induction false} EncodeEnd(v: Octets, i: nat, isValue: bool)
    requires i < |v|
    ensures EndsClean(EncodeFrom(v, i, isValue))
    decreases |v| - i
  {
    var c, rest := EncodeOctet(v[i], i == 0, i == |v| - 1, isValue), EncodeFrom(v, i + 1, isValue);
    if i + 1 == |v| {
      assert c + rest == c;
      assert |c| > 1 ==> Escaping(c, 1);
    } else {
      EncodeEnd(v, i + 1, isValue);
      EncodeOctetClosed(v[i], i == 0, i == |v| - 1, isValue);
      EndOfConcat(c, rest);
    }
  }

  /** Decoding undoes encoding, whatever the octets and however many blanks surround the text. */
  lemma DecodeUndoesEncode(m: nat, v: Octets, isValue: bool, n: nat)
    ensures Decode(Spaces(m) + Encode(v, isValue) + Spaces(n)) == Some(v)
  {
    var e := Encode(v, isValue);
    EncodeClosed(v, 0, isValue);
    if v != [] {
      EncodeEnd(v, 0, isValue);
      assert e[0] == EncodeOctet(v[0], true, |v| == 1, isValue)[0];
    }
    StripAround(m, e, n);
    UnescapeOfEncode(v, 0, isValue);
    assert v[0..] == v;
  }
}
