/** Postal addresses: lines separated by `$`, with `\` and `$` escaped inside a line. */
module Postal {
  import opened Bytes
  import opened Utf8

  datatype PostalAddress = PostalAddress(lines: seq<Octets>)

  datatype Result =
    | Address(address: PostalAddress)
    | EmptyAddress
    | InvalidEscape(at: nat)
    | IncompleteEscape(at: nat)

  const FIVE: byte := 0x35
  const UPPER_C: byte := 0x43
  const LOWER_C: byte := 0x63
  const TWO: byte := 0x32
  const FOUR: byte := 0x34

  // ---------------------------------------------------------------- construction and equality

  function NonEmpty(lines: seq<Octets>): (r: seq<Octets>)
    ensures forall i :: 0 <= i < |r| ==> r[i] != []
  {
    if lines == [] then []
    else if lines[0] == [] then NonEmpty(lines[1..])
    else [lines[0]] + NonEmpty(lines[1..])
  }

  /** The addresses that `NewPostalAddress` and `ParsePostalAddress` return. */
  predicate IsConstructible(p: PostalAddress) {
    p.lines != [] && forall i :: 0 <= i < |p.lines| ==> p.lines[i] != []
  }

  lemma NonEmptyUnfolds(lines: seq<Octets>, i: nat, copied: seq<Octets>)
    requires i < |lines|
    ensures copied + NonEmpty(lines[i..])
         == (if lines[i] == [] then copied else copied + [lines[i]]) + NonEmpty(lines[i + 1..])
  {
    assert lines[i..][1..] == lines[i + 1..];
    ConsAssoc(copied, lines[i], NonEmpty(lines[i + 1..]));
  }

  method NewPostalAddress(lines: seq<Octets>) returns (r: Result)
    ensures r.Address? ==> IsConstructible(r.address) && r.address.lines == NonEmpty(lines)
    ensures !r.Address? ==> r.EmptyAddress? && forall i :: 0 <= i < |lines| ==> lines[i] == []
  {
    var copied: seq<Octets> := [];
    assert lines[0..] == lines;
    var i := 0;
    while i < |lines|
      invariant 0 <= i <= |lines| && NonEmpty(lines) == copied + NonEmpty(lines[i..])
      invariant copied == [] ==> forall k :: 0 <= k < i ==> lines[k] == []
    {
      NonEmptyUnfolds(lines, i, copied);
      if lines[i] != [] { copied := copied + [lines[i]]; }
      i := i + 1;
    }
    assert copied + [] == copied;
    if |copied| == 0 { return EmptyAddress; }
    return Address(PostalAddress(copied));
  }

  /** A nil address equals only a nil address. */
  method Equal(p: Option<PostalAddress>, other: Option<PostalAddress>) returns (same: bool)
    ensures same <==> p == other
  {
    if p.None? || other.None? { return p.None? && other.None?; }
    var a, b := p.value.lines, other.value.lines;
    if |a| != |b| { return false; }
    var i := 0;
    while i < |a|
      invariant 0 <= i <= |a| && a[..i] == b[..i]
    {
      if a[i] != b[i] { return false; }
      i := i + 1;
    }
    assert a == a[..i] && b == b[..i];
    return true;
  }

  // ---------------------------------------------------------------- escaping

  function EscapeRune(r: int): Octets {
    if r == BACKSLASH as int then [BACKSLASH, FIVE, UPPER_C]
    else if r == DOLLAR as int then [BACKSLASH, TWO, FOUR]
    else EncodeRune(r)
  }

  function EscapeRunes(rs: seq<int>): Octets {
    if rs == [] then [] else EscapeRune(rs[0]) + EscapeRunes(rs[1..])
  }

  function EscapeLine(line: Octets): Octets {
    EscapeRunes(Runes(line))
  }

  function Escaped(lines: seq<Octets>): Octets {
    if lines == [] then [] else EscapeLine(lines[0]) + ([DOLLAR] + Escaped(lines[1..]))
  }

  /** One turn of the loop over the runes of a line. */
  lemma EscapeTurn(line: Octets, i: nat, j: nat, builder: Octets)
    requires i < |line| && j == i + DecodeRune(line[i..]).width
    ensures i < j <= |line|
    ensures builder + EscapeLine(line[i..])
         == (builder + EscapeRune(DecodeRune(line[i..]).rune)) + EscapeLine(line[j..])
  {
    var d := DecodeRune(line[i..]);
    assert line[i..][d.width..] == line[j..];
    assert Runes(line[i..])[0] == d.rune && Runes(line[i..])[1..] == Runes(line[j..]);
    ConcatAssoc(builder, EscapeRune(d.rune), EscapeLine(line[j..]));
  }

  method WriteLine(line: Octets) returns (builder: Octets)
    ensures builder == EscapeLine(line)
  {
    builder := [];
    assert line[0..] == line;
    var i := 0;
    while i < |line|
      invariant 0 <= i <= |line| && EscapeLine(line) == builder + EscapeLine(line[i..])
    {
      var c, j := DecodeRune(line[i..]).rune, i + DecodeRune(line[i..]).width;
      EscapeTurn(line, i, j, builder);
      if c == BACKSLASH as int {
        builder := builder + [BACKSLASH, FIVE, UPPER_C];
      } else if c == DOLLAR as int {
        builder := builder + [BACKSLASH, TWO, FOUR];
      } else {
        builder := builder + EncodeRune(c);
      }
      i := j;
    }
  }

  lemma EscapedUnfolds(lines: seq<Octets>, i: nat, builder: Octets)
    requires i < |lines|
    ensures builder + Escaped(lines[i..]) == (builder + EscapeLine(lines[i]) + [DOLLAR]) + Escaped(lines[i + 1..])
  {
    assert lines[i..][1..] == lines[i + 1..];
    ConcatAssoc(builder, EscapeLine(lines[i]), [DOLLAR]);
    ConcatAssoc(builder, EscapeLine(lines[i]) + [DOLLAR], Escaped(lines[i + 1..]));
    ConcatAssoc(EscapeLine(lines[i]), [DOLLAR], Escaped(lines[i + 1..]));
  }

  method Escape(p: PostalAddress) returns (builder: Octets)
    ensures builder == Escaped(p.lines)
  {
    builder := [];
    assert p.lines[0..] == p.lines;
    var i := 0;
    while i < |p.lines|
      invariant 0 <= i <= |p.lines| && Escaped(p.lines) == builder + Escaped(p.lines[i..])
    {
      EscapedUnfolds(p.lines, i, builder);
      var line := WriteLine(p.lines[i]);
      builder := builder + line + [DOLLAR];
      i := i + 1;
    }
  }

  // ---------------------------------------------------------------- parsing

  /** `strings.Split` at each `$`. */
  function Split(s: Octets): (r: seq<Octets>)
    ensures r != []
  {
    if s == [] then [[]]
    else
      var r := Split(s[1..]);
      if s[0] == DOLLAR then [[]] + r else [[s[0]] + r[0]] + r[1..]
  }

  datatype Line = Text(text: Octets) | Bad(at: nat) | Cut(at: nat)

  function Prefix(a: Octets, l: Line): Line {
    if l.Text? then Text(a + l.text) else l
  }

  /** The character of a two-digit escape. */
  function EscapedChar(a: byte, b: byte): Option<byte> {
    if a == FIVE && (b == UPPER_C || b == LOWER_C) then Some(BACKSLASH)
    else if a == TWO && b == FOUR then Some(DOLLAR)
    else None
  }

  function ParseFrom(line: Octets, i: nat): Line
    requires i <= |line|
    decreases |line| - i
  {
    if i == |line| then Text([])
    else if line[i] != BACKSLASH then Prefix([line[i]], ParseFrom(line, i + 1))
    else if i + 3 > |line| then Cut(i)
    else
      var c := EscapedChar(line[i + 1], line[i + 2]);
      if c.None? then Bad(i) else Prefix([c.value], ParseFrom(line, i + 3))
  }

  lemma PrefixGrows(a: Octets, b: Octets, l: Line)
    ensures Prefix(a, Prefix(b, l)) == Prefix(a + b, l)
  {
    if l.Text? { ConcatAssoc(a, b, l.text); }
  }

  method ParseLine(line: Octets) returns (r: Line)
    ensures r == ParseFrom(line, 0)
  {
    var builder: Octets := [];
    var i := 0;
    while i < |line|
      invariant 0 <= i <= |line| && ParseFrom(line, 0) == Prefix(builder, ParseFrom(line, i))
    {
      if line[i] == BACKSLASH && i + 3 <= |line| {
        var c := EscapedChar(line[i + 1], line[i + 2]);
        if c.None? { return Bad(i); }
        PrefixGrows(builder, [c.value], ParseFrom(line, i + 3));
        builder := builder + [c.value];
        i := i + 3;
      } else if line[i] == BACKSLASH {
        return Cut(i);
      } else {
        PrefixGrows(builder, [line[i]], ParseFrom(line, i + 1));
        builder := builder + [line[i]];
        i := i + 1;
      }
    }
    return Text(builder);
  }

  /** The lines that are not empty, parsed in turn after those already parsed. */
  function ParseLines(lines: seq<Octets>, parsed: seq<Octets>): Result {
    if lines == [] then if parsed == [] then EmptyAddress else Address(PostalAddress(parsed))
    else if lines[0] == [] then ParseLines(lines[1..], parsed)
    else
      match ParseFrom(lines[0], 0)
      case Text(t) => ParseLines(lines[1..], parsed + [t])
      case Bad(i) => InvalidEscape(i)
      case Cut(i) => IncompleteEscape(i)
  }

  function Parse(escaped: Octets): Result {
    ParseLines(Split(escaped), [])
  }

  method ParsePostalAddress(escaped: Octets) returns (r: Result)
    ensures r == Parse(escaped)
  {
    var lines := Split(escaped);
    var parsed: seq<Octets> := [];
    var k := 0;
    while k < |lines|
      invariant 0 <= k <= |lines| && Parse(escaped) == ParseLines(lines[k..], parsed)
    {
      assert lines[k..][0] == lines[k] && lines[k..][1..] == lines[k + 1..];
      if lines[k] != [] {
        var line := ParseLine(lines[k]);
        match line {
          case Bad(i) => return InvalidEscape(i);
          case Cut(i) => return IncompleteEscape(i);
          case Text(t) => parsed := parsed + [t];
        }
      }
      k := k + 1;
    }
    if |parsed| == 0 { return EmptyAddress; }
    return Address(PostalAddress(parsed));
  }

  // ---------------------------------------------------------------- the round trip

  predicate IsFreeOf(s: Octets, b: byte) {
    forall i :: 0 <= i < |s| ==> s[i] != b
  }

  /** Octets without a backslash are copied. */
  lemma {:induction false} ParsePlain(line: Octets, i: nat, n: nat)
    requires i + n <= |line| && IsFreeOf(line[i..i + n], BACKSLASH)
    ensures ParseFrom(line, i) == Prefix(line[i..i + n], ParseFrom(line, i + n))
    decreases n
  {
    if n == 0 {
      assert line[i..i] == [];
    } else {
      assert line[i..i + n][0] == line[i];
      assert line[i..i + n][1..] == line[i + 1..i + n];
      ParsePlain(line, i + 1, n - 1);
      PrefixGrows([line[i]], line[i + 1..i + n], ParseFrom(line, i + n));
      assert [line[i]] + line[i + 1..i + n] == line[i..i + n];
    }
  }

  lemma ParseRune(line: Octets, i: nat, r: int, rest: Octets)
    requires i <= |line| && IsScalar(r) && line[i..] == EscapeRune(r) + rest
    ensures var n := |EscapeRune(r)|;
      i + n <= |line| && line[i + n..] == rest && ParseFrom(line, i) == Prefix(EncodeRune(r), ParseFrom(line, i + n))
  {
    var e := EscapeRune(r);
    var n := |e|;
    assert line[i..][n..] == rest && line[i + n..] == line[i..][n..];
    assert forall k :: 0 <= k < n ==> line[i + k] == line[i..][k] == e[k];
    if r != BACKSLASH as int && r != DOLLAR as int {
      assert line[i..i + n] == e;
      ParsePlain(line, i, n);
    }
  }

  lemma {:induction false} ParseOfEscape(line: Octets, i: nat, rs: seq<int>)
    requires i <= |line| && line[i..] == EscapeRunes(rs) && forall k :: 0 <= k < |rs| ==> IsScalar(rs[k])
    ensures ParseFrom(line, i) == Text(FromRunes(rs))
    decreases |rs|
  {
    if rs != [] {
      ParseRune(line, i, rs[0], EscapeRunes(rs[1..]));
      ParseOfEscape(line, i + |EscapeRune(rs[0])|, rs[1..]);
    }
  }

  lemma {:induction false} EscapeHidesDollar(rs: seq<int>)
    ensures IsFreeOf(EscapeRunes(rs), DOLLAR) && (rs != [] ==> EscapeRunes(rs) != [])
  {
    if rs != [] {
      EscapeHidesDollar(rs[1..]);
      assert IsFreeOf(EscapeRune(rs[0]), DOLLAR);
    }
  }

  lemma {:induction false} SplitFirst(a: Octets, rest: Octets)
    requires IsFreeOf(a, DOLLAR)
    ensures Split(a + ([DOLLAR] + rest)) == [a] + Split(rest)
  {
    var s := a + ([DOLLAR] + rest);
    if a == [] {
      assert s == [DOLLAR] + rest && s[1..] == rest;
    } else {
      assert s[0] == a[0] && s[1..] == a[1..] + ([DOLLAR] + rest);
      SplitFirst(a[1..], rest);
      assert [a[0]] + a[1..] == a;
    }
  }

  function Sanitized(lines: seq<Octets>): seq<Octets> {
    if lines == [] then [] else [Sanitize(lines[0])] + Sanitized(lines[1..])
  }

  lemma {:induction false} ParseOfEscaped(lines: seq<Octets>, parsed: seq<Octets>)
    requires forall i :: 0 <= i < |lines| ==> lines[i] != []
    requires lines + parsed != []
    ensures ParseLines(Split(Escaped(lines)), parsed) == Address(PostalAddress(parsed + Sanitized(lines)))
    decreases |lines|
  {
    if lines == [] {
      assert Split([])[0] == [] && |Split([])| == 1;
      assert Split([])[1..] == [];
      assert parsed + [] == parsed;
    } else {
      var line, rest := lines[0], lines[1..];
      var e := EscapeLine(line);
      EscapeHidesDollar(Runes(line));
      SplitFirst(e, Escaped(rest));
      assert ([e] + Split(Escaped(rest)))[1..] == Split(Escaped(rest));
      assert e[0..] == e;
      ParseOfEscape(e, 0, Runes(line));
      ParseOfEscaped(rest, parsed + [Sanitize(line)]);
      ConsAssoc(parsed, Sanitize(line), Sanitized(rest));
    }
  }

  lemma {:induction false} SanitizedIsIdentity(lines: seq<Octets>)
    ensures Sanitized(lines) == lines <==> forall i :: 0 <= i < |lines| ==> IsValid(lines[i])
  {
    if lines != [] {
      SanitizeIsIdentity(lines[0]);
      SanitizedIsIdentity(lines[1..]);
      assert Sanitized(lines)[1..] == Sanitized(lines[1..]);
    }
  }

  /** Parsing an escaped address succeeds, and gives back its lines if and only if they are all
      valid UTF-8. */
  lemma RoundTrip(p: PostalAddress)
    requires IsConstructible(p)
    ensures Parse(Escaped(p.lines)).Address?
    ensures Parse(Escaped(p.lines)) == Address(p) <==> forall i :: 0 <= i < |p.lines| ==> IsValid(p.lines[i])
  {
    ParseOfEscaped(p.lines, []);
    assert [] + Sanitized(p.lines) == Sanitized(p.lines);
    SanitizedIsIdentity(p.lines);
  }

  /** A line that is not valid UTF-8 comes back as the three octets of U+FFFD. */
  lemma InvalidLineIsLost()
    ensures Parse(Escaped([[0xFF]])) == Address(PostalAddress([[0xEF, 0xBF, 0xBD]]))
  {
    var lines: seq<Octets> := [[0xFF]];
    ParseOfEscaped(lines, []);
    SanitizeInvalid();
    assert lines[1..] == [] && [] + Sanitized(lines) == [Sanitize([0xFF])];
  }

  lemma {:induction false} ParsedLines(lines: seq<Octets>, parsed: seq<Octets>)
    requires forall i :: 0 <= i < |parsed| ==> parsed[i] != []
    ensures ParseLines(lines, parsed).Address? ==> IsConstructible(ParseLines(lines, parsed).address)
    decreases |lines|
  {
    if lines != [] {
      if lines[0] == [] {
        ParsedLines(lines[1..], parsed);
      } else if ParseFrom(lines[0], 0).Text? {
        ParsedLines(lines[1..], parsed + [ParseFrom(lines[0], 0).text]);
      }
    }
  }

  /** What parsing returns can be printed and parsed again. */
  lemma ParsedIsConstructible(escaped: Octets)
    requires Parse(escaped).Address?
    ensures IsConstructible(Parse(escaped).address)
  {
    ParsedLines(Split(escaped), []);
  }
}
