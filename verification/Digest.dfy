/** The directives of a DIGEST-MD5 challenge, and the quoted strings of its response. */
module Digest {
  import opened Bytes
  import opened Utf8

  // ---------------------------------------------------------------- quoted strings

  /** `strings.ReplaceAll` for a one-character pattern. */
  function ReplaceAll(s: Octets, b: byte, with: Octets): Octets {
    if s == [] then [] else (if s[0] == b then with else [s[0]]) + ReplaceAll(s[1..], b, with)
  }

  function QuotedStringEscape(s: Octets): Octets {
    ReplaceAll(ReplaceAll(s, BACKSLASH, [BACKSLASH, BACKSLASH]), QUOTE, [BACKSLASH, QUOTE])
  }

  /** A backslash before each backslash and each quote, in one pass. */
  function Quoted(s: Octets): Octets {
    if s == [] then []
    else (if s[0] == BACKSLASH || s[0] == QUOTE then [BACKSLASH, s[0]] else [s[0]]) + Quoted(s[1..])
  }

  lemma {:induction false} ReplaceAllConcat(a: Octets, c: Octets, b: byte, with: Octets)
    ensures ReplaceAll(a + c, b, with) == ReplaceAll(a, b, with) + ReplaceAll(c, b, with)
  {
    if a == [] {
      assert a + c == c;
    } else {
      assert (a + c)[1..] == a[1..] + c;
      ReplaceAllConcat(a[1..], c, b, with);
    }
  }

  lemma ReplaceOne(x: byte)
    ensures ReplaceAll(if x == BACKSLASH then [BACKSLASH, BACKSLASH] else [x], QUOTE, [BACKSLASH, QUOTE])
         == if x == BACKSLASH || x == QUOTE then [BACKSLASH, x] else [x]
  {
    var two := [BACKSLASH, BACKSLASH];
    assert two[1..] == [BACKSLASH] && two[1..][1..] == [];
    assert ReplaceAll(two[1..], QUOTE, [BACKSLASH, QUOTE]) == [BACKSLASH];
    assert [x][1..] == [];
  }

  /** The two successive replacements are one simultaneous escape. */
  lemma {:induction false} TwoPassesAreOne(s: Octets)
    ensures QuotedStringEscape(s) == Quoted(s)
  {
    if s != [] {
      var first := if s[0] == BACKSLASH then [BACKSLASH, BACKSLASH] else [s[0]];
      ReplaceAllConcat(first, ReplaceAll(s[1..], BACKSLASH, [BACKSLASH, BACKSLASH]), QUOTE, [BACKSLASH, QUOTE]);
      ReplaceOne(s[0]);
      TwoPassesAreOne(s[1..]);
    }
  }

  // ---------------------------------------------------------------- parsing

  datatype Mode = Key | Value | InQuotes

  datatype Reading = Reading(mode: Mode, escaped: bool, key: Octets, value: Octets, params: map<Octets, Octets>)

  const START := Reading(Key, false, [], [], map[])

  /** The parameters, or the position of a syntax error. */
  datatype Parsed = Params(params: map<Octets, Octets>) | SyntaxError(at: nat)

  predicate IsBlank(b: byte) {
    b == SPACE || b == TAB
  }

  /** `string(b)` for an octet: the character with that number. */
  function Char(b: byte): Octets {
    EncodeRune(b as int)
  }

  /** One octet; none after a quote that may not stand there. */
  function Step(r: Reading, b: byte): Option<Reading> {
    match r.mode
    case Key =>
      if IsBlank(b) then Some(r)
      else if b != EQUALS then Some(r.(key := r.key + Char(b)))
      else Some(r.(mode := Value))
    case Value =>
      if IsBlank(b) then Some(r)
      else if b == COMMA then Some(Reading(Key, r.escaped, [], [], r.params[r.key := r.value]))
      else if b == QUOTE then if r.value != [] then None else Some(r.(mode := InQuotes))
      else Some(r.(value := r.value + Char(b)))
    case InQuotes =>
      if r.escaped then Some(r.(value := r.value + Char(b), escaped := false))
      else if b == BACKSLASH then Some(r.(escaped := true))
      else if b == QUOTE then Some(r.(mode := Value))
      else Some(r.(value := r.value + Char(b)))
  }

  function Finish(r: Reading, n: nat): Parsed {
    if r.mode.Value? then Params(r.params[r.key := r.value]) else SyntaxError(n)
  }

  function Run(s: Octets, i: nat, r: Reading): Parsed
    requires i <= |s|
    decreases |s| - i
  {
    if i == |s| then Finish(r, i)
    else
      var t := Step(r, s[i]);
      if t.None? then SyntaxError(i) else Run(s, i + 1, t.value)
  }

  method ParseParams(str: Octets) returns (p: Parsed)
    ensures p == Run(str, 0, START)
  {
    var m: map<Octets, Octets> := map[];
    var key, value: Octets := [], [];
    var mode, escaped := Key, false;
    var i := 0;
    while i <= |str|
      invariant 0 <= i <= |str| + 1
      invariant i <= |str| ==> Run(str, 0, START) == Run(str, i, Reading(mode, escaped, key, value, m))
      invariant i == |str| + 1 ==> Run(str, 0, START) == Params(m)
    {
      match mode {
        case Key =>
          if i == |str| { return SyntaxError(i); }
          if IsBlank(str[i]) {
          } else if str[i] != EQUALS {
            key := key + Char(str[i]);
          } else {
            mode := Value;
          }
        case Value =>
          if i == |str| {
            m := m[key := value];
          } else if IsBlank(str[i]) {
          } else if str[i] == COMMA {
            m := m[key := value];
            mode, key, value := Key, [], [];
          } else if str[i] == QUOTE {
            if value != [] { return SyntaxError(i); }
            mode := InQuotes;
          } else {
            value := value + Char(str[i]);
          }
        case InQuotes =>
          if i == |str| { return SyntaxError(i); }
          if escaped {
            value := value + Char(str[i]);
            escaped := false;
          } else if str[i] == BACKSLASH {
            escaped := true;
          } else if str[i] == QUOTE {
            mode := Value;
          } else {
            value := value + Char(str[i]);
          }
      }
      i := i + 1;
    }
    return Params(m);
  }

  // ---------------------------------------------------------------- printed directives

  /** A directive with the blanks before its name, before and after the equals sign, and after its
      quoted value. */
  datatype Directive = Directive(key: Octets, value: Octets, lead: Octets, gap: Octets, mid: Octets, tail: Octets)

  predicate AreBlank(s: Octets) {
    forall i :: 0 <= i < |s| ==> IsBlank(s[i])
  }

  /** A directive name is a token of ASCII characters; the padding is blanks. */
  predicate IsDirective(d: Directive) {
    && IsAscii(d.key) && (forall i :: 0 <= i < |d.key| ==> !IsBlank(d.key[i]) && d.key[i] != EQUALS)
    && AreBlank(d.lead) && AreBlank(d.gap) && AreBlank(d.mid) && AreBlank(d.tail)
  }

  predicate AreDirectives(ds: seq<Directive>) {
    forall i :: 0 <= i < |ds| ==> IsDirective(ds[i])
  }

  function DirectiveText(d: Directive): Octets {
    d.lead + (d.key + (d.gap + ([EQUALS] + (d.mid + ([QUOTE] + (QuotedStringEscape(d.value) + ([QUOTE] + d.tail)))))))
  }

  function Text(ds: seq<Directive>): Octets
    requires ds != []
  {
    if |ds| == 1 then DirectiveText(ds[0]) else DirectiveText(ds[0]) + ([COMMA] + Text(ds[1..]))
  }

  /** Each octet as the character with that number. */
  function Widen(s: Octets): Octets {
    if s == [] then [] else Char(s[0]) + Widen(s[1..])
  }

  /** The parameters a list stands for; a later directive with the same name wins. */
  function Meaning(ds: seq<Directive>, params: map<Octets, Octets>): map<Octets, Octets> {
    if ds == [] then params else Meaning(ds[1..], params[ds[0].key := Widen(ds[0].value)])
  }

  // ---------------------------------------------------------------- the round trip

  function Feed(r: Option<Reading>, s: Octets): Option<Reading>
    decreases |s|
  {
    if s == [] || r.None? then r else Feed(Step(r.value, s[0]), s[1..])
  }

  lemma {:induction false} FeedConcat(r: Option<Reading>, a: Octets, b: Octets)
    ensures Feed(r, a + b) == Feed(Feed(r, a), b)
    decreases |a|
  {
    if a == [] {
      assert a + b == b;
    } else if r.Some? {
      assert (a + b)[0] == a[0] && (a + b)[1..] == a[1..] + b;
      FeedConcat(Step(r.value, a[0]), a[1..], b);
    }
  }

  lemma {:induction false} RunFeeds(s: Octets, i: nat, r: Reading)
    requires i <= |s| && Feed(Some(r), s[i..]).Some?
    ensures Run(s, i, r) == Finish(Feed(Some(r), s[i..]).value, |s|)
    decreases |s| - i
  {
    if i < |s| {
      assert s[i..][0] == s[i] && s[i..][1..] == s[i + 1..];
      RunFeeds(s, i + 1, Step(r, s[i]).value);
    }
  }

  lemma {:induction false} FeedBlanks(r: Reading, s: Octets)
    requires AreBlank(s) && !r.mode.InQuotes?
    ensures Feed(Some(r), s) == Some(r)
  {
    if s != [] { FeedBlanks(r, s[1..]); }
  }

  lemma {:induction false} FeedKey(r: Reading, s: Octets)
    requires r.mode.Key? && IsAscii(s) && forall i :: 0 <= i < |s| ==> !IsBlank(s[i]) && s[i] != EQUALS
    ensures Feed(Some(r), s) == Some(r.(key := r.key + s))
    decreases |s|
  {
    if s != [] {
      assert Char(s[0]) == [s[0]];
      ConsAssoc(r.key, s[0], s[1..]);
      assert [s[0]] + s[1..] == s;
      FeedKey(r.(key := r.key + [s[0]]), s[1..]);
    } else {
      assert r.key + s == r.key;
    }
  }

  lemma FeedQuotedOne(r: Reading, b: byte)
    requires r.mode.InQuotes? && !r.escaped
    ensures Feed(Some(r), if b == BACKSLASH || b == QUOTE then [BACKSLASH, b] else [b])
         == Some(r.(value := r.value + Char(b)))
  {
    assert [b][1..] == [];
    if b == BACKSLASH || b == QUOTE {
      assert [BACKSLASH, b][1..] == [b];
      assert Feed(Some(r.(escaped := true)), [b]) == Some(r.(value := r.value + Char(b)));
    }
  }

  lemma {:induction false} FeedQuoted(r: Reading, v: Octets)
    requires r.mode.InQuotes? && !r.escaped
    ensures Feed(Some(r), Quoted(v)) == Some(r.(value := r.value + Widen(v)))
    decreases |v|
  {
    if v == [] {
      assert r.value + [] == r.value;
    } else {
      var e := if v[0] == BACKSLASH || v[0] == QUOTE then [BACKSLASH, v[0]] else [v[0]];
      FeedConcat(Some(r), e, Quoted(v[1..]));
      FeedQuotedOne(r, v[0]);
      FeedQuoted(r.(value := r.value + Char(v[0])), v[1..]);
      ConcatAssoc(r.value, Char(v[0]), Widen(v[1..]));
    }
  }

  lemma FeedName(d: Directive, params: map<Octets, Octets>, rest: Octets)
    requires IsDirective(d)
    ensures Feed(Some(START.(params := params)), d.lead + (d.key + (d.gap + ([EQUALS] + rest))))
         == Feed(Some(Reading(Value, false, d.key, [], params)), rest)
  {
    var r := START.(params := params);
    FeedConcat(Some(r), d.lead, d.key + (d.gap + ([EQUALS] + rest)));
    FeedBlanks(r, d.lead);
    FeedConcat(Some(r), d.key, d.gap + ([EQUALS] + rest));
    FeedKey(r, d.key);
    assert [] + d.key == d.key;
    var named := r.(key := d.key);
    FeedConcat(Some(named), d.gap, [EQUALS] + rest);
    FeedBlanks(named, d.gap);
    assert ([EQUALS] + rest)[1..] == rest;
  }

  lemma FeedValue(d: Directive, params: map<Octets, Octets>)
    requires IsDirective(d)
    ensures Feed(Some(Reading(Value, false, d.key, [], params)),
                 d.mid + ([QUOTE] + (QuotedStringEscape(d.value) + ([QUOTE] + d.tail))))
         == Some(Reading(Value, false, d.key, Widen(d.value), params))
  {
    var r := Reading(Value, false, d.key, [], params);
    var e := QuotedStringEscape(d.value) + ([QUOTE] + d.tail);
    FeedConcat(Some(r), d.mid, [QUOTE] + e);
    FeedBlanks(r, d.mid);
    assert ([QUOTE] + e)[1..] == e;
    var inside := r.(mode := InQuotes);
    FeedConcat(Some(inside), QuotedStringEscape(d.value), [QUOTE] + d.tail);
    TwoPassesAreOne(d.value);
    FeedQuoted(inside, d.value);
    assert [] + Widen(d.value) == Widen(d.value);
    assert ([QUOTE] + d.tail)[1..] == d.tail;
    FeedBlanks(Reading(Value, false, d.key, Widen(d.value), params), d.tail);
  }

  lemma FeedDirective(d: Directive, params: map<Octets, Octets>)
    requires IsDirective(d)
    ensures Feed(Some(START.(params := params)), DirectiveText(d))
         == Some(Reading(Value, false, d.key, Widen(d.value), params))
  {
    FeedName(d, params, d.mid + ([QUOTE] + (QuotedStringEscape(d.value) + ([QUOTE] + d.tail))));
    FeedValue(d, params);
  }

  lemma {:induction false} FeedText(ds: seq<Directive>, params: map<Octets, Octets>)
    requires ds != [] && AreDirectives(ds)
    ensures var r := Feed(Some(START.(params := params)), Text(ds));
      r.Some? && r.value.mode.Value? && r.value.params[r.value.key := r.value.value] == Meaning(ds, params)
  {
    FeedDirective(ds[0], params);
    if |ds| == 1 {
      assert ds[1..] == [];
    } else {
      var rest := [COMMA] + Text(ds[1..]);
      FeedConcat(Some(START.(params := params)), DirectiveText(ds[0]), rest);
      assert rest[1..] == Text(ds[1..]);
      FeedText(ds[1..], params[ds[0].key := Widen(ds[0].value)]);
    }
  }

  /** Parsing printed directives gives what they stand for, each value octet by octet as a character. */
  lemma ParseOfText(ds: seq<Directive>)
    requires ds != [] && AreDirectives(ds)
    ensures Run(Text(ds), 0, START) == Params(Meaning(ds, map[]))
  {
    FeedText(ds, map[]);
    assert Text(ds)[0..] == Text(ds);
    RunFeeds(Text(ds), 0, START);
  }

  // ---------------------------------------------------------------- exactly the ASCII values

  lemma {:induction false} WidenIsIdentity(s: Octets)
    ensures |Widen(s)| >= |s|
    ensures Widen(s) == s <==> IsAscii(s)
  {
    if s != [] {
      WidenIsIdentity(s[1..]);
      if s[0] < 0x80 {
        assert Char(s[0]) == [s[0]];
        assert Widen(s)[1..] == Widen(s[1..]);
        assert IsAscii(s) <==> IsAscii(s[1..]);
      } else {
        assert |Char(s[0])| >= 2;
        assert !IsAscii(s);
      }
    }
  }

  predicate HasDistinctKeys(ds: seq<Directive>) {
    forall i, j :: 0 <= i < j < |ds| ==> ds[i].key != ds[j].key
  }

  /** Exactly the keys of the list, each with its value. */
  ghost predicate IsMapOf(m: map<Octets, Octets>, ds: seq<Directive>) {
    && (forall k :: k in m <==> exists i :: 0 <= i < |ds| && ds[i].key == k)
    && (forall i :: 0 <= i < |ds| ==> ds[i].key in m && m[ds[i].key] == ds[i].value)
  }

  lemma {:induction false} MeaningAt(ds: seq<Directive>, params: map<Octets, Octets>, k: Octets)
    requires HasDistinctKeys(ds)
    ensures k in Meaning(ds, params) <==> k in params || exists i :: 0 <= i < |ds| && ds[i].key == k
    ensures forall i :: 0 <= i < |ds| && ds[i].key == k ==> Meaning(ds, params)[k] == Widen(ds[i].value)
    ensures (forall i :: 0 <= i < |ds| ==> ds[i].key != k) && k in params ==> Meaning(ds, params)[k] == params[k]
  {
    if ds != [] {
      var rest := ds[1..];
      MeaningAt(rest, params[ds[0].key := Widen(ds[0].value)], k);
      assert forall i :: 1 <= i < |ds| ==> ds[i] == rest[i - 1];
      assert forall i :: 0 <= i < |rest| ==> rest[i] == ds[i + 1];
    }
  }

  lemma MeaningOfKeys(ds: seq<Directive>, m: map<Octets, Octets>)
    requires HasDistinctKeys(ds) && m == Meaning(ds, map[])
    ensures forall k :: k in m <==> exists i :: 0 <= i < |ds| && ds[i].key == k
  {
    forall k ensures k in m <==> exists i :: 0 <= i < |ds| && ds[i].key == k { MeaningAt(ds, map[], k); }
  }

  lemma MeaningOfValues(ds: seq<Directive>, m: map<Octets, Octets>)
    requires HasDistinctKeys(ds) && m == Meaning(ds, map[])
    ensures forall i :: 0 <= i < |ds| ==> ds[i].key in m && (m[ds[i].key] == ds[i].value <==> IsAscii(ds[i].value))
  {
    forall i | 0 <= i < |ds|
      ensures ds[i].key in m && (m[ds[i].key] == ds[i].value <==> IsAscii(ds[i].value))
    {
      MeaningAt(ds, map[], ds[i].key);
      WidenIsIdentity(ds[i].value);
    }
  }

  predicate AreAscii(ds: seq<Directive>) {
    forall i :: 0 <= i < |ds| ==> IsAscii(ds[i].value)
  }

  lemma MeaningIsMap(ds: seq<Directive>, m: map<Octets, Octets>)
    requires HasDistinctKeys(ds) && m == Meaning(ds, map[])
    ensures IsMapOf(m, ds) <==> AreAscii(ds)
  {
    MeaningOfKeys(ds, m);
    MeaningOfValues(ds, m);
  }

  /** Parsing gives back exactly the printed names and values if and only if every value is ASCII. */
  lemma RoundTrip(ds: seq<Directive>)
    requires ds != [] && AreDirectives(ds) && HasDistinctKeys(ds)
    ensures Run(Text(ds), 0, START).Params?
    ensures IsMapOf(Run(Text(ds), 0, START).params, ds) <==> AreAscii(ds)
  {
    MeaningIsMap(ds, Meaning(ds, map[]));
    ParseOfText(ds);
  }

  /** The octet 0xE9 comes back as the two octets of U+00E9. */
  lemma LatinValueIsWidened(key: Octets)
    requires IsDirective(Directive(key, [0xE9], [], [], [], []))
    ensures Run(Text([Directive(key, [0xE9], [], [], [], [])]), 0, START) == Params(map[key := [0xC3, 0xA9]])
  {
    var ds := [Directive(key, [0xE9], [], [], [], [])];
    ParseOfText(ds);
    assert ds[1..] == [];
    var v: Octets := [0xE9];
    assert v[1..] == [] && Char(0xE9) == [0xC3, 0xA9] && Widen(v) == [0xC3, 0xA9];
  }
}
