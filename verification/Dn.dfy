/** Distinguished names: their parts, the parser, and the normalized text. */
module Dn {
  import opened Bytes
  import opened Utf8
  import opened DnEscape
  import opened Lexicographic

  datatype Attribute = Attribute(typ: Octets, value: Octets)

  datatype RelativeDN = RelativeDN(attributes: seq<Attribute>)

  datatype DN = DN(rdns: seq<RelativeDN>)

  // ---------------------------------------------------------------- parsing

  datatype ParseError = IncompletePair | Undecodable

  datatype Parsed = Ok(dn: DN) | Err(error: ParseError)

  /** `unicode.IsSpace`. */
  predicate IsBlankRune(r: int) {
    0x09 <= r <= 0x0D || r == 0x20 || r == 0x85 || r == 0xA0 || r == 0x1680 || 0x2000 <= r <= 0x200A ||
    r == 0x2028 || r == 0x2029 || r == 0x202F || r == 0x205F || r == 0x3000
  }

  /** `strings.TrimSpace` leaves nothing of the text. */
  predicate IsBlank(str: Octets) {
    forall i :: 0 <= i < |Runes(str)| ==> IsBlankRune(Runes(str)[i])
  }

  /** How types and values are read from their text. */
  datatype Readers = Readers(typ: Octets -> Option<Octets>, value: Octets -> Option<Octets>)

  /** `setValue`; `ber` reads the hexadecimal BER form behind a number sign. */
  function ReadValue(s: Octets, ber: Octets -> Option<Octets>): Option<Octets> {
    if s != [] && s[0] == HASH then ber(s[1..]) else Decode(s)
  }

  function ReadersWith(ber: Octets -> Option<Octets>): Readers {
    Readers(Decode, s => ReadValue(s, ber))
  }

  /** The variables of the parsing loop: finished RDNs, attributes of the open RDN, the type read
      so far and the start of the current piece. */
  datatype Progress = Progress(rdns: seq<RelativeDN>, rdn: seq<Attribute>, typ: Octets, start: nat)

  predicate IsSeparator(c: byte) {
    c == COMMA || c == PLUS || c == SEMICOLON
  }

  /** Ends the current attribute, and with it the RDN unless the separator is a plus sign. */
  function Append(st: Progress, value: Octets, last: bool, next: nat): Progress {
    var rdn := st.rdn + [Attribute(st.typ, value)];
    if last then Progress(st.rdns + [RelativeDN(rdn)], [], [], next) else Progress(st.rdns, rdn, [], next)
  }

  datatype Move = Stop(error: ParseError) | Go(st: Progress)

  /** One turn of the loop. */
  function Step(str: Octets, i: nat, st: Progress, rd: Readers): (m: Move)
    requires st.start <= i < |str|
    ensures m.Go? ==> m.st.start <= i + 1
  {
    if Escaping(str, i) then Go(st)
    else if str[i] == EQUALS && st.typ == [] then
      match rd.typ(str[st.start..i])
      case None => Stop(Undecodable)
      case Some(t) => Go(st.(typ := t, start := i + 1))
    else if IsSeparator(str[i]) then
      if st.typ == [] then Stop(IncompletePair)
      else
        match rd.value(str[st.start..i])
        case None => Stop(Undecodable)
        case Some(v) => Go(Append(st, v, str[i] != PLUS, i + 1))
    else Go(st)
  }

  /** Behind the loop: the last value. */
  function Finish(str: Octets, st: Progress, rd: Readers): Parsed
    requires st.start <= |str|
  {
    if st.typ == [] then Err(IncompletePair)
    else
      match rd.value(str[st.start..])
      case None => Err(Undecodable)
      case Some(v) => Ok(DN(Append(st, v, true, |str|).rdns))
  }

  /** The loop from index `i` on. */
  function Run(str: Octets, i: nat, st: Progress, rd: Readers): Parsed
    requires st.start <= i <= |str|
    decreases |str| - i
  {
    if i == |str| then Finish(str, st, rd)
    else
      match Step(str, i, st, rd)
      case Stop(e) => Err(e)
      case Go(st') => Run(str, i + 1, st', rd)
  }

  const START: Progress := Progress([], [], [], 0)

  function Parse(str: Octets, ber: Octets -> Option<Octets>): Parsed {
    if IsBlank(str) then Ok(DN([])) else Run(str, 0, START, ReadersWith(ber))
  }

  /** `ParseDN`. */
  method ParseDN(str: Octets, ber: Octets -> Option<Octets>) returns (r: Parsed)
    ensures r == Parse(str, ber)
  {
    var blank := true;
    var runes := Runes(str);
    for i := 0 to |runes|
      invariant blank <==> forall k :: 0 <= k < i ==> IsBlankRune(runes[k])
    {
      blank := blank && IsBlankRune(runes[i]);
    }
    if blank {
      return Ok(DN([]));
    }
    r := ParseLoop(str, ReadersWith(ber));
  }

  method ParseLoop(str: Octets, rd: Readers) returns (r: Parsed)
    ensures r == Run(str, 0, START, rd)
  {
    var rdns: seq<RelativeDN>, rdn: seq<Attribute>, typ: Octets := [], [], [];
    var escaping, startPos := false, 0;
    for i := 0 to |str|
      invariant startPos <= i
      invariant escaping == Escaping(str, i)
      invariant Run(str, i, Progress(rdns, rdn, typ, startPos), rd) == Run(str, 0, START, rd)
    {
      var c := str[i];
      if escaping {
        escaping := false;
      } else if c == BACKSLASH {
        escaping := true;
      } else if c == EQUALS && |typ| == 0 {
        var t := rd.typ(str[startPos..i]);
        if t.None? {
          return Err(Undecodable);
        }
        typ, startPos := t.value, i + 1;
      } else if c == COMMA || c == PLUS || c == SEMICOLON {
        if |typ| == 0 {
          return Err(IncompletePair);
        }
        var v := rd.value(str[startPos..i]);
        if v.None? {
          return Err(Undecodable);
        }
        startPos := i + 1;
        rdn, typ := rdn + [Attribute(typ, v.value)], [];
        if c == COMMA || c == SEMICOLON {
          rdns, rdn := rdns + [RelativeDN(rdn)], [];
        }
      }
    }
    if |typ| == 0 {
      return Err(IncompletePair);
    }
    var v := rd.value(str[startPos..]);
    if v.None? {
      return Err(Undecodable);
    }
    return Ok(DN(rdns + [RelativeDN(rdn + [Attribute(typ, v.value)])]));
  }

  // ---------------------------------------------------------------- what the parser accepts

  /** Every RDN has an attribute and every attribute a type. */
  predicate IsComplete(d: DN) {
    forall i :: 0 <= i < |d.rdns| ==> RdnComplete(d.rdns[i])
  }

  predicate RdnComplete(r: RelativeDN) {
    r.attributes != [] && AttrsComplete(r.attributes)
  }

  predicate AttrsComplete(attrs: seq<Attribute>) {
    forall j :: 0 <= j < |attrs| ==> attrs[j].typ != []
  }

  predicate EndsRdnAt(str: Octets, i: nat) {
    i < |str| && !Escaping(str, i) && (str[i] == COMMA || str[i] == SEMICOLON)
  }

  /** The number of unescaped commas and semicolons from index `i` on. */
  function RdnEnds(str: Octets, i: nat): nat
    requires i <= |str|
    decreases |str| - i
  {
    if i == |str| then 0 else (if EndsRdnAt(str, i) then 1 else 0) + RdnEnds(str, i + 1)
  }

  lemma {:induction false} RunShape(str: Octets, i: nat, st: Progress, rd: Readers)
    requires st.start <= i <= |str|
    requires IsComplete(DN(st.rdns)) && AttrsComplete(st.rdn)
    ensures Run(str, i, st, rd).Ok? ==>
              && IsComplete(Run(str, i, st, rd).dn)
              && |Run(str, i, st, rd).dn.rdns| == |st.rdns| + RdnEnds(str, i) + 1
    decreases |str| - i
  {
    if i < |str| {
      var m := Step(str, i, st, rd);
      if m.Go? {
        RunShape(str, i + 1, m.st, rd);
      }
    }
  }

  /** A DN that is accepted is complete, and text that is not blank has one RDN more than it has
      unescaped commas and semicolons. */
  lemma ParseShape(str: Octets, ber: Octets -> Option<Octets>)
    requires Parse(str, ber).Ok?
    ensures IsComplete(Parse(str, ber).dn)
    ensures |Parse(str, ber).dn.rdns| == if IsBlank(str) then 0 else RdnEnds(str, 0) + 1
  {
    if !IsBlank(str) {
      RunShape(str, 0, START, ReadersWith(ber));
    }
  }

  // ---------------------------------------------------------------- normalized text

  function Lower(c: byte): byte {
    if 0x41 <= c <= 0x5A then c + 0x20 else c
  }

  /** `foldString` on ASCII text. */
  function Fold(s: Octets): (r: Octets)
    ensures |r| == |s|
    ensures forall i :: 0 <= i < |s| ==> r[i] == Lower(s[i])
  {
    if s == [] then [] else [Lower(s[0])] + Fold(s[1..])
  }

  lemma FoldIdempotent(s: Octets)
    ensures Fold(Fold(s)) == Fold(s)
  {
  }

  /** `AttributeTypeAndValue.String`. */
  function Text(a: Attribute): Octets {
    Encode(Fold(a.typ), false) + ([EQUALS] + Encode(a.value, true))
  }

  /** `strings.Join` with a one-octet separator. */
  function Join(parts: seq<Octets>, sep: byte): Octets {
    if parts == [] then []
    else if |parts| == 1 then parts[0]
    else parts[0] + [sep] + Join(parts[1..], sep)
  }

  /** `RelativeDN.String`. */
  function RdnText(r: RelativeDN): Octets {
    Join(Sort(Map(Text, r.attributes)), PLUS)
  }

  /** `DN.String`. */
  function DnText(d: DN): Octets {
    Join(Map(RdnText, d.rdns), COMMA)
  }

  /** `RelativeDN.String`: collect, sort, join. */
  method RelativeString(r: RelativeDN) returns (s: Octets)
    ensures s == RdnText(r)
  {
    var attrs: seq<Octets> := [];
    for i := 0 to |r.attributes|
      invariant attrs == Map(Text, r.attributes[..i])
    {
      MapPrefix(Text, r.attributes, i);
      attrs := attrs + [Text(r.attributes[i])];
    }
    assert r.attributes[..|r.attributes|] == r.attributes;
    return Join(Sort(attrs), PLUS);
  }

  /** `DN.String`. */
  method String(d: DN) returns (s: Octets)
    ensures s == DnText(d)
  {
    var rdns: seq<Octets> := [];
    for i := 0 to |d.rdns|
      invariant rdns == Map(RdnText, d.rdns[..i])
    {
      var rdn := RelativeString(d.rdns[i]);
      MapPrefix(RdnText, d.rdns, i);
      rdns := rdns + [rdn];
    }
    assert d.rdns[..|d.rdns|] == d.rdns;
    return Join(rdns, COMMA);
  }
}
