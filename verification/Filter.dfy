/** Search filters: the tree a filter packet carries, its text, and the compiler from text to tree. */
module Filter {
  import opened Bytes
  import opened Utf8

  datatype SubstringTag = Initial | Any | Final

  datatype Substring = Substring(tag: SubstringTag, value: Octets)

  datatype Comparison = EqualityMatch | GreaterOrEqual | LessOrEqual | ApproxMatch

  /** A filter packet. An extensible match without a rule or without an attribute carries no such
      child; the empty string stands for the missing child. */
  datatype Filter =
    | And(children: seq<Filter>)
    | Or(children: seq<Filter>)
    | Not(child: Filter)
    | Compare(op: Comparison, attr: Octets, value: Octets)
    | Present(attr: Octets)
    | Substrings(attr: Octets, parts: seq<Substring>)
    | Extensible(rule: Octets, attr: Octets, value: Octets, dnAttributes: bool)

  // ---------------------------------------------------------------- escaping

  predicate MustEscape(c: byte) {
    c > 0x7F || c == LPAREN || c == RPAREN || c == BACKSLASH || c == STAR || c == NUL
  }

  function EscapeOctet(c: byte): (e: Octets)
    ensures |e| == if MustEscape(c) then 3 else 1
  {
    if MustEscape(c) then [BACKSLASH] + Hex(c) else [c]
  }

  function Escape(s: Octets): Octets {
    if s == [] then [] else EscapeOctet(s[0]) + Escape(s[1..])
  }

  function EscapeCount(s: Octets): nat {
    if s == [] then 0 else (if MustEscape(s[0]) then 1 else 0) + EscapeCount(s[1..])
  }

  lemma {:induction false} EscapeConcat(a: Octets, b: Octets)
    ensures Escape(a + b) == Escape(a) + Escape(b)
    ensures EscapeCount(a + b) == EscapeCount(a) + EscapeCount(b)
  {
    if a == [] {
      assert a + b == b;
    } else {
      assert (a + b)[1..] == a[1..] + b;
      EscapeConcat(a[1..], b);
    }
  }

  /** Escaping adds two octets for each one it must replace, and nothing else. */
  lemma {:induction false} EscapeLength(s: Octets)
    ensures |Escape(s)| == |s| + 2 * EscapeCount(s)
    ensures EscapeCount(s) == 0 ==> Escape(s) == s
  {
    if s != [] {
      EscapeLength(s[1..]);
    }
  }

  lemma EscapeNext(s: Octets, i: nat)
    requires i < |s|
    ensures Escape(s[..i + 1]) == Escape(s[..i]) + EscapeOctet(s[i])
    ensures EscapeCount(s[..i + 1]) == EscapeCount(s[..i]) + if MustEscape(s[i]) then 1 else 0
    ensures |Escape(s[..i + 1])| <= |Escape(s)|
  {
    assert s[..i + 1] == s[..i] + [s[i]];
    EscapeConcat(s[..i], [s[i]]);
    assert Escape([s[i]]) == EscapeOctet(s[i]);
    assert s == s[..i + 1] + s[i + 1..];
    EscapeConcat(s[..i + 1], s[i + 1..]);
  }

  /** The first pass of `EscapeFilter`. */
  method CountEscapes(filter: Octets) returns (escape: nat)
    ensures escape == EscapeCount(filter)
  {
    escape := 0;
    for i := 0 to |filter|
      invariant escape == EscapeCount(filter[..i])
    {
      EscapeNext(filter, i);
      if MustEscape(filter[i]) {
        escape := escape + 1;
      }
    }
    assert filter[..|filter|] == filter;
  }

  /** One turn of the second pass: the escape of `c` goes behind the first `j` octets of the buffer. */
  method PutOctet(buf: array<byte>, j: nat, c: byte) returns (next: nat)
    requires j + |EscapeOctet(c)| <= buf.Length
    modifies buf
    ensures next == j + |EscapeOctet(c)| && buf[..next] == old(buf[..j]) + EscapeOctet(c)
  {
    if MustEscape(c) {
      buf[j], buf[j + 1], buf[j + 2] := BACKSLASH, HexDigit(c / 16), HexDigit(c % 16);
      return j + 3;
    }
    buf[j] := c;
    return j + 1;
  }

  /** The second pass, into a buffer of exactly the size needed. */
  method FillEscaped(filter: Octets, buf: array<byte>)
    requires buf.Length == |Escape(filter)|
    modifies buf
    ensures buf[..] == Escape(filter)
  {
    var j := 0;
    for i := 0 to |filter|
      invariant j == |Escape(filter[..i])| <= buf.Length
      invariant buf[..j] == Escape(filter[..i])
    {
      EscapeNext(filter, i);
      j := PutOctet(buf, j, filter[i]);
    }
    assert filter[..|filter|] == filter;
  }

  /** The two passes of `EscapeFilter`: count, then fill a buffer of exactly the counted size. */
  method EscapeFilter(filter: Octets) returns (r: Octets)
    ensures r == Escape(filter)
  {
    var escape := CountEscapes(filter);
    EscapeLength(filter);
    if escape == 0 {
      return filter;
    }
    var buf := new byte[|filter| + escape * 2];
    FillEscaped(filter, buf);
    return buf[..];
  }

  /** `decodeEscapedSymbols`: a backslash and two digits are one octet, everything else is copied
      rune by rune. */
  function Unescape(src: Octets): (r: Option<Octets>)
    ensures r.Some? && src != [] ==> r.value != []
  {
    if src == [] then Some([])
    else
      var d := DecodeRune(src);
      if d.rune == RUNE_ERROR then None
      else if d.rune == BACKSLASH as int then
        if |src| < 3 then None
        else
          match Unhex(src[1], src[2])
          case None => None
          case Some(b) => Prepend([b], Unescape(src[3..]))
      else Prepend(EncodeRune(d.rune), Unescape(src[d.width..]))
  }

  method DecodeEscapedSymbols(src: Octets) returns (r: Option<Octets>)
    ensures r == Unescape(src)
  {
    var buffer: Octets := [];
    var reader := src;
    assert forall rest: Octets :: buffer + rest == rest;
    while reader != []
      invariant Unescape(src) == Prepend(buffer, Unescape(reader))
      decreases |reader|
    {
      var d := DecodeRune(reader);
      if d.rune == RUNE_ERROR {
        return None;
      }
      if d.rune == BACKSLASH as int {
        if |reader| < 3 {
          return None;
        }
        var b := Unhex(reader[1], reader[2]);
        if b.None? {
          return None;
        }
        assert forall rest: Octets {:trigger buffer + [b.value] + rest} ::
            buffer + ([b.value] + rest) == buffer + [b.value] + rest;
        buffer := buffer + [b.value];
        reader := reader[3..];
      } else {
        var e := EncodeRune(d.rune);
        assert forall rest: Octets {:trigger buffer + e + rest} :: buffer + (e + rest) == buffer + e + rest;
        buffer := buffer + e;
        reader := reader[d.width..];
      }
    }
    assert buffer + [] == buffer;
    return Some(buffer);
  }

  // ---------------------------------------------------------------- printing

  function OperatorText(op: Comparison): Octets {
    match op
    case EqualityMatch => [EQUALS]
    case GreaterOrEqual => [GREATER, EQUALS]
    case LessOrEqual => [LESS, EQUALS]
    case ApproxMatch => [TILDE, EQUALS]
  }

  function PartText(p: Substring, first: bool): Octets {
    (if first && p.tag != Initial then [STAR] else [])
    + Escape(p.value)
    + (if p.tag != Final then [STAR] else [])
  }

  function PartsText(parts: seq<Substring>): Octets {
    if parts == [] then [] else PartsText(parts[..|parts| - 1]) + PartText(parts[|parts| - 1], |parts| == 1)
  }

  function DnText(dn: bool): Octets {
    if dn then [COLON, LOWER_D, LOWER_N] else []
  }

  function RuleText(rule: Octets): Octets {
    if rule != [] then [COLON] + Escape(rule) else []
  }

  /** The text of a filter between its parentheses, for the filters that have no sub-filters. */
  function ItemText(t: Filter): Octets
    requires !t.And? && !t.Or? && !t.Not?
  {
    match t
    case Compare(op, attr, value) => Escape(attr) + OperatorText(op) + Escape(value)
    case Present(attr) => Escape(attr) + [EQUALS, STAR]
    case Substrings(attr, parts) => Escape(attr) + [EQUALS] + PartsText(parts)
    case Extensible(rule, attr, value, dn) => Escape(attr) + DnText(dn) + RuleText(rule) + [COLON, EQUALS] + Escape(value)
  }

  /** The text of a filter between its parentheses. */
  function Inner(t: Filter): Octets
    decreases t, 1
  {
    match t
    case And(children) => [AMP] + PrintAll(children)
    case Or(children) => [PIPE] + PrintAll(children)
    case Not(child) => [BANG] + Print(child)
    case _ => ItemText(t)
  }

  function Print(t: Filter): Octets
    decreases t, 2
  {
    [LPAREN] + Inner(t) + [RPAREN]
  }

  function PrintAll(ts: seq<Filter>): Octets
    decreases ts, 0
  {
    if ts == [] then [] else Print(ts[0]) + PrintAll(ts[1..])
  }

  lemma {:induction false} PrintAllSnoc(ts: seq<Filter>, t: Filter)
    ensures PrintAll(ts + [t]) == PrintAll(ts) + Print(t)
  {
    if ts == [] {
      assert PrintAll([t]) == Print(t) + PrintAll([]);
      assert ts + [t] == [t];
    } else {
      assert (ts + [t])[1..] == ts[1..] + [t];
      PrintAllSnoc(ts[1..], t);
    }
  }

  /** `DecompileFilter`, writing into a growing buffer. */
  method DecompileFilter(packet: Filter) returns (r: Octets)
    ensures r == Print(packet)
    decreases packet, 1
  {
    var buf: Octets := [];
    match packet {
      case And(children) =>
        var inner := DecompileChildren(children);
        buf := [AMP] + inner;
      case Or(children) =>
        var inner := DecompileChildren(children);
        buf := [PIPE] + inner;
      case Not(child) =>
        var childStr := DecompileFilter(child);
        buf := [BANG] + childStr;
      case _ =>
        buf := DecompileItem(packet);
    }
    return [LPAREN] + buf + [RPAREN];
  }

  method DecompileChildren(children: seq<Filter>) returns (buf: Octets)
    ensures buf == PrintAll(children)
    decreases children, 0
  {
    buf := [];
    for i := 0 to |children|
      invariant buf == PrintAll(children[..i])
    {
      var childStr := DecompileFilter(children[i]);
      PrintAllSnoc(children[..i], children[i]);
      assert children[..i + 1] == children[..i] + [children[i]];
      buf := buf + childStr;
    }
    assert children[..|children|] == children;
  }

  method DecompileItem(packet: Filter) returns (buf: Octets)
    requires !packet.And? && !packet.Or? && !packet.Not?
    ensures buf == ItemText(packet)
  {
    match packet {
      case Substrings(attr, parts) =>
        var inner := DecompileParts(parts);
        buf := Escape(attr) + [EQUALS] + inner;
      case Compare(op, attr, value) =>
        buf := Escape(attr) + OperatorText(op) + Escape(value);
      case Present(attr) =>
        buf := Escape(attr) + [EQUALS, STAR];
      case Extensible(rule, attr, value, dn) =>
        buf := [];
        if |attr| > 0 {
          buf := Escape(attr);
        }
        if dn {
          buf := buf + DnText(true);
        }
        if |rule| > 0 {
          var text := [COLON] + Escape(rule);
          buf := buf + text;
        }
        buf := buf + [COLON, EQUALS] + Escape(value);
    }
  }

  lemma PartsTextNext(parts: seq<Substring>, i: nat)
    requires i < |parts|
    ensures PartsText(parts[..i + 1]) == PartsText(parts[..i]) + PartText(parts[i], i == 0)
  {
    assert parts[..i + 1][..i] == parts[..i];
  }

  method DecompilePart(part: Substring, first: bool) returns (buf: Octets)
    ensures buf == PartText(part, first)
  {
    buf := [];
    if first && part.tag != Initial {
      buf := buf + [STAR];
    }
    buf := buf + Escape(part.value);
    if part.tag != Final {
      buf := buf + [STAR];
    }
  }

  method DecompileParts(parts: seq<Substring>) returns (buf: Octets)
    ensures buf == PartsText(parts)
  {
    buf := [];
    for i := 0 to |parts|
      invariant buf == PartsText(parts[..i])
    {
      PartsTextNext(parts, i);
      var text := DecompilePart(parts[i], i == 0);
      buf := buf + text;
    }
    assert parts[..|parts|] == parts;
  }

  // ---------------------------------------------------------------- compiling

  datatype Error = NoOpeningParenthesis | BadRune | UnexpectedEnd | NotAFilter | BadEscape | ExtraAtEnd

  /** What `compileFilter` returns. A failure remembers whether the returned packet is nil, because
      appending a nil child panics; the recovered panic returns a nil packet without an error. */
  datatype Outcome =
    | Done(node: Filter, pos: nat)
    | Fail(error: Error, hasPacket: bool)
    | Swallowed(pos: nat)

  datatype SetOutcome =
    | SetDone(children: seq<Filter>, pos: nat)
    | SetFail(error: Error)
    | SetPanicked

  datatype ScanState = ReadingAttr | ReadingRule | ReadingCondition

  datatype Kind = Comparing(op: Comparison) | Extending

  /** The variables of the item-scanning loop. */
  datatype Scan = Scan(
    state: ScanState, packet: Option<Kind>, attr: Octets, dn: bool, rule: Octets, cond: Octets, pos: nat)

  datatype ScanOutcome = Stopped(scan: Scan) | ScanFail(hasPacket: bool)

  function StartScan(pos: nat): Scan {
    Scan(ReadingAttr, None, [], false, [], [], pos)
  }

  /** `strings.HasPrefix` of the remaining filter. */
  predicate HasPrefix(f: Octets, pos: nat, text: Octets) {
    pos + |text| <= |f| && f[pos..pos + |text|] == text
  }

  /** One turn of the loop, on a rune that is neither invalid nor a closing parenthesis. */
  function ScanStep(f: Octets, s: Scan): (t: Scan)
    requires s.pos < |f|
    ensures s.pos < t.pos <= |f|
  {
    var d := DecodeRune(f[s.pos..]);
    var text := EncodeRune(d.rune);
    match s.state
    case ReadingAttr =>
      if HasPrefix(f, s.pos, [COLON, LOWER_D, LOWER_N, COLON, EQUALS]) then
        s.(packet := Some(Extending), dn := true, state := ReadingCondition, pos := s.pos + 5)
      else if HasPrefix(f, s.pos, [COLON, LOWER_D, LOWER_N, COLON]) then
        s.(packet := Some(Extending), dn := true, state := ReadingRule, pos := s.pos + 4)
      else if HasPrefix(f, s.pos, [COLON, EQUALS]) then
        s.(packet := Some(Extending), state := ReadingCondition, pos := s.pos + 2)
      else if d.rune == COLON as int then
        s.(packet := Some(Extending), state := ReadingRule, pos := s.pos + 1)
      else if d.rune == EQUALS as int then
        s.(packet := Some(Comparing(EqualityMatch)), state := ReadingCondition, pos := s.pos + 1)
      else if HasPrefix(f, s.pos, [GREATER, EQUALS]) then
        s.(packet := Some(Comparing(GreaterOrEqual)), state := ReadingCondition, pos := s.pos + 2)
      else if HasPrefix(f, s.pos, [LESS, EQUALS]) then
        s.(packet := Some(Comparing(LessOrEqual)), state := ReadingCondition, pos := s.pos + 2)
      else if HasPrefix(f, s.pos, [TILDE, EQUALS]) then
        s.(packet := Some(Comparing(ApproxMatch)), state := ReadingCondition, pos := s.pos + 2)
      else
        s.(attr := s.attr + text, pos := s.pos + d.width)
    case ReadingRule =>
      if HasPrefix(f, s.pos, [COLON, EQUALS]) then
        s.(state := ReadingCondition, pos := s.pos + 2)
      else
        s.(rule := s.rule + text, pos := s.pos + d.width)
    case ReadingCondition =>
      s.(cond := s.cond + text, pos := s.pos + d.width)
  }

  /** The loop to its end: a closing parenthesis, the end of the text, or an invalid rune. */
  function ScanLoop(f: Octets, s: Scan): (r: ScanOutcome)
    requires s.pos <= |f|
    ensures r.Stopped? ==> s.pos <= r.scan.pos <= |f|
    ensures r.Stopped? && r.scan.pos < |f| ==> f[r.scan.pos] == RPAREN
    decreases |f| - s.pos
  {
    if s.pos == |f| then Stopped(s)
    else
      var d := DecodeRune(f[s.pos..]);
      if d.rune == RPAREN as int then Stopped(s)
      else if d.rune == RUNE_ERROR then ScanFail(s.packet.Some?)
      else ScanLoop(f, ScanStep(f, s))
  }

  /** `bytes.Split` on an asterisk. */
  function Split(s: Octets): (parts: seq<Octets>)
    ensures parts != []
  {
    if s == [] then [[]]
    else if s[0] == STAR then [[]] + Split(s[1..])
    else var rest := Split(s[1..]); [[s[0]] + rest[0]] + rest[1..]
  }

  function PartTag(i: nat, n: nat): SubstringTag {
    if i == 0 then Initial else if i == n - 1 then Final else Any
  }

  /** The substrings of the pieces from index `i` on; empty pieces are skipped. */
  function BuildParts(pieces: seq<Octets>, i: nat): Option<seq<Substring>>
    requires i <= |pieces|
    decreases |pieces| - i
  {
    if i == |pieces| then Some([])
    else if pieces[i] == [] then BuildParts(pieces, i + 1)
    else
      match Unescape(pieces[i])
      case None => None
      case Some(v) =>
        match BuildParts(pieces, i + 1)
        case None => None
        case Some(rest) => Some([Substring(PartTag(i, |pieces|), v)] + rest)
  }

  method CompileParts(pieces: seq<Octets>) returns (r: Option<seq<Substring>>)
    ensures r == BuildParts(pieces, 0)
  {
    var built := [];
    ghost var all := BuildParts(pieces, 0);
    for i := 0 to |pieces|
      invariant all.None? <==> BuildParts(pieces, i).None?
      invariant all.Some? ==> all.value == built + BuildParts(pieces, i).value
    {
      if |pieces[i]| == 0 {
        continue;
      }
      var v := DecodeEscapedSymbols(pieces[i]);
      if v.None? {
        return None;
      }
      ghost var rest := BuildParts(pieces, i + 1);
      if rest.Some? { ConsAssoc(built, Substring(PartTag(i, |pieces|), v.value), rest.value); }
      built := built + [Substring(PartTag(i, |pieces|), v.value)];
    }
    assert built + [] == built;
    return Some(built);
  }

  /** The packet of a scanned item. */
  function Build(s: Scan): Outcome
    requires s.packet.Some?
  {
    match s.packet.value
    case Extending =>
      (match Unescape(s.cond)
       case None => Fail(BadEscape, true)
       case Some(v) => Done(Extensible(s.rule, s.attr, v, s.dn), s.pos + 1))
    case Comparing(op) =>
      if op == EqualityMatch && s.cond == [STAR] then Done(Present(s.attr), s.pos + 1)
      else if op == EqualityMatch && STAR in s.cond then
        (match BuildParts(Split(s.cond), 0)
         case None => Fail(BadEscape, true)
         case Some(parts) => Done(Substrings(s.attr, parts), s.pos + 1))
      else
        match Unescape(s.cond)
        case None => Fail(BadEscape, true)
        case Some(v) => Done(Compare(op, s.attr, v), s.pos + 1)
  }

  function CompileItem(f: Octets, pos: nat): Outcome
    requires pos <= |f|
  {
    match ScanLoop(f, StartScan(pos))
    case ScanFail(hasPacket) => Fail(BadRune, hasPacket)
    case Stopped(s) =>
      if s.pos == |f| then Fail(UnexpectedEnd, s.packet.Some?)
      else if s.packet.None? then Fail(NotAFilter, false)
      else Build(s)
  }

  /** `compileFilter` after the opening parenthesis at `pos - 1`. */
  function Compile(f: Octets, pos: nat): (r: Outcome)
    requires pos <= |f|
    ensures r.Done? ==> pos < r.pos
    decreases |f| - pos, 0
  {
    var d := DecodeRune(f[pos..]);
    if d.rune == RUNE_ERROR then Fail(BadRune, false)
    else if d.rune == LPAREN as int then
      match Compile(f, pos + 1)
      case Done(t, p) => Done(t, p + 1)
      case Swallowed(p) => Swallowed(p + 1)
      case Fail(e, hasPacket) => Fail(e, hasPacket)
    else if d.rune == AMP as int || d.rune == PIPE as int then
      match CompileSet(f, pos + 1, [])
      case SetDone(children, p) => Done(if d.rune == AMP as int then And(children) else Or(children), p)
      case SetFail(e) => Fail(e, true)
      case SetPanicked => Swallowed(0)
    else if d.rune == BANG as int then
      match Compile(f, pos + 1)
      case Done(t, p) => Done(Not(t), p)
      case Fail(e, true) => Fail(e, true)
      case Fail(_, false) => Swallowed(0)
      case Swallowed(_) => Swallowed(0)
    else CompileItem(f, pos)
  }

  /** `compileFilterSet`; `pos` may lie past the end when a child ran out of parentheses. */
  function CompileSet(f: Octets, pos: nat, acc: seq<Filter>): (r: SetOutcome)
    ensures r.SetDone? ==> pos < r.pos && acc <= r.children
    decreases if pos < |f| then |f| - pos else 0, 1
  {
    if pos < |f| && f[pos] == LPAREN then
      match Compile(f, pos + 1)
      case Done(t, p) => CompileSet(f, p, acc + [t])
      case Fail(e, _) => SetFail(e)
      case Swallowed(_) => SetPanicked
    else if pos == |f| then SetFail(UnexpectedEnd)
    else SetDone(acc, pos + 1)
  }

  datatype Result = Ok(packet: Option<Filter>) | Err(error: Error)

  /** `CompileFilter`; a nil packet without an error would be Ok(None). */
  function CompileText(f: Octets): Result {
    if f == [] || f[0] != LPAREN then Err(NoOpeningParenthesis)
    else
      match Compile(f, 1)
      case Fail(e, _) => Err(e)
      case Done(t, p) => if p > |f| then Err(UnexpectedEnd) else if p < |f| then Err(ExtraAtEnd) else Ok(Some(t))
      case Swallowed(p) => if p > |f| then Err(UnexpectedEnd) else if p < |f| then Err(ExtraAtEnd) else Ok(None)
  }

  // The compiler as the source runs it.

  method CompileItemLoop(filter: Octets, pos: nat) returns (r: Outcome)
    requires pos <= |filter|
    ensures r == CompileItem(filter, pos)
  {
    var s := StartScan(pos);
    while s.pos < |filter|
      invariant s.pos <= |filter|
      invariant ScanLoop(filter, s) == ScanLoop(filter, StartScan(pos))
      decreases |filter| - s.pos
    {
      var d := DecodeRune(filter[s.pos..]);
      if d.rune == RPAREN as int {
        break;
      }
      if d.rune == RUNE_ERROR {
        return Fail(BadRune, s.packet.Some?);
      }
      s := ScanStep(filter, s);
    }
    if s.pos == |filter| {
      return Fail(UnexpectedEnd, s.packet.Some?);
    }
    if s.packet.None? {
      return Fail(NotAFilter, false);
    }
    r := BuildPacket(s);
  }

  method BuildPacket(s: Scan) returns (r: Outcome)
    requires s.packet.Some?
    ensures r == Build(s)
  {
    if s.packet.value == Comparing(EqualityMatch) && s.cond == [STAR] {
      return Done(Present(s.attr), s.pos + 1);
    }
    if s.packet.value == Comparing(EqualityMatch) && STAR in s.cond {
      var parts := CompileParts(Split(s.cond));
      return if parts.None? then Fail(BadEscape, true) else Done(Substrings(s.attr, parts.value), s.pos + 1);
    }
    var v := DecodeEscapedSymbols(s.cond);
    if v.None? {
      return Fail(BadEscape, true);
    }
    r := match s.packet.value
      case Extending => Done(Extensible(s.rule, s.attr, v.value, s.dn), s.pos + 1)
      case Comparing(op) => Done(Compare(op, s.attr, v.value), s.pos + 1);
  }

  method CompileAt(filter: Octets, pos: nat) returns (r: Outcome)
    requires pos <= |filter|
    ensures r == Compile(filter, pos)
    decreases |filter| - pos, 0
  {
    var d := DecodeRune(filter[pos..]);
    if d.rune == RUNE_ERROR {
      return Fail(BadRune, false);
    }
    if d.rune == LPAREN as int {
      var inner := CompileAt(filter, pos + d.width);
      return match inner
        case Done(t, p) => Done(t, p + 1)
        case Swallowed(p) => Swallowed(p + 1)
        case Fail(_, _) => inner;
    }
    if d.rune == AMP as int || d.rune == PIPE as int {
      var children := CompileFilterSet(filter, pos + d.width);
      return match children
        case SetDone(cs, p) => Done(if d.rune == AMP as int then And(cs) else Or(cs), p)
        case SetFail(e) => Fail(e, true)
        case SetPanicked => Swallowed(0);
    }
    if d.rune == BANG as int {
      var child := CompileAt(filter, pos + d.width);
      return match child
        case Done(t, p) => Done(Not(t), p)
        case Fail(e, hasPacket) => if hasPacket then child else Swallowed(0)
        case Swallowed(_) => Swallowed(0);
    }
    r := CompileItemLoop(filter, pos);
  }

  method CompileFilterSet(filter: Octets, start: nat) returns (r: SetOutcome)
    ensures r == CompileSet(filter, start, [])
    decreases if start < |filter| then |filter| - start else 0, 1
  {
    var pos, parent := start, [];
    while pos < |filter| && filter[pos] == LPAREN
      invariant start <= pos
      invariant CompileSet(filter, pos, parent) == CompileSet(filter, start, [])
      decreases |filter| - pos
    {
      var child := CompileAt(filter, pos + 1);
      match child {
        case Fail(e, _) => return SetFail(e);
        case Swallowed(_) => return SetPanicked;
        case Done(t, p) => pos, parent := p, parent + [t];
      }
    }
    if pos == |filter| {
      return SetFail(UnexpectedEnd);
    }
    return SetDone(parent, pos + 1);
  }

  /** A recovered panic loses the error but keeps the position so low that `CompileFilter` still
      refuses the text. */
  lemma {:induction false} SwallowedStaysShort(f: Octets, pos: nat)
    requires pos <= |f|
    ensures Compile(f, pos).Swallowed? ==> Compile(f, pos).pos + pos <= |f|
    decreases |f| - pos
  {
    if pos < |f| {
      SwallowedStaysShort(f, pos + 1);
    }
  }

  /** `CompileFilter` is total and never succeeds with a nil packet: success means a whole filter
      was read, from the opening parenthesis to the last octet. */
  method CompileFilter(filter: Octets) returns (r: Result)
    ensures r == CompileText(filter)
    ensures r.Ok? ==> r.packet.Some? && filter != [] && filter[0] == LPAREN
    ensures r.Ok? ==> Compile(filter, 1) == Done(r.packet.value, |filter|)
  {
    if filter == [] || filter[0] != LPAREN {
      return Err(NoOpeningParenthesis);
    }
    var out := CompileAt(filter, 1);
    SwallowedStaysShort(filter, 1);
    if out.Fail? {
      return Err(out.error);
    }
    if out.pos > |filter| {
      return Err(UnexpectedEnd);
    }
    if out.pos < |filter| {
      return Err(ExtraAtEnd);
    }
    return Ok(if out.Done? then Some(out.node) else None);
  }
}
