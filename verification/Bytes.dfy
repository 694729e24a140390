/** Octets, the ASCII characters the parsers look for, and hexadecimal digits. */
module Bytes {
  newtype byte = x: int | 0 <= x < 256

  type Octets = seq<byte>

  datatype Option<+T> = None | Some(value: T)

  const NUL: byte := 0x00
  const TAB: byte := 0x09
  const SPACE: byte := 0x20
  const BANG: byte := 0x21
  const QUOTE: byte := 0x22
  const HASH: byte := 0x23
  const DOLLAR: byte := 0x24
  const AMP: byte := 0x26
  const LPAREN: byte := 0x28
  const RPAREN: byte := 0x29
  const STAR: byte := 0x2A
  const PLUS: byte := 0x2B
  const COMMA: byte := 0x2C
  const COLON: byte := 0x3A
  const SEMICOLON: byte := 0x3B
  const LESS: byte := 0x3C
  const EQUALS: byte := 0x3D
  const GREATER: byte := 0x3E
  const BACKSLASH: byte := 0x5C
  const LOWER_D: byte := 0x64
  const LOWER_N: byte := 0x6E
  const PIPE: byte := 0x7C
  const TILDE: byte := 0x7E

  predicate IsAscii(s: Octets) {
    forall i :: 0 <= i < |s| ==> s[i] < 0x80
  }

  /** The lower-case digit of a value below 16, as both `EscapeFilter` and `hex.EncodeToString` write it. */
  function HexDigit(n: byte): (c: byte)
    requires n < 16
    ensures HexValue(c) == Some(n)
    ensures 0x30 <= c <= 0x39 || 0x61 <= c <= 0x66
  {
    if n < 10 then 0x30 + n else 0x57 + n
  }

  /** The value of a hexadecimal digit of either case. */
  function HexValue(c: byte): Option<byte> {
    if 0x30 <= c <= 0x39 then Some(c - 0x30)
    else if 0x61 <= c <= 0x66 then Some(c - 0x57)
    else if 0x41 <= c <= 0x46 then Some(c - 0x37)
    else None
  }

  /** The two digits of an octet. */
  function Hex(b: byte): (h: Octets)
    ensures |h| == 2
    ensures Unhex(h[0], h[1]) == Some(b)
    ensures forall i :: 0 <= i < 2 ==> 0x30 <= h[i] <= 0x39 || 0x61 <= h[i] <= 0x66
  {
    [HexDigit(b / 16), HexDigit(b % 16)]
  }

  /** `hex.Decode` on two digits. */
  function Unhex(hi: byte, lo: byte): Option<byte> {
    if HexValue(hi).Some? && HexValue(lo).Some?
    then Some((HexValue(hi).value as int * 16 + HexValue(lo).value as int) as byte)
    else None
  }

  function Map<A, B>(f: A -> B, s: seq<A>): (r: seq<B>)
    ensures |r| == |s|
    ensures forall i :: 0 <= i < |s| ==> r[i] == f(s[i])
  {
    if s == [] then [] else [f(s[0])] + Map(f, s[1..])
  }

  /** Puts octets in front of the result of reading the rest. */
  function Prepend(a: Octets, r: Option<Octets>): (q: Option<Octets>)
    ensures q.Some? <==> r.Some?
  {
    match r
    case None => None
    case Some(b) => Some(a + b)
  }

  lemma SliceCons<T>(s: seq<T>, i: nat)
    requires i < |s|
    ensures s[i..] == [s[i]] + s[i + 1..]
  {
  }

  lemma ConcatAssoc<T>(a: seq<T>, b: seq<T>, c: seq<T>)
    ensures (a + b) + c == a + (b + c)
  {
  }

  lemma ConsAssoc<T>(a: seq<T>, x: T, b: seq<T>)
    ensures a + [x] + b == a + ([x] + b)
  {
  }

  lemma ConsTail<T>(a: seq<T>, c: seq<T>)
    requires c != []
    ensures a + [c[0]] + c[1..] == a + c
  {
  }

  lemma ConsSelf<T>(s: seq<T>)
    requires s != []
    ensures [s[0]] + s[1..] == s
  {
  }

  lemma SkipPrefix<T>(a: seq<T>, b: seq<T>, j: nat)
    requires |a| <= j < |a| + |b|
    ensures (a + b)[j] == b[j - |a|] && (a + b)[j + 1..] == b[j - |a| + 1..]
  {
  }

  lemma ConsSlice<T>(a: seq<T>, s: seq<T>, p: nat, q: nat)
    requires p < q <= |s|
    ensures a + [s[p]] + s[p + 1..q] == a + s[p..q]
  {
  }

  lemma MapCons<A, B>(f: A -> B, s: seq<A>)
    requires s != []
    ensures Map(f, s) == [f(s[0])] + Map(f, s[1..])
    ensures |s| == 1 ==> Map(f, s) == [f(s[0])]
    ensures Map(f, s)[0] == f(s[0]) && Map(f, s)[1..] == Map(f, s[1..])
  {
  }

  lemma MapSnoc<A, B>(f: A -> B, s: seq<A>, x: A)
    ensures Map(f, s + [x]) == Map(f, s) + [f(x)]
  {
  }

  lemma MapPrefix<A, B>(f: A -> B, s: seq<A>, i: nat)
    requires i < |s|
    ensures Map(f, s[..i + 1]) == Map(f, s[..i]) + [f(s[i])]
  {
    assert s[..i + 1] == s[..i] + [s[i]];
    MapSnoc(f, s[..i], s[i]);
  }

  lemma MapLast<A, B>(f: A -> B, s: seq<A>, n: nat)
    requires n + 1 == |s|
    ensures Map(f, s) == Map(f, s[..n]) + [f(s[n])]
  {
    assert s[..n + 1] == s;
    MapPrefix(f, s, n);
  }

  /** `text` stands at position `p` of `f`. */
  ghost predicate At(f: Octets, p: nat, text: Octets) {
    p + |text| <= |f| && f[p..p + |text|] == text
  }

  lemma AtSplit(f: Octets, p: nat, a: Octets, b: Octets)
    requires At(f, p, a + b)
    ensures At(f, p, a) && At(f, p + |a|, b)
  {
    assert f[p..p + |a|] == (a + b)[..|a|];
    assert f[p + |a|..p + |a| + |b|] == (a + b)[|a|..];
  }

  lemma AtIndex(f: Octets, p: nat, text: Octets, i: nat)
    requires At(f, p, text) && i < |text|
    ensures f[p + i] == text[i]
  {
    assert f[p + i] == f[p..p + |text|][i];
  }

  lemma AtSlice(f: Octets, p: nat, text: Octets, i: nat)
    requires At(f, p, text) && i <= |text|
    ensures At(f, p, text[..i]) && At(f, p + i, text[i..])
  {
    assert text == text[..i] + text[i..];
    AtSplit(f, p, text[..i], text[i..]);
  }
}
