/** UTF-8 as Go's `unicode/utf8` decodes and encodes it, invalid input included. */
module Utf8 {
  import opened Bytes

  const RUNE_ERROR := 0xFFFD

  datatype Decoded = Decoded(rune: int, width: nat)

  predicate IsContinuation(b: byte) {
    0x80 <= b < 0xC0
  }

  /** The second octets that keep a three- or four-octet sequence minimal, below the last code
      point and outside the surrogates. */
  predicate SecondOk(first: byte, second: byte) {
    && IsContinuation(second)
    && (first == 0xE0 ==> 0xA0 <= second)
    && (first == 0xED ==> second < 0xA0)
    && (first == 0xF0 ==> 0x90 <= second)
    && (first == 0xF4 ==> second < 0x90)
  }

  /** `utf8.DecodeRuneInString`: the first rune and its width; (RUNE_ERROR, 0) at the end and
      (RUNE_ERROR, 1) on an invalid octet. */
  function DecodeRune(s: Octets): (d: Decoded)
    ensures d.width <= |s|
    ensures s != [] ==> 1 <= d.width
    ensures 0 <= d.rune < 0x110000
    ensures s != [] && s[0] < 0x80 ==> d == Decoded(s[0] as int, 1)
    ensures d.rune < 0x80 ==> s != [] && s[0] as int == d.rune && d.width == 1
  {
    if s == [] then Decoded(RUNE_ERROR, 0)
    else
      var a := s[0];
      if a < 0x80 then
        Decoded(a as int, 1)
      else if 0xC2 <= a < 0xE0 && |s| >= 2 && IsContinuation(s[1]) then
        Decoded((a as int - 0xC0) * 64 + (s[1] as int - 0x80), 2)
      else if 0xE0 <= a < 0xF0 && |s| >= 3 && SecondOk(a, s[1]) && IsContinuation(s[2]) then
        Decoded((a as int - 0xE0) * 4096 + (s[1] as int - 0x80) * 64 + (s[2] as int - 0x80), 3)
      else if 0xF0 <= a < 0xF5 && |s| >= 4 && SecondOk(a, s[1]) && IsContinuation(s[2]) && IsContinuation(s[3]) then
        Decoded((a as int - 0xF0) * 262144 + (s[1] as int - 0x80) * 4096 + (s[2] as int - 0x80) * 64 + (s[3] as int - 0x80), 4)
      else
        Decoded(RUNE_ERROR, 1)
  }

  /** The octet at the head of `s` starts no valid sequence. */
  predicate IsInvalid(s: Octets) {
    s != [] && DecodeRune(s) == Decoded(RUNE_ERROR, 1)
  }

  predicate IsScalar(r: int) {
    0 <= r < 0xD800 || 0xE000 <= r < 0x110000
  }

  /** `utf8.EncodeRune`, which writes U+FFFD for anything that is not a scalar value. */
  function EncodeRune(rune: int): (s: Octets)
    ensures 1 <= |s| <= 4
    ensures 0 <= rune < 0x80 ==> s == [rune as byte]
    ensures !(0 <= rune < 0x80) ==> forall i :: 0 <= i < |s| ==> 0x80 <= s[i]
  {
    var r := if IsScalar(rune) then rune else RUNE_ERROR;
    if r < 0x80 then [r as byte]
    else if r < 0x800 then [(0xC0 + r / 64) as byte, (0x80 + r % 64) as byte]
    else if r < 0x10000 then [(0xE0 + r / 4096) as byte, (0x80 + r / 64 % 64) as byte, (0x80 + r % 64) as byte]
    else [(0xF0 + r / 262144) as byte, (0x80 + r / 4096 % 64) as byte, (0x80 + r / 64 % 64) as byte, (0x80 + r % 64) as byte]
  }

  lemma SixBitDigits(a: int, b: int, c: int, d: int)
    requires 0 <= a < 16 && 0 <= b < 64 && 0 <= c < 64 && 0 <= d < 64
    ensures var r := a * 262144 + b * 4096 + c * 64 + d;
            && r / 64 == a * 4096 + b * 64 + c && r % 64 == d
            && r / 64 % 64 == c && r / 4096 == a * 64 + b && r / 4096 % 64 == b && r / 262144 == a
  {
    var r := a * 262144 + b * 4096 + c * 64 + d;
    assert r / 64 == a * 4096 + b * 64 + c;
    assert r / 4096 == a * 64 + b;
    assert r / 262144 == a;
  }

  lemma EncodeOfDecode2(s: Octets, r: int)
    requires s != [] && DecodeRune(s) == Decoded(r, 2)
    ensures IsScalar(r) && EncodeRune(r) == s[..2]
  {
    assert r / 64 == s[0] as int - 0xC0;
  }

  lemma EncodeOfDecode3(s: Octets, r: int)
    requires s != [] && DecodeRune(s) == Decoded(r, 3)
    ensures IsScalar(r) && EncodeRune(r) == s[..3]
  {
    SixBitDigits(0, s[0] as int - 0xE0, s[1] as int - 0x80, s[2] as int - 0x80);
  }

  lemma EncodeOfDecode4(s: Octets, r: int)
    requires s != [] && DecodeRune(s) == Decoded(r, 4)
    ensures IsScalar(r) && EncodeRune(r) == s[..4]
  {
    SixBitDigits(s[0] as int - 0xF0, s[1] as int - 0x80, s[2] as int - 0x80, s[3] as int - 0x80);
  }

  /** Writing back a rune that was read validly restores the octets it was read from. */
  lemma EncodeOfDecode(s: Octets)
    requires s != [] && !IsInvalid(s)
    ensures IsScalar(DecodeRune(s).rune)
    ensures EncodeRune(DecodeRune(s).rune) == s[..DecodeRune(s).width]
  {
    var d := DecodeRune(s);
    if d.width == 2 {
      EncodeOfDecode2(s, d.rune);
    } else if d.width == 3 {
      EncodeOfDecode3(s, d.rune);
    } else if d.width == 4 {
      EncodeOfDecode4(s, d.rune);
    }
  }

  lemma DecodeOfEncode3(r: int, s: Octets)
    requires IsScalar(r) && 0x800 <= r < 0x10000
    requires |s| >= 3 && s[..3] == EncodeRune(r)
    ensures DecodeRune(s) == Decoded(r, 3)
  {
    var e := EncodeRune(r);
    assert s[0] == e[0] && s[1] == e[1] && s[2] == e[2];
    assert r == r / 4096 * 4096 + r / 64 % 64 * 64 + r % 64;
    assert SecondOk(s[0], s[1]);
  }

  lemma SixBitGroups(r: int)
    requires 0 <= r
    ensures r == r / 262144 * 262144 + r / 4096 % 64 * 4096 + r / 64 % 64 * 64 + r % 64
  {
    var q, p := r / 64, r / 4096;
    assert q / 64 == p;
    TopGroup(r, p);
    assert p == p / 64 * 64 + p % 64 && q == q / 64 * 64 + q % 64;
  }

  lemma TopGroup(r: int, p: int)
    requires 0 <= r && p == r / 4096
    ensures p / 64 == r / 262144
  {
  }

  lemma DecodeOfEncode4(r: int, s: Octets)
    requires IsScalar(r) && 0x10000 <= r
    requires |s| >= 4 && s[..4] == EncodeRune(r)
    ensures DecodeRune(s) == Decoded(r, 4)
  {
    var e := EncodeRune(r);
    assert s[0] == e[0] && s[1] == e[1] && s[2] == e[2] && s[3] == e[3];
    SixBitGroups(r);
    assert s[0] == 0xF0 ==> r / 262144 == 0;
    assert SecondOk(s[0], s[1]);
  }

  /** Reading back a rune that was written yields it, whatever follows. */
  lemma DecodeOfEncode(r: int, rest: Octets)
    requires IsScalar(r)
    ensures DecodeRune(EncodeRune(r) + rest) == Decoded(r, |EncodeRune(r)|)
    ensures !IsInvalid(EncodeRune(r) + rest)
  {
    var e := EncodeRune(r);
    var s := e + rest;
    assert s[..|e|] == e;
    if 0x10000 <= r {
      DecodeOfEncode4(r, s);
    } else if 0x800 <= r {
      DecodeOfEncode3(r, s);
    } else if 0x80 <= r {
      assert s[0] == e[0] && s[1] == e[1];
    } else {
      assert s[0] == e[0];
    }
  }

  /** `[]rune(s)`. */
  function Runes(s: Octets): (rs: seq<int>)
    ensures forall i :: 0 <= i < |rs| ==> IsScalar(rs[i])
    ensures s != [] ==> rs != []
  {
    if s == [] then []
    else
      if IsInvalid(s) then [RUNE_ERROR] + Runes(s[1..])
      else EncodeOfDecode(s); [DecodeRune(s).rune] + Runes(s[DecodeRune(s).width..])
  }

  /** The runes written one after the other. */
  function FromRunes(rs: seq<int>): Octets {
    if rs == [] then [] else EncodeRune(rs[0]) + FromRunes(rs[1..])
  }

  /** `utf8.ValidString`. */
  predicate IsValid(s: Octets) {
    s == [] || (!IsInvalid(s) && IsValid(s[DecodeRune(s).width..]))
  }

  /** A copy made rune by rune: each invalid octet becomes the three octets of U+FFFD. */
  function Sanitize(s: Octets): Octets {
    FromRunes(Runes(s))
  }

  lemma SplitAt<T>(s: seq<T>, w: nat, t: seq<T>)
    requires w <= |s|
    ensures s[..w] + t == s <==> t == s[w..]
  {
    assert s == s[..w] + s[w..];
    assert (s[..w] + t)[w..] == t;
  }

  /** U+FFFD itself is valid, so what stands for an invalid octet differs from it. */
  lemma SanitizeChanges(s: Octets)
    requires IsInvalid(s)
    ensures Sanitize(s) != s
  {
    assert Sanitize(s) == EncodeRune(RUNE_ERROR) + Sanitize(s[1..]);
    assert EncodeRune(RUNE_ERROR) == [0xEF, 0xBF, 0xBD];
  }

  /** Copying rune by rune is faithful exactly on valid UTF-8. */
  lemma {:induction false} SanitizeIsIdentity(s: Octets)
    ensures Sanitize(s) == s <==> IsValid(s)
  {
    if s != [] {
      if IsInvalid(s) {
        SanitizeChanges(s);
      } else {
        var w := DecodeRune(s).width;
        EncodeOfDecode(s);
        assert Sanitize(s) == s[..w] + Sanitize(s[w..]);
        SplitAt(s, w, Sanitize(s[w..]));
        SanitizeIsIdentity(s[w..]);
      }
    }
  }

  /** The octet 0xFF occurs in no UTF-8 text. */
  lemma SanitizeInvalid()
    ensures Sanitize([0xFF]) == [0xEF, 0xBF, 0xBD]
  {
    var s: Octets := [0xFF];
    assert DecodeRune(s) == Decoded(RUNE_ERROR, 1) && s[1..] == [];
    assert Runes(s) == [RUNE_ERROR] && [RUNE_ERROR][1..] == [];
    assert EncodeRune(RUNE_ERROR) == [0xEF, 0xBF, 0xBD];
  }

  lemma {:induction false} RunesOfFromRunes(rs: seq<int>)
    requires forall i :: 0 <= i < |rs| ==> IsScalar(rs[i])
    ensures Runes(FromRunes(rs)) == rs
  {
    if rs != [] {
      DecodeOfEncode(rs[0], FromRunes(rs[1..]));
      var s := FromRunes(rs);
      assert s[|EncodeRune(rs[0])|..] == FromRunes(rs[1..]);
      RunesOfFromRunes(rs[1..]);
    }
  }

  lemma {:induction false} FromRunesConcat(a: seq<int>, b: seq<int>)
    ensures FromRunes(a + b) == FromRunes(a) + FromRunes(b)
  {
    if a == [] {
      assert a + b == b;
    } else {
      assert (a + b)[1..] == a[1..] + b;
      FromRunesConcat(a[1..], b);
    }
  }

  /** ASCII text is its own sequence of runes. */
  lemma {:induction false} RunesOfAscii(s: Octets)
    requires IsAscii(s)
    ensures |Runes(s)| == |s|
    ensures forall i :: 0 <= i < |s| ==> Runes(s)[i] == s[i] as int
    ensures IsValid(s)
  {
    if s != [] {
      RunesOfAscii(s[1..]);
      assert Runes(s) == [s[0] as int] + Runes(s[1..]);
    }
  }
}
