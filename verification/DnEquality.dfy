/** Equality and ancestry of distinguished names. */
module DnEquality {
  import opened Bytes
  import opened Dn

  /** `strings.EqualFold` on ASCII text. */
  predicate EqualFold(s: Octets, t: Octets) {
    |s| == |t| && forall i :: 0 <= i < |s| ==> Lower(s[i]) == Lower(t[i])
  }

  /** `AttributeTypeAndValue.Equal`, and with `fold` its `EqualFold`. */
  predicate AttrEqual(a: Attribute, b: Attribute, fold: bool) {
    EqualFold(a.typ, b.typ) && if fold then EqualFold(a.value, b.value) else a.value == b.value
  }

  /** The text that is folded is ASCII, where folding is a matter of single octets. */
  predicate IsFoldable(attrs: seq<Attribute>, fold: bool) {
    forall i :: 0 <= i < |attrs| ==> IsAscii(attrs[i].typ) && (fold ==> IsAscii(attrs[i].value))
  }

  predicate AreFoldable(rs: seq<RelativeDN>, fold: bool) {
    forall i :: 0 <= i < |rs| ==> IsFoldable(rs[i].attributes, fold)
  }

  /** What the comparison looks at. */
  function Key(a: Attribute, fold: bool): Attribute {
    Attribute(Fold(a.typ), if fold then Fold(a.value) else a.value)
  }

  lemma EqualFoldIsEqualFolded(s: Octets, t: Octets)
    ensures EqualFold(s, t) <==> Fold(s) == Fold(t)
  {
    if Fold(s) == Fold(t) {
      assert forall i :: 0 <= i < |s| ==> Fold(s)[i] == Fold(t)[i];
    }
  }

  lemma AttrEqualIsKeyEqual(a: Attribute, b: Attribute, fold: bool)
    ensures AttrEqual(a, b, fold) <==> Key(a, fold) == Key(b, fold)
  {
    EqualFoldIsEqualFolded(a.typ, b.typ);
    EqualFoldIsEqualFolded(a.value, b.value);
  }

  /** The attributes as a bag, up to what the comparison looks at. */
  ghost function Bag(attrs: seq<Attribute>, fold: bool): (m: multiset<Attribute>)
    ensures |m| == |attrs|
  {
    if attrs == [] then multiset{} else Bag(attrs[..|attrs| - 1], fold) + multiset{Key(attrs[|attrs| - 1], fold)}
  }

  /** The part of the bag whose flag has the given value. */
  ghost function BagWhere(attrs: seq<Attribute>, matched: seq<bool>, flag: bool, fold: bool): multiset<Attribute>
    requires |matched| == |attrs|
  {
    if attrs == [] then multiset{}
    else
      var n := |attrs| - 1;
      BagWhere(attrs[..n], matched[..n], flag, fold)
      + (if matched[n] == flag then multiset{Key(attrs[n], fold)} else multiset{})
  }

  lemma {:induction false} BagParts(attrs: seq<Attribute>, matched: seq<bool>, fold: bool)
    requires |matched| == |attrs|
    ensures Bag(attrs, fold) == BagWhere(attrs, matched, true, fold) + BagWhere(attrs, matched, false, fold)
  {
    if attrs != [] {
      var n := |attrs| - 1;
      BagParts(attrs[..n], matched[..n], fold);
      Regroup(BagWhere(attrs[..n], matched[..n], true, fold), BagWhere(attrs[..n], matched[..n], false, fold),
              multiset{Key(attrs[n], fold)});
    }
  }

  lemma Regroup(a: multiset<Attribute>, b: multiset<Attribute>, k: multiset<Attribute>)
    ensures a + b + k == (a + k) + (b + multiset{})
    ensures a + b + k == (a + multiset{}) + (b + k)
  {
  }

  lemma {:induction false} NothingMarked(attrs: seq<Attribute>, matched: seq<bool>, fold: bool)
    requires |matched| == |attrs|
    requires forall i :: 0 <= i < |matched| ==> !matched[i]
    ensures BagWhere(attrs, matched, true, fold) == multiset{}
  {
    if attrs != [] {
      NothingMarked(attrs[..|attrs| - 1], matched[..|attrs| - 1], fold);
    }
  }

  lemma {:induction false} BagOfMarked(attrs: seq<Attribute>, matched: seq<bool>, i: nat, fold: bool)
    requires |matched| == |attrs| && i < |attrs| && !matched[i]
    ensures BagWhere(attrs, matched[i := true], true, fold)
         == BagWhere(attrs, matched, true, fold) + multiset{Key(attrs[i], fold)}
  {
    var n := |attrs| - 1;
    if i < n {
      BagOfMarked(attrs[..n], matched[..n], i, fold);
      assert matched[i := true][..n] == matched[..n][i := true];
    } else {
      assert matched[i := true][..n] == matched[..n];
    }
  }

  lemma {:induction false} NoneLeft(attrs: seq<Attribute>, matched: seq<bool>, k: Attribute, fold: bool)
    requires |matched| == |attrs|
    requires forall i :: 0 <= i < |attrs| && !matched[i] ==> Key(attrs[i], fold) != k
    ensures k !in BagWhere(attrs, matched, false, fold)
  {
    if attrs != [] {
      NoneLeft(attrs[..|attrs| - 1], matched[..|attrs| - 1], k, fold);
    }
  }

  lemma {:induction false} BagPrefix(attrs: seq<Attribute>, k: nat, fold: bool)
    requires k <= |attrs|
    ensures Bag(attrs[..k], fold) <= Bag(attrs, fold)
    decreases |attrs|
  {
    if k < |attrs| {
      BagPrefix(attrs[..|attrs| - 1], k, fold);
      assert attrs[..|attrs| - 1][..k] == attrs[..k];
    } else {
      assert attrs[..k] == attrs;
    }
  }

  /** The loop of `hasAllAttributes` and `hasAllAttributesFold` that looks for one attribute. */
  method FindUnmatched(mine: seq<Attribute>, matched: array<bool>, attr: Attribute, fold: bool) returns (i: nat)
    requires matched.Length == |mine|
    ensures i <= |mine|
    ensures i < |mine| ==> !matched[i] && AttrEqual(mine[i], attr, fold)
    ensures i == |mine| ==> forall k :: 0 <= k < |mine| && !matched[k] ==> !AttrEqual(mine[k], attr, fold)
  {
    i := 0;
    while i < |mine|
      invariant i <= |mine|
      invariant forall k :: 0 <= k < i && !matched[k] ==> !AttrEqual(mine[k], attr, fold)
    {
      if !matched[i] && AttrEqual(mine[i], attr, fold) {
        return;
      }
      i := i + 1;
    }
  }

  /** The greedy loop decides inclusion of bags: consuming the first match never spoils a later one. */
  method HasAllAttributes(mine: seq<Attribute>, attrs: seq<Attribute>, fold: bool) returns (r: bool)
    requires IsFoldable(mine, fold) && IsFoldable(attrs, fold)
    ensures r <==> Bag(attrs, fold) <= Bag(mine, fold)
  {
    var matched := new bool[|mine|](_ => false);
    NothingMarked(mine, matched[..], fold);
    for k := 0 to |attrs|
      invariant BagWhere(mine, matched[..], true, fold) == Bag(attrs[..k], fold)
    {
      var i := FindUnmatched(mine, matched, attrs[k], fold);
      ghost var before := matched[..];
      if i == |mine| {
        Exhausted(mine, before, attrs, k, fold);
        return false;
      }
      matched[i] := true;
      assert matched[..] == before[i := true];
      Consumed(mine, before, attrs, k, i, fold);
    }
    AllFound(mine, matched[..], attrs, fold);
    return true;
  }

  lemma Consumed(mine: seq<Attribute>, matched: seq<bool>, attrs: seq<Attribute>, k: nat, i: nat, fold: bool)
    requires |matched| == |mine| && k < |attrs| && i < |mine|
    requires BagWhere(mine, matched, true, fold) == Bag(attrs[..k], fold)
    requires !matched[i] && AttrEqual(mine[i], attrs[k], fold)
    ensures BagWhere(mine, matched[i := true], true, fold) == Bag(attrs[..k + 1], fold)
  {
    AttrEqualIsKeyEqual(mine[i], attrs[k], fold);
    BagOfMarked(mine, matched, i, fold);
    BagSnoc(attrs, k, fold);
  }

  lemma BagSnoc(attrs: seq<Attribute>, k: nat, fold: bool)
    requires k < |attrs|
    ensures Bag(attrs[..k + 1], fold) == Bag(attrs[..k], fold) + multiset{Key(attrs[k], fold)}
  {
    assert attrs[..k + 1][..k] == attrs[..k];
  }

  lemma Exhausted(mine: seq<Attribute>, matched: seq<bool>, attrs: seq<Attribute>, k: nat, fold: bool)
    requires |matched| == |mine| && k < |attrs|
    requires BagWhere(mine, matched, true, fold) == Bag(attrs[..k], fold)
    requires forall i :: 0 <= i < |mine| && !matched[i] ==> !AttrEqual(mine[i], attrs[k], fold)
    ensures !(Bag(attrs, fold) <= Bag(mine, fold))
  {
    var key := Key(attrs[k], fold);
    NoMatchLeft(mine, matched, attrs[k], fold);
    BagNext(attrs, k, fold);
    BagParts(mine, matched, fold);
    OneTooMany(Bag(attrs[..k], fold), BagWhere(mine, matched, false, fold), key, Bag(attrs, fold));
  }

  lemma NoMatchLeft(mine: seq<Attribute>, matched: seq<bool>, attr: Attribute, fold: bool)
    requires |matched| == |mine|
    requires forall i :: 0 <= i < |mine| && !matched[i] ==> !AttrEqual(mine[i], attr, fold)
    ensures Key(attr, fold) !in BagWhere(mine, matched, false, fold)
  {
    var key := Key(attr, fold);
    forall i | 0 <= i < |mine| && !matched[i] ensures Key(mine[i], fold) != key {
      AttrEqualIsKeyEqual(mine[i], attr, fold);
    }
    NoneLeft(mine, matched, key, fold);
  }

  lemma BagNext(attrs: seq<Attribute>, k: nat, fold: bool)
    requires k < |attrs|
    ensures Bag(attrs[..k], fold) + multiset{Key(attrs[k], fold)} <= Bag(attrs, fold)
  {
    BagPrefix(attrs, k + 1, fold);
    BagSnoc(attrs, k, fold);
  }

  lemma OneTooMany(taken: multiset<Attribute>, left: multiset<Attribute>, key: Attribute, wanted: multiset<Attribute>)
    requires key !in left && taken + multiset{key} <= wanted
    ensures !(wanted <= taken + left)
  {
    assert (taken + multiset{key})[key] == (taken + left)[key] + 1;
  }

  lemma AllFound(mine: seq<Attribute>, matched: seq<bool>, attrs: seq<Attribute>, fold: bool)
    requires |matched| == |mine| && BagWhere(mine, matched, true, fold) == Bag(attrs[..|attrs|], fold)
    ensures Bag(attrs, fold) <= Bag(mine, fold)
  {
    assert attrs[..|attrs|] == attrs;
    BagParts(mine, matched, fold);
  }

  // ---------------------------------------------------------------- RDNs and DNs

  ghost predicate RdnEqual(r: RelativeDN, s: RelativeDN, fold: bool) {
    Bag(r.attributes, fold) == Bag(s.attributes, fold)
  }

  lemma SubBagOfSameSize(a: multiset<Attribute>, b: multiset<Attribute>)
    requires a <= b && |a| == |b|
    ensures a == b
  {
    assert b == a + (b - a);
    assert |b - a| == 0;
  }

  /** Among RDNs of one size the first inclusion already decides equality, so the second call of
      `hasAllAttributes` is redundant. */
  lemma OneInclusionDecides(r: RelativeDN, s: RelativeDN, fold: bool)
    requires |r.attributes| == |s.attributes|
    ensures Bag(s.attributes, fold) <= Bag(r.attributes, fold) <==> RdnEqual(r, s, fold)
    ensures Bag(s.attributes, fold) <= Bag(r.attributes, fold) <==> Bag(r.attributes, fold) <= Bag(s.attributes, fold)
  {
    if Bag(s.attributes, fold) <= Bag(r.attributes, fold) {
      SubBagOfSameSize(Bag(s.attributes, fold), Bag(r.attributes, fold));
    }
    if Bag(r.attributes, fold) <= Bag(s.attributes, fold) {
      SubBagOfSameSize(Bag(r.attributes, fold), Bag(s.attributes, fold));
    }
  }

  /** `RelativeDN.Equal` and `RelativeDN.EqualFold`: equal as bags. */
  method RelativeEqual(r: RelativeDN, other: RelativeDN, fold: bool) returns (eq: bool)
    requires IsFoldable(r.attributes, fold) && IsFoldable(other.attributes, fold)
    ensures eq <==> RdnEqual(r, other, fold)
  {
    if |r.attributes| != |other.attributes| {
      return false;
    }
    OneInclusionDecides(r, other, fold);
    eq := HasAllAttributes(r.attributes, other.attributes, fold);
    if eq {
      eq := HasAllAttributes(other.attributes, r.attributes, fold);
    }
  }

  /** The bags of the RDNs, in order. */
  ghost function Bags(rs: seq<RelativeDN>, fold: bool): (bs: seq<multiset<Attribute>>)
    ensures |bs| == |rs|
  {
    if rs == [] then [] else [Bag(rs[0].attributes, fold)] + Bags(rs[1..], fold)
  }

  lemma {:induction false} BagsAt(rs: seq<RelativeDN>, i: nat, fold: bool)
    requires i < |rs|
    ensures Bags(rs, fold)[i] == Bag(rs[i].attributes, fold)
  {
    if i > 0 {
      BagsAt(rs[1..], i - 1, fold);
    }
  }

  ghost predicate RdnsEqual(rs: seq<RelativeDN>, ss: seq<RelativeDN>, fold: bool) {
    Bags(rs, fold) == Bags(ss, fold)
  }

  /** Equal names agree RDN by RDN. */
  lemma EqualIsPointwise(rs: seq<RelativeDN>, ss: seq<RelativeDN>, fold: bool)
    ensures RdnsEqual(rs, ss, fold) <==>
              |rs| == |ss| && forall i :: 0 <= i < |rs| ==> RdnEqual(rs[i], ss[i], fold)
  {
    var bs, cs := Bags(rs, fold), Bags(ss, fold);
    forall i | 0 <= i < |rs| && i < |ss| ensures bs[i] == cs[i] <==> RdnEqual(rs[i], ss[i], fold) {
      BagsAt(rs, i, fold);
      BagsAt(ss, i, fold);
    }
    assert |bs| == |rs| && |cs| == |ss|;
  }

  ghost predicate DnEqual(d: DN, e: DN, fold: bool) {
    RdnsEqual(d.rdns, e.rdns, fold)
  }

  /** The name is `d` with at least one RDN in front. */
  ghost predicate IsAncestor(d: DN, e: DN, fold: bool) {
    |d.rdns| < |e.rdns| && Bags(d.rdns, fold) == Bags(e.rdns, fold)[|e.rdns| - |d.rdns|..]
  }

  /** The comparing loop of `Equal` and `AncestorOf`. */
  method CompareRdns(rs: seq<RelativeDN>, ss: seq<RelativeDN>, fold: bool) returns (eq: bool)
    requires |rs| == |ss| && AreFoldable(rs, fold) && AreFoldable(ss, fold)
    ensures eq <==> RdnsEqual(rs, ss, fold)
  {
    EqualIsPointwise(rs, ss, fold);
    for i := 0 to |rs|
      invariant forall k :: 0 <= k < i ==> RdnEqual(rs[k], ss[k], fold)
    {
      var same := RelativeEqual(rs[i], ss[i], fold);
      if !same {
        return false;
      }
    }
    return true;
  }

  /** `DN.Equal` and `DN.EqualFold`. */
  method Equal(d: DN, other: DN, fold: bool) returns (eq: bool)
    requires AreFoldable(d.rdns, fold) && AreFoldable(other.rdns, fold)
    ensures eq <==> DnEqual(d, other, fold)
  {
    if |d.rdns| != |other.rdns| {
      return false;
    }
    eq := CompareRdns(d.rdns, other.rdns, fold);
  }

  /** `DN.AncestorOf` and `DN.AncestorOfFold`. */
  method AncestorOf(d: DN, other: DN, fold: bool) returns (r: bool)
    requires AreFoldable(d.rdns, fold) && AreFoldable(other.rdns, fold)
    ensures r <==> IsAncestor(d, other, fold)
  {
    if |d.rdns| >= |other.rdns| {
      return false;
    }
    var otherRDNs := other.rdns[|other.rdns| - |d.rdns|..];
    BagsTail(other.rdns, |other.rdns| - |d.rdns|, fold);
    r := CompareRdns(d.rdns, otherRDNs, fold);
  }

  lemma EqualIsEquivalence(d: DN, e: DN, g: DN, fold: bool)
    ensures DnEqual(d, d, fold)
    ensures DnEqual(d, e, fold) ==> DnEqual(e, d, fold)
    ensures DnEqual(d, e, fold) && DnEqual(e, g, fold) ==> DnEqual(d, g, fold)
  {
  }

  lemma {:induction false} BagsTail(rs: seq<RelativeDN>, k: nat, fold: bool)
    requires k <= |rs|
    ensures Bags(rs[k..], fold) == Bags(rs, fold)[k..]
  {
    if k == 0 {
      assert rs[k..] == rs;
    } else {
      BagsTail(rs[1..], k - 1, fold);
      assert rs[1..][k - 1..] == rs[k..];
    }
  }

  /** Ancestry is a strict order. */
  lemma AncestryIsStrictOrder(d: DN, e: DN, g: DN, fold: bool)
    ensures !IsAncestor(d, d, fold)
    ensures IsAncestor(d, e, fold) ==> !IsAncestor(e, d, fold)
    ensures IsAncestor(d, e, fold) && IsAncestor(e, g, fold) ==> IsAncestor(d, g, fold)
  {
    if IsAncestor(d, e, fold) && IsAncestor(e, g, fold) {
      var n, m, k := |d.rdns|, |e.rdns|, |g.rdns|;
      var bs := Bags(g.rdns, fold);
      assert bs[k - m..][m - n..] == bs[k - n..];
    }
  }

  /** Ancestry does not distinguish equal names. */
  lemma AncestryRespectsEquality(d: DN, d': DN, e: DN, e': DN, fold: bool)
    requires DnEqual(d, d', fold) && DnEqual(e, e', fold)
    ensures IsAncestor(d, e, fold) <==> IsAncestor(d', e', fold)
  {
    assert |d.rdns| == |Bags(d.rdns, fold)| && |e.rdns| == |Bags(e.rdns, fold)|;
  }
}
