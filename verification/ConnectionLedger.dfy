/** The outstanding-request counter and the exclusion that `StartTLS` builds on it. */
module ConnectionLedger {
  import opened Connection

  /** How many callers are counted and not yet discounted. */
  function Charged(cs: seq<Caller>): nat {
    if cs == [] then 0
    else Charged(cs[..|cs| - 1]) + if IsCharged(cs[|cs| - 1].phase) then 1 else 0
  }

  lemma {:induction false} ChargedUpdate(cs: seq<Caller>, i: nat, c: Caller)
    requires i < |cs|
    ensures Charged(cs[i := c])
         == Charged(cs) + (if IsCharged(c.phase) then 1 else 0) - (if IsCharged(cs[i].phase) then 1 else 0)
  {
    var n := |cs| - 1;
    if i == n {
      assert cs[i := c][..n] == cs[..n];
    } else {
      ChargedUpdate(cs[..n], i, c);
      assert cs[i := c][..n] == cs[..n][i := c];
    }
  }

  lemma ChargedAppend(cs: seq<Caller>, c: Caller)
    ensures Charged(cs + [c]) == Charged(cs) + if IsCharged(c.phase) then 1 else 0
  {
    assert (cs + [c])[..|cs|] == cs;
  }

  lemma {:induction false} ChargedAtLeast(cs: seq<Caller>, i: nat)
    requires i < |cs| && IsCharged(cs[i].phase)
    ensures Charged(cs) >= 1
  {
    if i < |cs| - 1 { ChargedAtLeast(cs[..|cs| - 1], i); }
  }

  lemma {:induction false} ChargedTwice(cs: seq<Caller>, i: nat, j: nat)
    requires i < j < |cs| && IsCharged(cs[i].phase) && IsCharged(cs[j].phase)
    ensures Charged(cs) >= 2
  {
    if j == |cs| - 1 { ChargedAtLeast(cs[..j], i); } else { ChargedTwice(cs[..|cs| - 1], i, j); }
  }

  // ---------------------------------------------------------------- conservation

  /** The counter is the number of charged callers; one that will never be discounted is charged
      only when the connection is closing. */
  predicate CountInv(l: Ledger, closing: bool) {
    && !l.fault
    && l.outstanding == Charged(l.callers)
    && forall i :: 0 <= i < |l.callers| && (l.callers[i].phase.Unsent? || l.callers[i].phase.Skipped?) ==> closing
  }

  lemma CountAdvance(l: Ledger, i: nat, closing: bool)
    requires CountInv(l, closing) && i < |l.callers| && !IsOver(l.callers[i].phase)
    ensures CountInv(Advance(l, i, closing), closing)
  {
    ChargedUpdate(l.callers, i, l.callers[i].(phase := NextPhase(l, l.callers[i], closing)));
    if IsCharged(l.callers[i].phase) { ChargedAtLeast(l.callers, i); }
  }

  lemma CountTakeId(l: Ledger, startTLS: bool, stopped: bool, closing: bool)
    requires CountInv(l, closing)
    ensures CountInv(TakeId(l, startTLS, stopped), closing)
  {
    ChargedAppend(l.callers, Caller(if stopped then 0 else l.nextId, startTLS, Identified, false));
  }

  lemma CountSpawned(l: Ledger, i: nat, closing: bool)
    requires CountInv(l, closing) && i < |l.callers|
    ensures CountInv(Spawned(l, i), closing)
  {
    ChargedUpdate(l.callers, i, l.callers[i].(spawned := true));
  }

  /** The closing flag is never cleared. */
  lemma ClosingStays(s: State, a: Action)
    requires Enabled(s, a)
    ensures s.mailbox.closing ==> Apply(s, a).mailbox.closing
    ensures a.Go? ==> Apply(s, a).mailbox.closing == s.mailbox.closing
  {
  }

  lemma CountStep(s: State, a: Action)
    requires Enabled(s, a) && CountInv(s.ledger, s.mailbox.closing)
    ensures CountInv(Apply(s, a).ledger, Apply(s, a).mailbox.closing)
  {
    ClosingStays(s, a);
    match a
    case Begin(startTLS) => CountTakeId(s.ledger, startTLS, s.desk.at.Stopped?, s.mailbox.closing);
    case Go(i) => CountAdvance(s.ledger, i, s.mailbox.closing);
    case Spawn(i) => CountSpawned(s.ledger, i, s.mailbox.closing);
    case _ =>
  }

  // ---------------------------------------------------------------- StartTLS

  predicate IsStartingTLS(c: Caller) {
    c.startTLS && IsCharged(c.phase)
  }

  /** The flag is set exactly while a StartTLS request is charged, and then nothing else is. */
  predicate TlsInv(l: Ledger) {
    && (forall i :: 0 <= i < |l.callers| && IsStartingTLS(l.callers[i]) ==> l.startingTLS)
    && (l.startingTLS ==> l.outstanding == 1 && exists i :: 0 <= i < |l.callers| && IsStartingTLS(l.callers[i]))
  }

  lemma OnlyOneCharged(l: Ledger, closing: bool, i: nat, j: nat)
    requires CountInv(l, closing) && l.outstanding == 1
    requires i < |l.callers| && j < |l.callers| && IsCharged(l.callers[i].phase) && IsCharged(l.callers[j].phase)
    ensures i == j
  {
    if i < j { ChargedTwice(l.callers, i, j); }
    if j < i { ChargedTwice(l.callers, j, i); }
  }

  lemma TlsFlag(l: Ledger, i: nat, closing: bool)
    requires CountInv(l, closing) && TlsInv(l) && i < |l.callers| && !IsOver(l.callers[i].phase)
    ensures var k := Advance(l, i, closing);
      forall j :: 0 <= j < |k.callers| && IsStartingTLS(k.callers[j]) ==> k.startingTLS
  {
    var k := Advance(l, i, closing);
    forall j | 0 <= j < |k.callers| && IsStartingTLS(k.callers[j])
      ensures k.startingTLS
    {
      if l.callers[i].phase.FinishChecked? && j != i { OnlyOneCharged(l, closing, i, j); }
    }
  }

  lemma TlsOwner(l: Ledger, i: nat, closing: bool)
    requires CountInv(l, closing) && TlsInv(l) && i < |l.callers| && !IsOver(l.callers[i].phase)
    ensures var k := Advance(l, i, closing);
      k.startingTLS ==> k.outstanding == 1 && exists j :: 0 <= j < |k.callers| && IsStartingTLS(k.callers[j])
  {
    var k := Advance(l, i, closing);
    if l.startingTLS {
      var j :| 0 <= j < |l.callers| && IsStartingTLS(l.callers[j]);
      assert k.startingTLS ==> IsStartingTLS(k.callers[j]);
    } else {
      assert k.startingTLS ==> IsStartingTLS(k.callers[i]);
    }
  }

  lemma TlsSame(l: Ledger, k: Ledger)
    requires TlsInv(l) && k.startingTLS == l.startingTLS && k.outstanding == l.outstanding
    requires |k.callers| >= |l.callers|
    requires forall i :: 0 <= i < |l.callers| ==> IsStartingTLS(k.callers[i]) == IsStartingTLS(l.callers[i])
    requires forall i :: |l.callers| <= i < |k.callers| ==> !IsStartingTLS(k.callers[i])
    ensures TlsInv(k)
  {
    if l.startingTLS {
      var j :| 0 <= j < |l.callers| && IsStartingTLS(l.callers[j]);
      assert IsStartingTLS(k.callers[j]);
    }
  }

  lemma TlsStep(s: State, a: Action)
    requires Enabled(s, a) && CountInv(s.ledger, s.mailbox.closing) && TlsInv(s.ledger)
    ensures TlsInv(Apply(s, a).ledger)
  {
    match a
    case Begin(startTLS) => TlsSame(s.ledger, TakeId(s.ledger, startTLS, s.desk.at.Stopped?));
    case Go(i) =>
      TlsFlag(s.ledger, i, s.mailbox.closing);
      TlsOwner(s.ledger, i, s.mailbox.closing);
    case Spawn(i) => TlsSame(s.ledger, Spawned(s.ledger, i));
    case _ =>
  }
}
