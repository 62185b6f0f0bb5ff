/** When the order of observations matters, exactly.
    Two histories holding the same observations differ only through ties: equal
    greatest timestamps with different contents, and first guesses about a
    domain whose creation was never seen. */
module OrderIndependence {
  import opened Events
  import opened State
  import opened Summary
  import opened History
  import Bits

  /** What the state retains of a slot's winner besides its timestamp. */
  datatype Payload =
    | Masks(fs: AccessMask, net: AccessMask, scoped: AccessMask)
    | Path(pathname: CapturedBytes)
    | Creation(parentId: Option<DomainId>, tgid: ProcessId, comm: CapturedBytes, rulesetId: RulesetId, version: nat)
    | Whole(e: Event)
    | Nothing

  function PayloadOf(e: Event): Payload {
    match e
    case CreateRuleset(_, _, _, fs, net, scoped) => Masks(fs, net, scoped)
    case AddRulePathBeneath(_, _, _, _, _, _, pathname) => Path(pathname)
    case CreateDomain(_, r, v, _, parentId, tgid, comm) => Creation(parentId, tgid, comm, r, v)
    case EnforceDomain(_, _, _, _, _, _) => Whole(e)
    case _ => Nothing
  }

  function GuessOf(e: Event): (Option<DomainId>, ProcessId, CapturedBytes)
    requires e.IsDenial()
  {
    var h := e.context.hierarchy;
    (h.parentId, h.creatorTgid, h.creatorComm)
  }

  ghost predicate SameObservations(p: seq<Event>, q: seq<Event>) {
    forall e :: e in p <==> e in q
  }

  predicate SameOutcome(p: seq<Event>, q: seq<Event>, slot: Slot) {
    var a, b := Winner(p, slot), Winner(q, slot);
    || (a.None? && b.None?)
    || (a.Some? && b.Some? && a.value.timestamp == b.value.timestamp && PayloadOf(a.value) == PayloadOf(b.value))
  }

  predicate SameGuess(p: seq<Event>, q: seq<Event>, d: DomainId) {
    var a, b := FirstDenial(p, d), FirstDenial(q, d);
    || Winner(p, DomainCreation(d)).Some?
    || (a.None? && b.None?)
    || (a.Some? && b.Some? && GuessOf(a.value) == GuessOf(b.value))
  }

  // ----- facts that never depend on order or repetition -----

  lemma SameHighest(p: seq<Event>, q: seq<Event>, m: Measure)
    requires SameObservations(p, q)
    ensures Highest(p, m) == Highest(q, m)
  {
    HighestIsGreatest(p, m);
    HighestIsGreatest(q, m);
    assert Reports(p, m) == Reports(q, m);
  }

  lemma SameUnion(p: seq<Event>, q: seq<Event>, slot: Slot)
    requires SameObservations(p, q)
    requires slot.PathRule? || slot.PortRule?
    ensures AccessUnion(p, slot) == AccessUnion(q, slot)
  {
    forall i: nat ensures Bits.Bit(AccessUnion(p, slot), i) == Bits.Bit(AccessUnion(q, slot), i) {
      AccessUnionBits(p, slot, i);
      AccessUnionBits(q, slot, i);
    }
    Bits.Extensional(AccessUnion(p, slot), AccessUnion(q, slot));
  }

  lemma SamePorts(p: seq<Event>, q: seq<Event>, r: RulesetId)
    requires SameObservations(p, q)
    ensures PortRules(p, r) == PortRules(q, r)
  {
    assert Ports(p, r) == Ports(q, r);
    forall port | port in Ports(p, r) ensures PortRules(p, r)[port] == PortRules(q, r)[port] {
      SameUnion(p, q, PortRule(r, port));
    }
  }

  /** A winner's timestamp does not depend on order. */
  lemma SameWinningTime(p: seq<Event>, q: seq<Event>, slot: Slot)
    requires SameObservations(p, q)
    ensures Winner(p, slot).Some? == Winner(q, slot).Some?
    ensures Winner(p, slot).Some? ==> Winner(p, slot).value.timestamp == Winner(q, slot).value.timestamp
  {
    var i := WinnerWins(p, slot);
    var j := WinnerWins(q, slot);
    if Winner(p, slot).Some? && Winner(q, slot).Some? {
      assert p[i] in q && q[j] in p;
    }
  }

  // ----- facts that may -----

  lemma PathsAgree(p: seq<Event>, q: seq<Event>, r: RulesetId)
    requires SameObservations(p, q)
    ensures PathTargets(p, r) == PathTargets(q, r)
    ensures PathRules(p, r) == PathRules(q, r) <==>
            forall key :: key in PathTargets(p, r) ==> SameOutcome(p, q, PathRule(r, key.0, key.1))
  {
    assert PathTargets(p, r) == PathTargets(q, r);
    forall key | key in PathTargets(p, r)
      ensures PathRules(p, r)[key] == PathRules(q, r)[key] <==> SameOutcome(p, q, PathRule(r, key.0, key.1))
    {
      SameUnion(p, q, PathRule(r, key.0, key.1));
      SameWinningTime(p, q, PathRule(r, key.0, key.1));
      var _ := WinnerWins(p, PathRule(r, key.0, key.1));
    }
  }

  lemma ThreadsAgree(p: seq<Event>, q: seq<Event>, d: DomainId)
    requires SameObservations(p, q)
    ensures Threads(p, d) == Threads(q, d)
    ensures Enforcements(p, d) == Enforcements(q, d) <==>
            forall tid :: tid in Threads(p, d) ==> SameOutcome(p, q, ThreadEnforcement(d, tid))
  {
    assert Threads(p, d) == Threads(q, d);
    forall tid | tid in Threads(p, d)
      ensures Enforcements(p, d)[tid] == Enforcements(q, d)[tid] <==> SameOutcome(p, q, ThreadEnforcement(d, tid))
    {
      SameWinningTime(p, q, ThreadEnforcement(d, tid));
      var _ := WinnerWins(p, ThreadEnforcement(d, tid));
    }
  }

  lemma RulesetsAgree(p: seq<Event>, q: seq<Event>, r: RulesetId)
    requires SameObservations(p, q)
    ensures RulesetSummary(p, r) == RulesetSummary(q, r) <==>
            SameOutcome(p, q, RulesetCreation(r)) && PathRules(p, r) == PathRules(q, r)
  {
    SameHighest(p, q, Version(r));
    SameHighest(p, q, FinalVersion(r));
    SameHighest(p, q, RulesetFreeTime(r));
    SamePorts(p, q, r);
    SameWinningTime(p, q, RulesetCreation(r));
  }

  lemma DomainsAgree(p: seq<Event>, q: seq<Event>, d: DomainId)
    requires SameObservations(p, q)
    ensures DomainSummary(p, d) == DomainSummary(q, d) <==>
            SameOutcome(p, q, DomainCreation(d)) && SameGuess(p, q, d) && Enforcements(p, d) == Enforcements(q, d)
  {
    SameHighest(p, q, DenialCount(d));
    SameHighest(p, q, FinalDenialCount(d));
    SameHighest(p, q, DomainFreeTime(d));
    SameWinningTime(p, q, DomainCreation(d));
    var _ := FirstDenialIsFirst(p, d);
    var _ := FirstDenialIsFirst(q, d);
  }

  /** Histories with the same observations give the same state exactly when
      every competition and every first guess comes out the same. */
  lemma StatesAgree(p: seq<Event>, q: seq<Event>)
    requires SameObservations(p, q)
    ensures Run(p) == Run(q) <==>
            (forall slot :: SameOutcome(p, q, slot)) && (forall d :: SameGuess(p, q, d))
  {
    RunIsSummary(p);
    RunIsSummary(q);
    if (forall slot :: SameOutcome(p, q, slot)) && (forall d :: SameGuess(p, q, d)) {
      SameOutcomesSuffice(p, q);
    }
    if Run(p) == Run(q) {
      forall slot ensures SameOutcome(p, q, slot) {
        OutcomeIsVisible(p, q, slot);
      }
      forall d ensures SameGuess(p, q, d) {
        GuessIsVisible(p, q, d);
      }
    }
  }

  lemma SameOutcomesSuffice(p: seq<Event>, q: seq<Event>)
    requires SameObservations(p, q)
    requires forall slot :: SameOutcome(p, q, slot)
    requires forall d :: SameGuess(p, q, d)
    ensures Summarize(p) == Summarize(q)
  {
    SameRulesets(p, q);
    SameDomains(p, q);
  }

  lemma SameRulesets(p: seq<Event>, q: seq<Event>)
    requires SameObservations(p, q)
    requires forall slot :: SameOutcome(p, q, slot)
    ensures Summarize(p).rulesets == Summarize(q).rulesets
  {
    assert RulesetIds(p) == RulesetIds(q);
    forall r | r in RulesetIds(p) ensures RulesetSummary(p, r) == RulesetSummary(q, r) {
      PathsAgree(p, q, r);
      RulesetsAgree(p, q, r);
    }
  }

  lemma SameDomains(p: seq<Event>, q: seq<Event>)
    requires SameObservations(p, q)
    requires forall slot :: SameOutcome(p, q, slot)
    requires forall d :: SameGuess(p, q, d)
    ensures Summarize(p).domains == Summarize(q).domains
  {
    IdsAreObserved(p);
    IdsAreObserved(q);
    assert DomainIds(p) == DomainIds(q);
    forall d | d in DomainIds(p) ensures DomainSummary(p, d) == DomainSummary(q, d) {
      ThreadsAgree(p, q, d);
      DomainsAgree(p, q, d);
    }
  }

  /** Nobody mentions an object exactly when it is missing from the state. */
  lemma Visible(p: seq<Event>, q: seq<Event>, e: Event)
    requires Summarize(p) == Summarize(q)
    requires e in p
    ensures e.NamesRuleset() ==> RulesetSummary(p, e.rulesetId) == RulesetSummary(q, e.rulesetId)
    ensures HasSubject(e) ==> DomainSummary(p, Subject(e)) == DomainSummary(q, Subject(e))
  {
    if e.NamesRuleset() {
      assert e.rulesetId in RulesetIds(p);
      assert Summarize(p).rulesets[e.rulesetId] == Summarize(q).rulesets[e.rulesetId];
    }
    if HasSubject(e) {
      AffectedIsMentioned(e);
      assert Subject(e) in Affected(e);
      assert Subject(e) in DomainIds(p);
      assert Summarize(p).domains[Subject(e)] == Summarize(q).domains[Subject(e)];
    }
  }

  lemma OutcomeIsVisible(p: seq<Event>, q: seq<Event>, slot: Slot)
    requires SameObservations(p, q)
    requires Summarize(p) == Summarize(q)
    ensures SameOutcome(p, q, slot)
  {
    SameWinningTime(p, q, slot);
    var i := WinnerWins(p, slot);
    if Winner(p, slot).Some? {
      var w := p[i];
      Visible(p, q, w);
      match slot
      case RulesetCreation(r) => RulesetsAgree(p, q, r);
      case PathRule(r, device, inode) =>
        PathsAgree(p, q, r);
        assert (w.device, w.inode) in PathTargets(p, r);
      case PortRule(r, port) =>
      case DomainCreation(d) => DomainsAgree(p, q, d);
      case ThreadEnforcement(d, tid) =>
        ThreadsAgree(p, q, d);
        assert w.enforcingTid in Threads(p, d);
    }
  }

  lemma GuessIsVisible(p: seq<Event>, q: seq<Event>, d: DomainId)
    requires SameObservations(p, q)
    requires Summarize(p) == Summarize(q)
    ensures SameGuess(p, q, d)
  {
    var i := FirstDenialIsFirst(p, d);
    var _ := FirstDenialIsFirst(q, d);
    if FirstDenial(p, d).Some? {
      Visible(p, q, p[i]);
      DomainsAgree(p, q, d);
    }
  }

  // ----- order independence -----

  ghost predicate Top(h: seq<Event>, e: Event, slot: Slot) {
    && e in h
    && Competes(e, slot)
    && forall c :: c in h && Competes(c, slot) ==> c.timestamp <= e.timestamp
  }

  /** Competitors sharing the greatest timestamp say the same thing. */
  ghost predicate TiesAgree(h: seq<Event>, slot: Slot) {
    forall a, b :: Top(h, a, slot) && Top(h, b, slot) ==> PayloadOf(a) == PayloadOf(b)
  }

  /** The domain's creation was seen, or its denials all describe it alike. */
  ghost predicate DenialsAgree(h: seq<Event>, d: DomainId) {
    || (exists c :: c in h && Competes(c, DomainCreation(d)))
    || (forall a, b :: a in h && b in h && DeniedBy(a, d) && DeniedBy(b, d) ==> GuessOf(a) == GuessOf(b))
  }

  ghost predicate OrderInsensitive(h: seq<Event>) {
    (forall slot :: TiesAgree(h, slot)) && (forall d :: DenialsAgree(h, d))
  }

  lemma WinnerIsTop(h: seq<Event>, slot: Slot)
    ensures Winner(h, slot).Some? ==> Top(h, Winner(h, slot).value, slot)
  {
    var i := WinnerWins(h, slot);
    if Winner(h, slot).Some? {
      assert h[i] in h;
    }
  }

  /** An order-insensitive history is determined by the set of its observations:
      neither order nor repetition matters. */
  lemma OrderInsensitiveSuffices(h: seq<Event>, p: seq<Event>)
    requires OrderInsensitive(h)
    requires SameObservations(h, p)
    ensures Run(h) == Run(p)
  {
    forall slot ensures SameOutcome(h, p, slot) {
      SameWinningTime(h, p, slot);
      WinnerIsTop(h, slot);
      WinnerIsTop(p, slot);
      assert TiesAgree(h, slot);
      if Winner(p, slot).Some? { assert Top(h, Winner(p, slot).value, slot); }
    }
    forall d ensures SameGuess(h, p, d) {
      var i := FirstDenialIsFirst(h, d);
      var j := FirstDenialIsFirst(p, d);
      var _ := WinnerWins(h, DomainCreation(d));
      assert DenialsAgree(h, d);
      if FirstDenial(h, d).Some? && FirstDenial(p, d).Some? {
        assert h[i] in h && p[j] in h;
      }
    }
    StatesAgree(h, p);
  }

  function Without(h: seq<Event>, e: Event): seq<Event> {
    if h == [] then []
    else if h[0] == e then h[1..]
    else [h[0]] + Without(h[1..], e)
  }

  lemma {:induction false} WithoutIsRest(h: seq<Event>, e: Event)
    requires e in h
    ensures multiset(h) == multiset(Without(h, e)) + multiset{e}
  {
    assert h == [h[0]] + h[1..];
    if h[0] != e { WithoutIsRest(h[1..], e); }
  }

  lemma PermutationsShareObservations(p: seq<Event>, q: seq<Event>)
    requires multiset(p) == multiset(q)
    ensures SameObservations(p, q)
  {
    forall e ensures e in p <==> e in q {
      assert e in p <==> e in multiset(p);
      assert e in q <==> e in multiset(q);
    }
  }

  ghost predicate AllOrdersAgree(h: seq<Event>) {
    forall p, q :: multiset(p) == multiset(h) && multiset(q) == multiset(h) ==> Run(p) == Run(q)
  }

  /** A top competitor applied last wins. */
  lemma LastTopWins(h: seq<Event>, e: Event, slot: Slot)
    requires Top(h, e, slot)
    ensures multiset(Without(h, e) + [e]) == multiset(h)
    ensures Winner(Without(h, e) + [e], slot) == Some(e)
  {
    var rest := Without(h, e);
    WithoutIsRest(h, e);
    PermutationsShareObservations(rest + [e], h);
    WinnerExtends(rest, e, slot);
    WinnerIsTop(rest, slot);
    if Winner(rest, slot).Some? {
      assert Winner(rest, slot).value in rest + [e];
    }
  }

  lemma OrdersDiffer(h: seq<Event>, p: seq<Event>, q: seq<Event>)
    requires multiset(p) == multiset(h) && multiset(q) == multiset(h) && Run(p) != Run(q)
    ensures !AllOrdersAgree(h)
  {
  }

  lemma WinnersDiffer(p: seq<Event>, q: seq<Event>, slot: Slot, a: Event, b: Event)
    requires SameObservations(p, q) && Winner(p, slot) == Some(a) && Winner(q, slot) == Some(b)
    requires PayloadOf(a) != PayloadOf(b)
    ensures Run(p) != Run(q)
  {
    StatesAgree(p, q);
    assert !SameOutcome(p, q, slot);
  }

  lemma TiesMatter(h: seq<Event>, slot: Slot, a: Event, b: Event)
    requires Top(h, a, slot) && Top(h, b, slot) && PayloadOf(a) != PayloadOf(b)
    ensures !AllOrdersAgree(h)
  {
    var p, q := Without(h, a) + [a], Without(h, b) + [b];
    LastTopWins(h, a, slot);
    LastTopWins(h, b, slot);
    PermutationsShareObservations(p, q);
    WinnersDiffer(p, q, slot, a, b);
    OrdersDiffer(h, p, q);
  }

  lemma MovedToFront(h: seq<Event>, e: Event)
    requires e in h
    ensures multiset([e] + Without(h, e)) == multiset(h)
  {
    WithoutIsRest(h, e);
  }

  lemma GuessesMatter(h: seq<Event>, d: DomainId, a: Event, b: Event)
    requires forall c :: c in h ==> !Competes(c, DomainCreation(d))
    requires a in h && b in h && DeniedBy(a, d) && DeniedBy(b, d) && GuessOf(a) != GuessOf(b)
    ensures !AllOrdersAgree(h)
  {
    var p, q := [a] + Without(h, a), [b] + Without(h, b);
    MovedToFront(h, a);
    MovedToFront(h, b);
    PermutationsShareObservations(p, q);
    PermutationsShareObservations(p, h);
    GuessesDiffer(p, q, d, a, b);
    OrdersDiffer(h, p, q);
  }

  lemma GuessesDiffer(p: seq<Event>, q: seq<Event>, d: DomainId, a: Event, b: Event)
    requires SameObservations(p, q) && forall c :: c in p ==> !Competes(c, DomainCreation(d))
    requires p != [] && q != [] && p[0] == a && q[0] == b
    requires DeniedBy(a, d) && DeniedBy(b, d) && GuessOf(a) != GuessOf(b)
    ensures Run(p) != Run(q)
  {
    StatesAgree(p, q);
    var _ := WinnerWins(p, DomainCreation(d));
    assert !SameGuess(p, q, d);
  }

  /** Two creations of one ruleset at the same time: the one applied last is believed. */
  lemma TieExample() returns (a: Event, b: Event)
    ensures MIN_ID in Run([a, b]).rulesets && Run([a, b]).rulesets[MIN_ID].handledFs == Some(2)
    ensures MIN_ID in Run([b, a]).rulesets && Run([b, a]).rulesets[MIN_ID].handledFs == Some(1)
  {
    a, b := CreateRuleset(5, MIN_ID, 0, 1, 0, 0), CreateRuleset(5, MIN_ID, 0, 2, 0, 0);
    RunOfTwo(a, b);
    RunOfTwo(b, a);
  }

  /** Two denials of one domain that name different parents: the one applied first is believed. */
  lemma GuessExample() returns (a: Event, b: Event)
    ensures MIN_ID in Run([a, b]).domains && Run([a, b]).domains[MIN_ID].parent == Some(Root)
    ensures MIN_ID in Run([b, a]).domains && Run([b, a]).domains[MIN_ID].parent == Some(Domain(MIN_ID + 1))
  {
    var comm := CapturedBytes([], false);
    a := DenyAccessNet(5, DenialContext(Hierarchy(MIN_ID, None, 1, comm), 1, false, false), 0, 0, 0, 0);
    b := DenyAccessNet(6, DenialContext(Hierarchy(MIN_ID, Some(MIN_ID + 1), 1, comm), 2, false, false), 0, 0, 0, 0);
    RunOfTwo(a, b);
    RunOfTwo(b, a);
  }

  /** The smallest identifier that the kernel assigns. */
  const MIN_ID: nat := 0x1_0000_0000

  lemma RunOfTwo(a: Event, b: Event)
    ensures Run([a, b]) == Applied(Applied(Empty, a), b)
  {
    RunExtends([], a);
    RunExtends([a], b);
    assert [] + [a] == [a] && [a] + [b] == [a, b];
  }

  /** Order independence holds exactly of the order-insensitive histories. */
  lemma OrderIndependence(h: seq<Event>)
    ensures AllOrdersAgree(h) <==> OrderInsensitive(h)
  {
    if OrderInsensitive(h) {
      forall p, q | multiset(p) == multiset(h) && multiset(q) == multiset(h) ensures Run(p) == Run(q) {
        PermutationsShareObservations(h, p);
        PermutationsShareObservations(h, q);
        OrderInsensitiveSuffices(h, p);
        OrderInsensitiveSuffices(h, q);
      }
    }
    if AllOrdersAgree(h) {
      forall slot ensures TiesAgree(h, slot) {
        forall a, b | Top(h, a, slot) && Top(h, b, slot) ensures PayloadOf(a) == PayloadOf(b) {
          if PayloadOf(a) != PayloadOf(b) { TiesMatter(h, slot, a, b); }
        }
      }
      forall d ensures DenialsAgree(h, d) {
        if !exists c :: c in h && Competes(c, DomainCreation(d)) {
          forall a, b | a in h && b in h && DeniedBy(a, d) && DeniedBy(b, d) ensures GuessOf(a) == GuessOf(b) {
            if GuessOf(a) != GuessOf(b) { GuessesMatter(h, d, a, b); }
          }
        }
      }
    }
  }

  // ----- replay -----

  /** Re-applying an observation changes nothing exactly when it does not
      displace an equally late winner that says something else. */
  lemma ReplayAbsorbed(h: seq<Event>, e: Event)
    requires e in h
    ensures Run(h + [e]) == Run(h) <==>
            forall slot :: Top(h, e, slot) ==> Winner(h, slot).Some? && PayloadOf(Winner(h, slot).value) == PayloadOf(e)
  {
    var h' := h + [e];
    StatesAgree(h, h');
    forall d ensures SameGuess(h, h', d) {
      FirstDenialExtends(h, e, d);
      var _ := FirstDenialIsFirst(h, d);
    }
    forall slot
      ensures SameOutcome(h, h', slot) <==>
              (Top(h, e, slot) ==> Winner(h, slot).Some? && PayloadOf(Winner(h, slot).value) == PayloadOf(e))
    {
      WinnerExtends(h, e, slot);
      WinnerIsTop(h, slot);
      var _ := WinnerWins(h, slot);
    }
  }

  /** In an order-insensitive history every replay is absorbed. */
  lemma ReplaysAbsorbed(h: seq<Event>, replays: seq<Event>)
    requires OrderInsensitive(h)
    requires forall e :: e in replays ==> e in h
    ensures Run(h + replays) == Run(h)
  {
    OrderInsensitiveSuffices(h, h + replays);
  }
}
