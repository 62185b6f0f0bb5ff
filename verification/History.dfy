/** Replaying a history yields exactly its summary, for every history. */
module History {
  import opened Events
  import opened State
  import opened Summary

  lemma PathRulesStep(h: seq<Event>, e: Event, r: RulesetId)
    ensures PathRules(h + [e], r) ==
            if e.AddRulePathBeneath? && e.rulesetId == r then WithPathRule(PathRules(h, r), e) else PathRules(h, r)
  {
    var before, after := PathRules(h, r), PathRules(h + [e], r);
    var adds := e.AddRulePathBeneath? && e.rulesetId == r;
    var expected := if adds then WithPathRule(before, e) else before;
    assert PathTargets(h + [e], r) == PathTargets(h, r) + if adds then {(e.device, e.inode)} else {};
    forall key | key in after ensures after[key] == expected[key] {
      var slot := PathRule(r, key.0, key.1);
      WinnerExtends(h, e, slot);
      AccessUnionExtends(h, e, slot);
      var _ := WinnerWins(h, slot);
      if key !in before {
        AccessUnionOfNone(h, slot);
      }
    }
  }

  lemma PortRulesStep(h: seq<Event>, e: Event, r: RulesetId)
    ensures PortRules(h + [e], r) ==
            if e.AddRuleNetPort? && e.rulesetId == r then WithPortRule(PortRules(h, r), e) else PortRules(h, r)
  {
    var before, after := PortRules(h, r), PortRules(h + [e], r);
    var adds := e.AddRuleNetPort? && e.rulesetId == r;
    var expected := if adds then WithPortRule(before, e) else before;
    assert Ports(h + [e], r) == Ports(h, r) + if adds then {e.port} else {};
    forall port | port in after ensures after[port] == expected[port] {
      AccessUnionExtends(h, e, PortRule(r, port));
      if port !in before {
        AccessUnionOfNone(h, PortRule(r, port));
      }
    }
  }

  lemma ThreadsStep(h: seq<Event>, e: Event, d: DomainId)
    ensures Threads(h + [e], d) == Threads(h, d) + if e.EnforceDomain? && e.domainId == d then {e.enforcingTid} else {}
  {
  }

  lemma EnforcementAt(h: seq<Event>, e: Event, d: DomainId, tid: ThreadId)
    requires tid in Enforcements(h + [e], d)
    ensures var expected := if e.EnforceDomain? && e.domainId == d then WithEnforcement(Enforcements(h, d), e)
                            else Enforcements(h, d);
            tid in expected && Enforcements(h + [e], d)[tid] == expected[tid]
  {
    ThreadsStep(h, e, d);
    WinnerExtends(h, e, ThreadEnforcement(d, tid));
    var _ := WinnerWins(h, ThreadEnforcement(d, tid));
  }

  lemma EnforcementsStep(h: seq<Event>, e: Event, d: DomainId)
    ensures Enforcements(h + [e], d) ==
            if e.EnforceDomain? && e.domainId == d then WithEnforcement(Enforcements(h, d), e) else Enforcements(h, d)
  {
    var expected :=
      if e.EnforceDomain? && e.domainId == d then WithEnforcement(Enforcements(h, d), e) else Enforcements(h, d);
    ThreadsStep(h, e, d);
    forall tid | tid in Enforcements(h + [e], d) ensures Enforcements(h + [e], d)[tid] == expected[tid] {
      EnforcementAt(h, e, d, tid);
    }
    SameMaps(Enforcements(h + [e], d), expected);
  }

  lemma RulesetStep(h: seq<Event>, e: Event, r: RulesetId)
    ensures RulesetSummary(h + [e], r) ==
            if Shows(e, RulesetNamed(r)) then UpdateRuleset(RulesetSummary(h, r), e) else RulesetSummary(h, r)
  {
    ObservedExtends(h, e, RulesetFreed(r));
    HighestExtends(h, e, Version(r));
    HighestExtends(h, e, FinalVersion(r));
    HighestExtends(h, e, RulesetFreeTime(r));
    WinnerExtends(h, e, RulesetCreation(r));
    PathRulesStep(h, e, r);
    PortRulesStep(h, e, r);
  }

  lemma DomainDenied(h: seq<Event>, e: Event, d: DomainId)
    requires DeniedBy(e, d)
    ensures DomainSummary(h + [e], d) == UpdateDomain(DomainSummary(h, d), e)
  {
    ObservedExtends(h, e, DomainFreed(d));
    ObservedExtends(h, e, ProcessWide(d));
    HighestExtends(h, e, DenialCount(d));
    HighestExtends(h, e, FinalDenialCount(d));
    HighestExtends(h, e, DomainFreeTime(d));
    WinnerExtends(h, e, DomainCreation(d));
    FirstDenialExtends(h, e, d);
    EnforcementsStep(h, e, d);
  }

  lemma DomainUpdated(h: seq<Event>, e: Event, d: DomainId)
    requires (e.CreateDomain? || e.FreeDomain? || e.EnforceDomain?) && e.domainId == d
    ensures DomainSummary(h + [e], d) == UpdateDomain(DomainSummary(h, d), e)
  {
    ObservedExtends(h, e, DomainFreed(d));
    ObservedExtends(h, e, ProcessWide(d));
    HighestExtends(h, e, DenialCount(d));
    HighestExtends(h, e, FinalDenialCount(d));
    HighestExtends(h, e, DomainFreeTime(d));
    WinnerExtends(h, e, DomainCreation(d));
    FirstDenialExtends(h, e, d);
    EnforcementsStep(h, e, d);
  }

  lemma DomainUntouched(h: seq<Event>, e: Event, d: DomainId)
    requires !(HasSubject(e) && Subject(e) == d)
    ensures DomainSummary(h + [e], d) == DomainSummary(h, d)
  {
    ObservedExtends(h, e, DomainFreed(d));
    ObservedExtends(h, e, ProcessWide(d));
    HighestExtends(h, e, DenialCount(d));
    HighestExtends(h, e, FinalDenialCount(d));
    HighestExtends(h, e, DomainFreeTime(d));
    WinnerExtends(h, e, DomainCreation(d));
    FirstDenialExtends(h, e, d);
    EnforcementsStep(h, e, d);
  }

  lemma DomainStep(h: seq<Event>, e: Event, d: DomainId)
    ensures DomainSummary(h + [e], d) ==
            if HasSubject(e) && Subject(e) == d then UpdateDomain(DomainSummary(h, d), e) else DomainSummary(h, d)
  {
    if DeniedBy(e, d) {
      DomainDenied(h, e, d);
    } else if HasSubject(e) && Subject(e) == d {
      DomainUpdated(h, e, d);
    } else {
      DomainUntouched(h, e, d);
    }
  }

  /** Before its first mention an object's summary is that of a fresh record. */
  lemma RulesetUnseen(h: seq<Event>, r: RulesetId)
    requires !Observed(h, RulesetNamed(r))
    ensures RulesetSummary(h, r) == NewRuleset(r, Allocated, 0)
  {
    assert forall x :: x in h ==> !Shows(x, RulesetNamed(r));
    HighestIsGreatest(h, Version(r));
    HighestIsGreatest(h, FinalVersion(r));
    HighestIsGreatest(h, RulesetFreeTime(r));
    var _ := WinnerWins(h, RulesetCreation(r));
    assert PathRules(h, r) == map[];
    assert PortRules(h, r) == map[];
  }

  /** An observation that does not name a domain says nothing about it. */
  predicate SilentOn(e: Event, d: DomainId) {
    && Reported(e, DenialCount(d)).None? && Reported(e, FinalDenialCount(d)).None?
    && Reported(e, DomainFreeTime(d)).None?
    && !Competes(e, DomainCreation(d)) && !DeniedBy(e, d)
    && !Shows(e, DomainFreed(d)) && !Shows(e, ProcessWide(d))
    && !(e.EnforceDomain? && e.domainId == d)
  }

  lemma UnmentionedIsSilent(e: Event, d: DomainId)
    requires d !in Mentioned(e)
    ensures SilentOn(e, d)
  {
  }

  lemma SilentSummary(h: seq<Event>, d: DomainId)
    requires forall x :: x in h ==> SilentOn(x, d)
    ensures DomainSummary(h, d) == NewDomain(d, Allocated)
  {
    HighestIsGreatest(h, DenialCount(d));
    HighestIsGreatest(h, FinalDenialCount(d));
    HighestIsGreatest(h, DomainFreeTime(d));
    var _ := WinnerWins(h, DomainCreation(d));
    var _ := FirstDenialIsFirst(h, d);
    assert Threads(h, d) == {};
  }

  lemma DomainUnseen(h: seq<Event>, d: DomainId)
    requires !Observed(h, DomainNamed(d))
    ensures DomainSummary(h, d) == NewDomain(d, Allocated)
  {
    forall x | x in h ensures SilentOn(x, d) {
      assert !Shows(x, DomainNamed(d));
      UnmentionedIsSilent(x, d);
    }
    SilentSummary(h, d);
  }

  lemma SummaryStep(h: seq<Event>, e: Event)
    ensures Summarize(h + [e]) == Applied(Summarize(h), e)
  {
    RulesetsStep(h, e);
    DomainsStep(h, e);
  }

  lemma RulesetIdsExtend(h: seq<Event>, e: Event)
    ensures RulesetIds(h + [e]) == RulesetIds(h) + OptionSet(MentionedRuleset(e))
  {
    IdsAreObserved(h);
    IdsAreObserved(h + [e]);
    forall r ensures r in RulesetIds(h + [e]) <==> r in RulesetIds(h) + OptionSet(MentionedRuleset(e)) {
      ObservedExtends(h, e, RulesetNamed(r));
    }
  }

  lemma DomainIdsExtend(h: seq<Event>, e: Event)
    ensures DomainIds(h + [e]) == DomainIds(h) + Affected(e)
  {
    AffectedIsMentioned(e);
    IdsAreObserved(h);
    IdsAreObserved(h + [e]);
    forall d ensures d in DomainIds(h + [e]) <==> d in DomainIds(h) + Affected(e) {
      ObservedExtends(h, e, DomainNamed(d));
    }
  }

  lemma FreshRuleset(e: Event)
    requires e.NamesRuleset()
    ensures UpdateRuleset(NewRuleset(e.rulesetId, InitialLifecycle(e), e.version), e) ==
            UpdateRuleset(NewRuleset(e.rulesetId, Allocated, 0), e)
  {
  }

  lemma RulesetsStep(h: seq<Event>, e: Event)
    ensures Summarize(h + [e]).rulesets == AppliedToRulesets(Summarize(h).rulesets, e)
  {
    var s, s' := Summarize(h).rulesets, Summarize(h + [e]).rulesets;
    RulesetIdsExtend(h, e);
    AffectedIsMentioned(e);
    forall r | r in s' ensures s'[r] == AppliedToRulesets(s, e)[r] {
      RulesetEntryStep(h, e, r);
    }
  }

  lemma RulesetEntryStep(h: seq<Event>, e: Event, r: RulesetId)
    requires r in RulesetIds(h) || Shows(e, RulesetNamed(r))
    ensures r in AppliedToRulesets(Summarize(h).rulesets, e)
    ensures RulesetSummary(h + [e], r) == AppliedToRulesets(Summarize(h).rulesets, e)[r]
  {
    RulesetStep(h, e, r);
    if r !in RulesetIds(h) {
      IdsAreObserved(h);
      RulesetUnseen(h, r);
      FreshRuleset(e);
    }
  }

  lemma DomainKeysStep(h: seq<Event>, e: Event)
    ensures Summarize(h + [e]).domains.Keys == AppliedToDomains(Summarize(h).domains, e).Keys
  {
    DomainIdsExtend(h, e);
  }

  lemma DomainAt(h: seq<Event>, e: Event, d: DomainId)
    requires d in Summarize(h + [e]).domains
    ensures d in AppliedToDomains(Summarize(h).domains, e)
    ensures Summarize(h + [e]).domains[d] == AppliedToDomains(Summarize(h).domains, e)[d]
  {
    DomainIdsExtend(h, e);
    DomainEntryStep(h, e, d);
  }

  lemma SameMaps<K, V>(a: map<K, V>, b: map<K, V>)
    requires a.Keys == b.Keys && forall k :: k in a ==> a[k] == b[k]
    ensures a == b
  {
  }

  lemma DomainsStep(h: seq<Event>, e: Event)
    ensures Summarize(h + [e]).domains == AppliedToDomains(Summarize(h).domains, e)
  {
    DomainKeysStep(h, e);
    forall d | d in Summarize(h + [e]).domains
      ensures Summarize(h + [e]).domains[d] == AppliedToDomains(Summarize(h).domains, e)[d]
    {
      DomainAt(h, e, d);
    }
    SameMaps(Summarize(h + [e]).domains, AppliedToDomains(Summarize(h).domains, e));
  }

  lemma DomainEntryStep(h: seq<Event>, e: Event, d: DomainId)
    requires d in DomainIds(h) + Affected(e)
    ensures DomainSummary(h + [e], d) == AppliedToDomains(Summarize(h).domains, e)[d]
  {
    DomainStep(h, e, d);
    if d !in DomainIds(h) {
      IdsAreObserved(h);
      DomainUnseen(h, d);
      if d == Subject(e) { FreshDomain(e); }
    }
  }

  lemma FreshDomain(e: Event)
    requires HasSubject(e)
    ensures UpdateDomain(NewDomain(Subject(e), InitialLifecycle(e)), e) ==
            UpdateDomain(NewDomain(Subject(e), Allocated), e)
  {
  }

  /** Replay equals the summary. */
  lemma {:induction false} RunIsSummary(h: seq<Event>)
    ensures Run(h) == Summarize(h)
  {
    if h == [] {
      assert RulesetIds(h) == {} && DomainIds(h) == {};
    } else {
      var n := |h| - 1;
      RunIsSummary(h[..n]);
      SummaryStep(h[..n], h[n]);
      assert h == h[..n] + [h[n]];
    }
  }

  /** The observation names the domain: as created, freed, enforced or denied, as the parent of a
      created or denied one, or as the other party of a denial. */
  predicate Names(e: Event, d: DomainId) {
    || ((e.CreateDomain? || e.FreeDomain? || e.EnforceDomain?) && e.domainId == d)
    || (e.CreateDomain? && e.parentId == Some(d))
    || (e.IsDenial() && e.context.hierarchy.domainId == d)
    || (e.IsDenial() && e.context.hierarchy.parentId == Some(d))
    || ((e.DenyPtrace? || e.DenyScopeSignal? || e.DenyScopeAbstractUnixSocket?) && e.other == Sandboxed(d))
  }

  lemma MentionedAreNamed(e: Event, d: DomainId)
    ensures d in Mentioned(e) <==> Names(e, d)
  {
  }

  /** A domain is known exactly when some observation names it. */
  lemma KnownDomains(h: seq<Event>, d: DomainId)
    ensures d in Run(h).domains <==> exists e :: e in h && Names(e, d)
  {
    RunIsSummary(h);
    forall e | e in h ensures d in Mentioned(e) <==> Names(e, d) { MentionedAreNamed(e, d); }
  }

  /** A ruleset is known exactly when some observation creates, extends, freezes or frees it. */
  lemma KnownRulesets(h: seq<Event>, r: RulesetId)
    ensures r in Run(h).rulesets <==>
            exists e :: e in h &&
              (e.CreateRuleset? || e.AddRulePathBeneath? || e.AddRuleNetPort? || e.CreateDomain? || e.FreeRuleset?) &&
              e.rulesetId == r
  {
    RunIsSummary(h);
  }
}
