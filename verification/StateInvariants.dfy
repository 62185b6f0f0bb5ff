/** What every observation keeps: the relations between reconstructed records,
    and the facts that later observations can never weaken. */
module StateInvariants {
  import opened Events
  import opened State
  import opened Summary
  import opened History
  import Bits

  predicate RulesetConsistent(r: RulesetId, s: RulesetState) {
    && s.id == r
    && (s.lifecycle == Deallocated <==> s.freeTimestamp.Some?)
    && (s.lifecycle == Deallocated <==> s.finalVersion.Some?)
    && (s.finalVersion.Some? ==> s.finalVersion.value <= s.maxObservedVersion)
    && s.creationTimestamp.Some? == s.handledFs.Some? == s.handledNet.Some? == s.scoped.Some?
    && (forall key :: key in s.filesystemRules ==>
          s.filesystemRules[key].device == key.0 && s.filesystemRules[key].inode == key.1)
    && (forall port :: port in s.networkRules ==> s.networkRules[port].port == port)
  }

  predicate DomainConsistent(d: DomainId, s: DomainState) {
    && s.id == d
    && (s.lifecycle == Deallocated <==> s.freeTimestamp.Some?)
    && (s.lifecycle == Deallocated <==> s.finalDenialCount.Some?)
    && (s.finalDenialCount.Some? ==>
          s.cumulativeDenialCount.Some? && s.finalDenialCount.value <= s.cumulativeDenialCount.value)
    && s.parent.Some? == s.creatorTgid.Some? == s.creatorComm.Some?
    && s.creationTimestamp.Some? == s.ruleset.Some?
    && (s.creationTimestamp.Some? ==> s.parent.Some? && s.cumulativeDenialCount.Some?)
    && (forall tid :: tid in s.enforcementEvents ==>
          s.enforcementEvents[tid].domainId == d && s.enforcementEvents[tid].enforcingTid == tid)
    && (forall tid :: tid in s.enforcementEvents && s.enforcementEvents[tid].processWide ==>
        s.anyProcessWideEnforcement)
  }

  /** A known parent is a known domain; a frozen ruleset is a known ruleset
      that has reached the frozen version. */
  predicate References(s: State, d: DomainState) {
    && (d.parent.Some? && d.parent.value.Domain? ==> d.parent.value.id in s.domains)
    && (d.ruleset.Some? ==>
          && d.ruleset.value.rulesetId in s.rulesets
          && d.ruleset.value.version <= s.rulesets[d.ruleset.value.rulesetId].maxObservedVersion)
  }

  predicate Consistent(s: State) {
    && (forall r :: r in s.rulesets ==> RulesetConsistent(r, s.rulesets[r]))
    && (forall d :: d in s.domains ==> DomainConsistent(d, s.domains[d]))
    && (forall d :: d in s.domains ==> References(s, s.domains[d]))
  }

  lemma UpdateKeepsRuleset(s: RulesetState, e: Event)
    requires e.NamesRuleset() && RulesetConsistent(e.rulesetId, s)
    ensures RulesetConsistent(e.rulesetId, UpdateRuleset(s, e))
    ensures UpdateRuleset(s, e).maxObservedVersion >= s.maxObservedVersion
    ensures UpdateRuleset(s, e).maxObservedVersion >= e.version
  {
  }

  lemma UpdateKeepsDomain(s: DomainState, e: Event)
    requires HasSubject(e) && DomainConsistent(Subject(e), s)
    ensures DomainConsistent(Subject(e), UpdateDomain(s, e))
  {
  }

  /** A free event creates a record with its terminal lifecycle already set;
      the update then supplies the facts that justify it. */
  lemma RulesetsKept(s: State, e: Event, r: RulesetId)
    requires Consistent(s)
    requires r in AppliedToRulesets(s.rulesets, e)
    ensures RulesetConsistent(r, AppliedToRulesets(s.rulesets, e)[r])
    ensures r in s.rulesets ==>
            AppliedToRulesets(s.rulesets, e)[r].maxObservedVersion >= s.rulesets[r].maxObservedVersion
    ensures e.NamesRuleset() && r == e.rulesetId ==> AppliedToRulesets(s.rulesets, e)[r].maxObservedVersion >= e.version
  {
    if e.NamesRuleset() && r == e.rulesetId {
      if r in s.rulesets {
        UpdateKeepsRuleset(s.rulesets[r], e);
      } else {
        FreshRuleset(e);
        UpdateKeepsRuleset(NewRuleset(r, Allocated, 0), e);
      }
    }
  }

  lemma DomainsKept(s: State, e: Event, d: DomainId)
    requires Consistent(s)
    requires d in AppliedToDomains(s.domains, e)
    ensures DomainConsistent(d, AppliedToDomains(s.domains, e)[d])
  {
    if d in Affected(e) && d == Subject(e) {
      if d in s.domains {
        UpdateKeepsDomain(s.domains[d], e);
      } else {
        FreshDomain(e);
        UpdateKeepsDomain(NewDomain(d, Allocated), e);
      }
    }
  }

  lemma ParentKept(s: State, e: Event, d: DomainId)
    requires Consistent(s)
    requires d in AppliedToDomains(s.domains, e)
    ensures var parent := AppliedToDomains(s.domains, e)[d].parent;
            parent.Some? && parent.value.Domain? ==> parent.value.id in AppliedToDomains(s.domains, e)
  {
    if d in s.domains { assert References(s, s.domains[d]); }
    var parent := AppliedToDomains(s.domains, e)[d].parent;
    if d in s.domains && parent == s.domains[d].parent {
    } else if parent.Some? && parent.value.Domain? {
      assert parent.value.id in Related(e);
    }
  }

  lemma FrozenRulesetSource(domains: map<DomainId, DomainState>, e: Event, d: DomainId)
    requires d in AppliedToDomains(domains, e)
    ensures var frozen := AppliedToDomains(domains, e)[d].ruleset;
            || frozen.None?
            || (d in domains && frozen == domains[d].ruleset)
            || (e.CreateDomain? && frozen.value == RulesetVersion(e.rulesetId, e.version))
  {
  }

  lemma FrozenRulesetKept(s: State, e: Event, d: DomainId)
    requires Consistent(s)
    requires d in AppliedToDomains(s.domains, e)
    ensures var frozen := AppliedToDomains(s.domains, e)[d].ruleset;
            frozen.Some? ==>
              && frozen.value.rulesetId in AppliedToRulesets(s.rulesets, e)
              && frozen.value.version <= AppliedToRulesets(s.rulesets, e)[frozen.value.rulesetId].maxObservedVersion
  {
    var frozen := AppliedToDomains(s.domains, e)[d].ruleset;
    FrozenRulesetSource(s.domains, e, d);
    if frozen.Some? {
      if d in s.domains && frozen == s.domains[d].ruleset {
        assert References(s, s.domains[d]);
      }
      RulesetsKept(s, e, frozen.value.rulesetId);
    }
  }

  lemma ConsistentKept(s: State, e: Event)
    requires Consistent(s)
    ensures Consistent(Applied(s, e))
  {
    var s' := Applied(s, e);
    forall r | r in s'.rulesets ensures RulesetConsistent(r, s'.rulesets[r]) { RulesetsKept(s, e, r); }
    forall d | d in s'.domains ensures DomainConsistent(d, s'.domains[d]) { DomainsKept(s, e, d); }
    forall d | d in s'.domains ensures References(s', s'.domains[d]) {
      ParentKept(s, e, d);
      FrozenRulesetKept(s, e, d);
    }
  }

  lemma {:induction false} RunConsistent(h: seq<Event>)
    ensures Consistent(Run(h))
  {
    if h != [] {
      RunConsistent(h[..|h| - 1]);
      ConsistentKept(Run(h[..|h| - 1]), h[|h| - 1]);
    }
  }

  // ----- monotone facts -----

  predicate AtLeast(a: Option<nat>, b: Option<nat>) {
    b.Some? ==> a.Some? && a.value >= b.value
  }

  ghost predicate Submask(a: AccessMask, b: AccessMask) {
    forall i: nat :: Bits.Bit(a, i) ==> Bits.Bit(b, i)
  }

  ghost predicate RulesetGrows(a: RulesetState, b: RulesetState) {
    && (a.lifecycle == Deallocated ==> b.lifecycle == Deallocated)
    && AtLeast(b.creationTimestamp, a.creationTimestamp)
    && b.maxObservedVersion >= a.maxObservedVersion
    && AtLeast(b.finalVersion, a.finalVersion)
    && AtLeast(b.freeTimestamp, a.freeTimestamp)
    && (forall key :: key in a.filesystemRules ==>
          && key in b.filesystemRules
          && Submask(a.filesystemRules[key].access, b.filesystemRules[key].access)
          && b.filesystemRules[key].pathnameTimestamp >= a.filesystemRules[key].pathnameTimestamp)
    && (forall port :: port in a.networkRules ==>
          port in b.networkRules && Submask(a.networkRules[port].access, b.networkRules[port].access))
  }

  ghost predicate DomainGrows(a: DomainState, b: DomainState) {
    && (a.lifecycle == Deallocated ==> b.lifecycle == Deallocated)
    && AtLeast(b.creationTimestamp, a.creationTimestamp)
    && (a.parent.Some? ==> b.parent.Some?)
    && AtLeast(b.cumulativeDenialCount, a.cumulativeDenialCount)
    && AtLeast(b.finalDenialCount, a.finalDenialCount)
    && AtLeast(b.freeTimestamp, a.freeTimestamp)
    && (forall tid :: tid in a.enforcementEvents ==>
          && tid in b.enforcementEvents
          && b.enforcementEvents[tid].timestamp >= a.enforcementEvents[tid].timestamp)
    && (a.anyProcessWideEnforcement ==> b.anyProcessWideEnforcement)
  }

  /** No later observation weakens a learned fact or forgets an object. */
  ghost predicate Grows(a: State, b: State) {
    && (forall r :: r in a.rulesets ==> r in b.rulesets && RulesetGrows(a.rulesets[r], b.rulesets[r]))
    && (forall d :: d in a.domains ==> d in b.domains && DomainGrows(a.domains[d], b.domains[d]))
  }

  lemma OrGrows(a: AccessMask, b: AccessMask)
    ensures Submask(a, Bits.Or(a, b))
  {
    forall i: nat | Bits.Bit(a, i) ensures Bits.Bit(Bits.Or(a, b), i) { Bits.BitOr(a, b, i); }
  }

  lemma UpdateRulesetGrows(s: RulesetState, e: Event)
    requires e.NamesRuleset()
    ensures RulesetGrows(s, UpdateRuleset(s, e))
  {
    if e.AddRulePathBeneath? && (e.device, e.inode) in s.filesystemRules {
      OrGrows(s.filesystemRules[(e.device, e.inode)].access, e.access);
    }
    if e.AddRuleNetPort? && e.port in s.networkRules {
      OrGrows(s.networkRules[e.port].access, e.access);
    }
  }

  lemma DenialGrows(s: DomainState, e: Event)
    requires e.IsDenial()
    ensures DomainGrows(s, UpdateDomain(s, e))
  {
  }

  lemma UpdateDomainGrows(s: DomainState, e: Event)
    requires HasSubject(e)
    ensures DomainGrows(s, UpdateDomain(s, e))
  {
    if e.IsDenial() { DenialGrows(s, e); }
  }

  lemma StepGrows(s: State, e: Event)
    ensures Grows(s, Applied(s, e))
  {
    var s' := Applied(s, e);
    forall r | r in s.rulesets ensures r in s'.rulesets && RulesetGrows(s.rulesets[r], s'.rulesets[r]) {
      if e.NamesRuleset() && r == e.rulesetId { UpdateRulesetGrows(s.rulesets[r], e); }
    }
    forall d | d in s.domains ensures d in s'.domains && DomainGrows(s.domains[d], s'.domains[d]) {
      if d in Affected(e) && d == Subject(e) { UpdateDomainGrows(s.domains[d], e); }
    }
  }

  lemma RulesetGrowsTransitive(a: RulesetState, b: RulesetState, c: RulesetState)
    requires RulesetGrows(a, b) && RulesetGrows(b, c)
    ensures RulesetGrows(a, c)
  {
  }

  lemma DomainGrowsTransitive(a: DomainState, b: DomainState, c: DomainState)
    requires DomainGrows(a, b) && DomainGrows(b, c)
    ensures DomainGrows(a, c)
  {
  }

  lemma GrowsTransitive(a: State, b: State, c: State)
    requires Grows(a, b) && Grows(b, c)
    ensures Grows(a, c)
  {
    forall r | r in a.rulesets ensures r in c.rulesets && RulesetGrows(a.rulesets[r], c.rulesets[r]) {
      RulesetGrowsTransitive(a.rulesets[r], b.rulesets[r], c.rulesets[r]);
    }
    forall d | d in a.domains ensures d in c.domains && DomainGrows(a.domains[d], c.domains[d]) {
      DomainGrowsTransitive(a.domains[d], b.domains[d], c.domains[d]);
    }
  }

  /** Over any continuation of any run, facts only grow stronger. */
  lemma {:induction false} RunGrows(h: seq<Event>, more: seq<Event>)
    ensures Grows(Run(h), Run(h + more))
  {
    if more == [] {
      assert h + more == h;
    } else {
      var n := |more| - 1;
      RunGrows(h, more[..n]);
      StepGrows(Run(h + more[..n]), more[n]);
      assert h + more == (h + more[..n]) + [more[n]];
      RunExtends(h + more[..n], more[n]);
      GrowsTransitive(Run(h), Run(h + more[..n]), Run(h + more));
    }
  }

  // ----- selected enforcements -----

  /** Each thread's retained event is its last applied one of greatest timestamp. */
  lemma SelectedEnforcement(h: seq<Event>, d: DomainId, tid: ThreadId) returns (i: nat)
    requires d in Run(h).domains
    ensures tid in Run(h).domains[d].enforcementEvents <==>
            exists e :: e in h && Competes(e, ThreadEnforcement(d, tid))
    ensures tid in Run(h).domains[d].enforcementEvents ==>
            WinsAt(h, ThreadEnforcement(d, tid), i) && h[i] == Run(h).domains[d].enforcementEvents[tid]
  {
    RunIsSummary(h);
    assert Run(h).domains[d].enforcementEvents == Enforcements(h, d);
    i := WinnerWins(h, ThreadEnforcement(d, tid));
  }

  /** `no_new_privs` is unknown exactly when no enforcement of the domain was
      observed; otherwise it is the conjunction over the events that are, for
      their thread, the last applied of greatest timestamp. */
  lemma EnforcementsExist(h: seq<Event>, d: DomainId)
    requires d in Run(h).domains
    ensures Run(h).domains[d].enforcementEvents == map[] <==>
            forall e :: e in h ==> !(e.EnforceDomain? && e.domainId == d)
  {
    var selected := Run(h).domains[d].enforcementEvents;
    forall e | e in h && e.EnforceDomain? && e.domainId == d ensures selected != map[] {
      assert Competes(e, ThreadEnforcement(d, e.enforcingTid));
      var _ := SelectedEnforcement(h, d, e.enforcingTid);
    }
    if selected != map[] {
      var tid :| tid in selected;
      var j := SelectedEnforcement(h, d, tid);
      assert h[j] in h;
    }
  }

  lemma SelectedWin(h: seq<Event>, d: DomainId, tid: ThreadId, i: nat)
    requires d in Run(h).domains && WinsAt(h, ThreadEnforcement(d, tid), i)
    ensures var selected := Run(h).domains[d].enforcementEvents; tid in selected && selected[tid] == h[i]
  {
    assert h[i] in h;
    var j := SelectedEnforcement(h, d, tid);
    assert i == j;
  }

  lemma NoNewPrivsMeaning(h: seq<Event>, d: DomainId)
    requires d in Run(h).domains
    ensures NoNewPrivs(Run(h).domains[d]).None? <==> forall e :: e in h ==> !(e.EnforceDomain? && e.domainId == d)
    ensures NoNewPrivs(Run(h).domains[d]).Some? ==>
              (NoNewPrivs(Run(h).domains[d]).value <==>
               forall i: nat, tid :: WinsAt(h, ThreadEnforcement(d, tid), i) ==> h[i].noNewPrivs)
  {
    var selected := Run(h).domains[d].enforcementEvents;
    EnforcementsExist(h, d);
    forall i: nat, tid | WinsAt(h, ThreadEnforcement(d, tid), i) ensures tid in selected && selected[tid] == h[i] {
      SelectedWin(h, d, tid, i);
    }
    forall tid | tid in selected
      ensures exists i: nat :: WinsAt(h, ThreadEnforcement(d, tid), i) && h[i] == selected[tid]
    {
      var j := SelectedEnforcement(h, d, tid);
    }
  }
}
