/** The mutable reconstructed state, updated in place one observation at a time. */
module StateStore {
  import opened Events
  import opened State
  import opened Summary
  import opened History
  import opened StateInvariants
  import Bits

  function Current(domains: map<DomainId, DomainState>, id: DomainId): DomainState {
    if id in domains then domains[id] else NewDomain(id, Allocated)
  }

  function WithPlaceholder(domains: map<DomainId, DomainState>, id: Option<DomainId>): map<DomainId, DomainState> {
    if id.None? || id.value in domains then domains else domains[id.value := NewDomain(id.value, Allocated)]
  }

  /** What a denial leaves: the subject updated, the other named domains known. */
  function AfterDenial(domains: map<DomainId, DomainState>, e: Event): map<DomainId, DomainState>
    requires e.IsDenial()
  {
    var h := e.context.hierarchy;
    var other := if MembershipOf(e).Sandboxed? then Some(MembershipOf(e).id) else None;
    var updated := domains[h.domainId := UpdateDomain(Current(domains, h.domainId), e)];
    WithPlaceholder(WithPlaceholder(updated, h.parentId), other)
  }

  lemma DenialKeys(domains: map<DomainId, DomainState>, e: Event)
    requires e.IsDenial()
    ensures AfterDenial(domains, e).Keys == AppliedToDomains(domains, e).Keys
  {
  }

  lemma DenialAt(domains: map<DomainId, DomainState>, e: Event, d: DomainId)
    requires e.IsDenial() && d in AfterDenial(domains, e) && d in AppliedToDomains(domains, e)
    ensures AfterDenial(domains, e)[d] == AppliedToDomains(domains, e)[d]
  {
    var h := e.context.hierarchy;
    if d == h.domainId {
      assert AppliedToDomains(domains, e)[d] == UpdateDomain(Current(domains, d), e);
    } else {
      assert AppliedToDomains(domains, e)[d] == Current(domains, d);
    }
  }

  lemma DenialDomains(domains: map<DomainId, DomainState>, e: Event)
    requires e.IsDenial()
    ensures AfterDenial(domains, e) == AppliedToDomains(domains, e)
  {
    DenialKeys(domains, e);
    forall d | d in AfterDenial(domains, e) ensures AfterDenial(domains, e)[d] == AppliedToDomains(domains, e)[d] {
      DenialAt(domains, e, d);
    }
    SameMaps(AfterDenial(domains, e), AppliedToDomains(domains, e));
  }

  lemma CreationDomains(domains: map<DomainId, DomainState>, e: Event)
    requires e.CreateDomain?
    ensures var known := WithPlaceholder(domains, e.parentId);
            known[e.domainId := UpdateDomain(Current(known, e.domainId), e)] == AppliedToDomains(domains, e)
  {
  }

  class Store {
    var rulesets: map<RulesetId, RulesetState>
    var domains: map<DomainId, DomainState>
    ghost var history: seq<Event>

    ghost function View(): State
      reads this
    {
      State(rulesets, domains)
    }

    /** The records are what the observations so far leave. */
    ghost predicate Valid()
      reads this
    {
      View() == Run(history)
    }

    /** Which is exactly what those observations mean. */
    lemma Meaning()
      requires Valid()
      ensures View() == Summarize(history) && Consistent(View())
    {
      RunIsSummary(history);
      RunConsistent(history);
    }

    constructor ()
      ensures Valid() && history == [] && View() == Empty
    {
      rulesets, domains, history := map[], map[], [];
    }

    method Apply(event: Event)
      requires Valid()
      modifies this
      ensures Valid()
      ensures history == old(history) + [event]
      ensures View() == Applied(old(View()), event)
      ensures domains.Keys == old(domains).Keys + Mentioned(event)
    {
      AffectedIsMentioned(event);
      RunExtends(history, event);
      Update(event);
      history := history + [event];
    }

    method Update(event: Event)
      modifies this`rulesets, this`domains
      ensures View() == Applied(old(View()), event)
    {
      match event {
        case CreateRuleset(_, _, _, _, _, _) => CreateRuleset(event);
        case AddRulePathBeneath(_, _, _, _, _, _, _) => AddRulePathBeneath(event);
        case AddRuleNetPort(_, _, _, _, _) => AddRuleNetPort(event);
        case CreateDomain(_, _, _, _, _, _, _) => CreateDomain(event);
        case DenyAccessFs(_, context, _, _, _, _, _) => ApplyDenial(event, context, None);
        case DenyAccessNet(_, context, _, _, _, _) => ApplyDenial(event, context, None);
        case DenyPtrace(_, context, tracee, _, _) => ApplyDenial(event, context, Some(tracee));
        case DenyScopeSignal(_, context, target, _, _) => ApplyDenial(event, context, Some(target));
        case DenyScopeAbstractUnixSocket(_, context, peer, _, _) => ApplyDenial(event, context, Some(peer));
        case FreeDomain(_, _, _) => FreeDomain(event);
        case FreeRuleset(_, _, _) => FreeRuleset(event);
        case EnforceDomain(_, _, _, _, _, _) => EnforceDomain(event);
      }
    }

    /** `entry().or_insert_with()`, then the facts every mention carries. */
    method TouchRuleset(id: RulesetId, lifecycle: Lifecycle, version: nat) returns (state: RulesetState)
      ensures state ==
              (var current := if id in rulesets then rulesets[id] else NewRuleset(id, lifecycle, version);
               current.(maxObservedVersion := Max(current.maxObservedVersion, version)))
    {
      state := if id in rulesets then rulesets[id] else NewRuleset(id, lifecycle, version);
      if state.lifecycle != Deallocated {
        state := state.(lifecycle := Allocated);
      }
      state := state.(maxObservedVersion := Max(state.maxObservedVersion, version));
    }

    method CreateRuleset(e: Event)
      requires e.CreateRuleset?
      modifies this`rulesets
      ensures View() == Applied(old(View()), e)
    {
      var state := TouchRuleset(e.rulesetId, Allocated, e.version);
      if state.creationTimestamp.None? || e.timestamp >= state.creationTimestamp.value {
        state := state.(creationTimestamp := Some(e.timestamp));
        state := state.(handledFs := Some(e.handledFs));
        state := state.(handledNet := Some(e.handledNet));
        state := state.(scoped := Some(e.scoped));
      }
      rulesets := rulesets[e.rulesetId := state];
      assert AppliedToDomains(domains, e) == domains;
    }

    method AddRulePathBeneath(e: Event)
      requires e.AddRulePathBeneath?
      modifies this`rulesets
      ensures View() == Applied(old(View()), e)
    {
      var state := TouchRuleset(e.rulesetId, Allocated, e.version);
      var key := (e.device, e.inode);
      if key in state.filesystemRules {
        var rule := state.filesystemRules[key];
        rule := rule.(access := Bits.Or(rule.access, e.access));
        if e.timestamp >= rule.pathnameTimestamp {
          rule := rule.(pathname := e.pathname);
          rule := rule.(pathnameTimestamp := e.timestamp);
        }
        state := state.(filesystemRules := state.filesystemRules[key := rule]);
      } else {
        var rule := FilesystemRule(e.device, e.inode, e.access, e.pathname, e.timestamp);
        state := state.(filesystemRules := state.filesystemRules[key := rule]);
      }
      rulesets := rulesets[e.rulesetId := state];
      assert AppliedToDomains(domains, e) == domains;
    }

    method AddRuleNetPort(e: Event)
      requires e.AddRuleNetPort?
      modifies this`rulesets
      ensures View() == Applied(old(View()), e)
    {
      var state := TouchRuleset(e.rulesetId, Allocated, e.version);
      var rule := NetworkRule(e.port, e.access);
      if e.port in state.networkRules {
        rule := state.networkRules[e.port];
        rule := rule.(access := Bits.Or(rule.access, e.access));
      }
      state := state.(networkRules := state.networkRules[e.port := rule]);
      rulesets := rulesets[e.rulesetId := state];
      assert AppliedToDomains(domains, e) == domains;
    }

    /** A domain known only from a relationship. */
    method Materialize(id: DomainId)
      modifies this`domains
      ensures domains == WithPlaceholder(old(domains), Some(id))
    {
      if id !in domains {
        domains := domains[id := NewDomain(id, Allocated)];
      }
    }

    method TouchDomain(id: DomainId) returns (state: DomainState)
      ensures state == Current(domains, id)
    {
      state := if id in domains then domains[id] else NewDomain(id, Allocated);
      if state.lifecycle != Deallocated {
        state := state.(lifecycle := Allocated);
      }
    }

    /** The latest creation event supplies every creation field at once. */
    static method RecordCreation(before: DomainState, e: Event) returns (state: DomainState)
      requires e.CreateDomain?
      ensures state == UpdateDomain(before, e)
    {
      state := before.(cumulativeDenialCount := UpdateMax(before.cumulativeDenialCount, 0));
      if state.creationTimestamp.None? || e.timestamp >= state.creationTimestamp.value {
        state := state.(creationTimestamp := Some(e.timestamp));
        state := state.(parent := Some(if e.parentId.Some? then Domain(e.parentId.value) else Root));
        state := state.(creatorTgid := Some(e.creatorTgid));
        state := state.(creatorComm := Some(e.creatorComm));
        state := state.(ruleset := Some(RulesetVersion(e.rulesetId, e.version)));
      }
    }

    method CreateDomain(e: Event)
      requires e.CreateDomain?
      modifies this`rulesets, this`domains
      ensures View() == Applied(old(View()), e)
    {
      var ruleset := TouchRuleset(e.rulesetId, Allocated, e.version);
      rulesets := rulesets[e.rulesetId := ruleset];
      if e.parentId.Some? {
        Materialize(e.parentId.value);
      }
      var state := TouchDomain(e.domainId);
      state := RecordCreation(state, e);
      domains := domains[e.domainId := state];
      CreationDomains(old(domains), e);
    }

    /** A first denial supplies the parent and the creator; every denial raises the count. */
    static method RecordDenial(before: DomainState, context: DenialContext, ghost e: Event) returns (state: DomainState)
      requires e.IsDenial() && e.context == context
      ensures state == UpdateDomain(before, e)
    {
      var hierarchy := context.hierarchy;
      state := before;
      if state.parent.None? {
        state := state.(parent := Some(if hierarchy.parentId.Some? then Domain(hierarchy.parentId.value) else Root));
      }
      if state.creatorTgid.None? && state.creatorComm.None? {
        state := state.(creatorTgid := Some(hierarchy.creatorTgid));
        state := state.(creatorComm := Some(hierarchy.creatorComm));
      }
      state := state.(cumulativeDenialCount := UpdateMax(state.cumulativeDenialCount, context.cumulativeDenialCount));
    }

    method ApplyDenial(ghost e: Event, context: DenialContext, membership: Option<Membership>)
      requires e.IsDenial() && e.context == context
      requires membership == (if e.DenyAccessFs? || e.DenyAccessNet? then None else Some(e.other))
      modifies this`domains
      ensures View() == Applied(old(View()), e)
      ensures domains.Keys == old(domains).Keys + HierarchyIds(context.hierarchy) +
              if membership.Some? then PartyIds(membership.value) else {}
    {
      DenialDomains(domains, e);
      var hierarchy := context.hierarchy;
      var state := TouchDomain(hierarchy.domainId);
      state := RecordDenial(state, context, e);
      domains := domains[hierarchy.domainId := state];
      if hierarchy.parentId.Some? {
        Materialize(hierarchy.parentId.value);
      }
      if membership.Some? && membership.value.Sandboxed? {
        Materialize(membership.value.id);
      }
      assert domains == AfterDenial(old(domains), e);
      AffectedIsMentioned(e);
    }

    method FreeDomain(e: Event)
      requires e.FreeDomain?
      modifies this`domains
      ensures View() == Applied(old(View()), e)
    {
      var state := if e.domainId in domains then domains[e.domainId] else NewDomain(e.domainId, Deallocated);
      state := state.(lifecycle := Deallocated);
      state := state.(freeTimestamp := UpdateMax(state.freeTimestamp, e.timestamp));
      state := state.(finalDenialCount := UpdateMax(state.finalDenialCount, e.denialCount));
      state := state.(cumulativeDenialCount := UpdateMax(state.cumulativeDenialCount, e.denialCount));
      domains := domains[e.domainId := state];
      assert domains == AppliedToDomains(old(domains), e);
    }

    method FreeRuleset(e: Event)
      requires e.FreeRuleset?
      modifies this`rulesets
      ensures View() == Applied(old(View()), e)
    {
      var state := if e.rulesetId in rulesets then rulesets[e.rulesetId]
                   else NewRuleset(e.rulesetId, Deallocated, e.version);
      state := state.(lifecycle := Deallocated);
      state := state.(freeTimestamp := UpdateMax(state.freeTimestamp, e.timestamp));
      state := state.(finalVersion := UpdateMax(state.finalVersion, e.version));
      state := state.(maxObservedVersion := Max(state.maxObservedVersion, e.version));
      rulesets := rulesets[e.rulesetId := state];
      assert AppliedToDomains(domains, e) == domains;
    }

    method EnforceDomain(e: Event)
      requires e.EnforceDomain?
      modifies this`domains
      ensures View() == Applied(old(View()), e)
    {
      var state := TouchDomain(e.domainId);
      state := state.(anyProcessWideEnforcement := state.anyProcessWideEnforcement || e.processWide);
      if e.enforcingTid in state.enforcementEvents {
        if e.timestamp >= state.enforcementEvents[e.enforcingTid].timestamp {
          state := state.(enforcementEvents := state.enforcementEvents[e.enforcingTid := e]);
        }
      } else {
        state := state.(enforcementEvents := state.enforcementEvents[e.enforcingTid := e]);
      }
      domains := domains[e.domainId := state];
      assert domains == AppliedToDomains(old(domains), e);
    }
  }
}
