/** Reconstructed state (src/state.rs): the records, and one observation as a
    function of the state it is applied to. */
module State {
  import opened Events
  import Bits

  datatype Lifecycle = Allocated | Deallocated

  datatype DomainParent = Root | Domain(id: DomainId)

  datatype RulesetVersion = RulesetVersion(rulesetId: RulesetId, version: nat)

  datatype FilesystemRule = FilesystemRule(
    device: nat, inode: nat, access: AccessMask, pathname: CapturedBytes, pathnameTimestamp: Timestamp)

  datatype NetworkRule = NetworkRule(port: nat, access: AccessMask)

  datatype RulesetState = RulesetState(
    id: RulesetId,
    lifecycle: Lifecycle,
    creationTimestamp: Option<Timestamp>,
    handledFs: Option<AccessMask>,
    handledNet: Option<AccessMask>,
    scoped: Option<AccessMask>,
    maxObservedVersion: nat,
    finalVersion: Option<nat>,
    freeTimestamp: Option<Timestamp>,
    filesystemRules: map<(nat, nat), FilesystemRule>,
    networkRules: map<nat, NetworkRule>)

  type Enforcement = e: Event | e.EnforceDomain? witness EnforceDomain(0, 0, 0, false, false, false)

  datatype DomainState = DomainState(
    id: DomainId,
    lifecycle: Lifecycle,
    creationTimestamp: Option<Timestamp>,
    parent: Option<DomainParent>,
    creatorTgid: Option<ProcessId>,
    creatorComm: Option<CapturedBytes>,
    ruleset: Option<RulesetVersion>,
    cumulativeDenialCount: Option<nat>,
    finalDenialCount: Option<nat>,
    freeTimestamp: Option<Timestamp>,
    enforcementEvents: map<ThreadId, Enforcement>,
    anyProcessWideEnforcement: bool)

  datatype State = State(rulesets: map<RulesetId, RulesetState>, domains: map<DomainId, DomainState>)

  const Empty := State(map[], map[])

  function NewRuleset(id: RulesetId, lifecycle: Lifecycle, version: nat): RulesetState {
    RulesetState(id, lifecycle, None, None, None, None, version, None, None, map[], map[])
  }

  function NewDomain(id: DomainId, lifecycle: Lifecycle): DomainState {
    DomainState(id, lifecycle, None, None, None, None, None, None, None, None, map[], false)
  }

  function Max(a: nat, b: nat): nat {
    if a >= b then a else b
  }

  /** `update_max`, and `update_latest_timestamp`, which is the same rule on timestamps. */
  function UpdateMax(current: Option<nat>, candidate: nat): Option<nat> {
    if current.None? || candidate >= current.value then Some(candidate) else current
  }

  /** Whether a timestamped fact displaces the retained one. */
  predicate Replaces(timestamp: Timestamp, current: Option<Timestamp>) {
    current.None? || timestamp >= current.value
  }

  function WithPathRule(rules: map<(nat, nat), FilesystemRule>, e: Event): map<(nat, nat), FilesystemRule>
    requires e.AddRulePathBeneath?
  {
    var key := (e.device, e.inode);
    rules[key :=
      if key !in rules then FilesystemRule(e.device, e.inode, e.access, e.pathname, e.timestamp)
      else
        var rule := rules[key].(access := Bits.Or(rules[key].access, e.access));
        if e.timestamp >= rule.pathnameTimestamp
        then rule.(pathname := e.pathname, pathnameTimestamp := e.timestamp)
        else rule]
  }

  function WithPortRule(rules: map<nat, NetworkRule>, e: Event): map<nat, NetworkRule>
    requires e.AddRuleNetPort?
  {
    rules[e.port :=
      if e.port !in rules then NetworkRule(e.port, e.access)
      else rules[e.port].(access := Bits.Or(rules[e.port].access, e.access))]
  }

  function WithEnforcement(events: map<ThreadId, Enforcement>, e: Event): map<ThreadId, Enforcement>
    requires e.EnforceDomain?
  {
    if e.enforcingTid in events && e.timestamp < events[e.enforcingTid].timestamp then events
    else events[e.enforcingTid := e]
  }

  /** The effect of an event on the ruleset it names. */
  function UpdateRuleset(s: RulesetState, e: Event): RulesetState
    requires e.NamesRuleset()
  {
    var s := s.(maxObservedVersion := Max(s.maxObservedVersion, e.version));
    match e
    case CreateRuleset(timestamp, _, _, fs, net, scoped) =>
      if Replaces(timestamp, s.creationTimestamp)
      then s.(creationTimestamp := Some(timestamp), handledFs := Some(fs), handledNet := Some(net),
          scoped := Some(scoped))
      else s
    case AddRulePathBeneath(_, _, _, _, _, _, _) =>
      s.(filesystemRules := WithPathRule(s.filesystemRules, e))
    case AddRuleNetPort(_, _, _, _, _) =>
      s.(networkRules := WithPortRule(s.networkRules, e))
    case CreateDomain(_, _, _, _, _, _, _) => s
    case FreeRuleset(timestamp, _, version) =>
      s.(lifecycle := Deallocated,
         freeTimestamp := UpdateMax(s.freeTimestamp, timestamp),
         finalVersion := UpdateMax(s.finalVersion, version))
  }

  /** Whether the event carries facts about its own subject domain, as opposed
      to only proving that a related domain exists. */
  predicate HasSubject(e: Event) {
    e.CreateDomain? || e.FreeDomain? || e.EnforceDomain? || e.IsDenial()
  }

  function Subject(e: Event): DomainId
    requires HasSubject(e)
  {
    if e.IsDenial() then e.context.hierarchy.domainId else e.domainId
  }

  /** Domains the event names besides its subject. */
  function Related(e: Event): set<DomainId> {
    if e.CreateDomain? then OptionSet(e.parentId)
    else if e.IsDenial() then
      OptionSet(e.context.hierarchy.parentId) +
      (if MembershipOf(e).Sandboxed? then {MembershipOf(e).id} else {})
    else {}
  }

  function Affected(e: Event): set<DomainId> {
    if HasSubject(e) then {Subject(e)} + Related(e) else {}
  }

  /** The effect of an event on its subject domain. */
  function UpdateDomain(s: DomainState, e: Event): DomainState
    requires HasSubject(e)
  {
    if e.IsDenial() then
      var h := e.context.hierarchy;
      var s := if s.parent.None?
               then s.(parent := Some(if h.parentId.Some? then Domain(h.parentId.value) else Root)) else s;
      var s := if s.creatorTgid.None? && s.creatorComm.None?
               then s.(creatorTgid := Some(h.creatorTgid), creatorComm := Some(h.creatorComm)) else s;
      s.(cumulativeDenialCount := UpdateMax(s.cumulativeDenialCount, e.context.cumulativeDenialCount))
    else
      match e
      case CreateDomain(timestamp, rulesetId, version, _, parentId, tgid, comm) =>
        var s := s.(cumulativeDenialCount := UpdateMax(s.cumulativeDenialCount, 0));
        if Replaces(timestamp, s.creationTimestamp)
        then s.(creationTimestamp := Some(timestamp),
                parent := Some(if parentId.Some? then Domain(parentId.value) else Root),
                creatorTgid := Some(tgid), creatorComm := Some(comm),
                ruleset := Some(RulesetVersion(rulesetId, version)))
        else s
      case FreeDomain(timestamp, _, count) =>
        s.(lifecycle := Deallocated,
           freeTimestamp := UpdateMax(s.freeTimestamp, timestamp),
           finalDenialCount := UpdateMax(s.finalDenialCount, count),
           cumulativeDenialCount := UpdateMax(s.cumulativeDenialCount, count))
      case EnforceDomain(_, _, _, _, processWide, _) =>
        s.(anyProcessWideEnforcement := s.anyProcessWideEnforcement || processWide,
           enforcementEvents := WithEnforcement(s.enforcementEvents, e))
  }

  function InitialLifecycle(e: Event): Lifecycle {
    if e.FreeDomain? || e.FreeRuleset? then Deallocated else Allocated
  }

  function AppliedToRulesets(rulesets: map<RulesetId, RulesetState>, e: Event): map<RulesetId, RulesetState> {
    if e.NamesRuleset() then
      var current := if e.rulesetId in rulesets then rulesets[e.rulesetId]
                     else NewRuleset(e.rulesetId, InitialLifecycle(e), e.version);
      rulesets[e.rulesetId := UpdateRuleset(current, e)]
    else rulesets
  }

  function AppliedToDomains(domains: map<DomainId, DomainState>, e: Event): map<DomainId, DomainState> {
    map d | d in domains.Keys + Affected(e) ::
      var current := if d in domains then domains[d]
                     else NewDomain(d, if d == Subject(e) then InitialLifecycle(e) else Allocated);
      if d in Affected(e) && d == Subject(e) then UpdateDomain(current, e) else current
  }

  /** One observation. */
  function Applied(s: State, e: Event): State {
    State(AppliedToRulesets(s.rulesets, e), AppliedToDomains(s.domains, e))
  }

  /** A whole run from the empty state. */
  function Run(history: seq<Event>): State {
    if history == [] then Empty
    else Applied(Run(history[..|history| - 1]), history[|history| - 1])
  }

  lemma RunExtends(history: seq<Event>, e: Event)
    ensures Run(history + [e]) == Applied(Run(history), e)
  {
    assert (history + [e])[..|history|] == history;
  }

  /** The weakest selected `no_new_privs` fact of a domain. */
  function NoNewPrivs(d: DomainState): Option<bool> {
    if d.enforcementEvents == map[] then None
    else Some(forall tid :: tid in d.enforcementEvents ==> d.enforcementEvents[tid].noNewPrivs)
  }
}
