/** What a history of observations means, stated without replaying it.
    Every reconstructed field is one of four things: a maximum of observed
    numbers, the presence of some observation, a union of observed masks, or
    the last-applied event among those with the greatest timestamp. */
module Summary {
  import opened Events
  import opened State
  import Bits

  // ----- what an observation names -----

  /** Domains that a denial's own hierarchy names. */
  function HierarchyIds(h: Hierarchy): set<DomainId> {
    {h.domainId} + OptionSet(h.parentId)
  }

  function PartyIds(m: Membership): set<DomainId> {
    if m.Sandboxed? then {m.id} else {}
  }

  /** Every domain that an observation proves to exist. */
  function Mentioned(e: Event): set<DomainId> {
    match e
    case CreateRuleset(_, _, _, _, _, _) => {}
    case AddRulePathBeneath(_, _, _, _, _, _, _) => {}
    case AddRuleNetPort(_, _, _, _, _) => {}
    case CreateDomain(_, _, _, id, parent, _, _) => {id} + OptionSet(parent)
    case DenyAccessFs(_, context, _, _, _, _, _) => HierarchyIds(context.hierarchy)
    case DenyAccessNet(_, context, _, _, _, _) => HierarchyIds(context.hierarchy)
    case DenyPtrace(_, context, tracee, _, _) => HierarchyIds(context.hierarchy) + PartyIds(tracee)
    case DenyScopeSignal(_, context, target, _, _) => HierarchyIds(context.hierarchy) + PartyIds(target)
    case DenyScopeAbstractUnixSocket(_, context, peer, _, _) => HierarchyIds(context.hierarchy) + PartyIds(peer)
    case FreeDomain(_, id, _) => {id}
    case FreeRuleset(_, _, _) => {}
    case EnforceDomain(_, id, _, _, _, _) => {id}
  }

  /** The ruleset that an observation proves to exist. */
  function MentionedRuleset(e: Event): Option<RulesetId> {
    match e
    case CreateRuleset(_, id, _, _, _, _) => Some(id)
    case AddRulePathBeneath(_, id, _, _, _, _, _) => Some(id)
    case AddRuleNetPort(_, id, _, _, _) => Some(id)
    case CreateDomain(_, id, _, _, _, _, _) => Some(id)
    case FreeRuleset(_, id, _) => Some(id)
    case _ => None
  }

  function ParentOf(id: Option<DomainId>): DomainParent {
    if id.Some? then Domain(id.value) else Root
  }

  /** The domains and the ruleset that `apply` touches are those the observation names. */
  lemma AffectedIsMentioned(e: Event)
    ensures Affected(e) == Mentioned(e)
    ensures e.NamesRuleset() <==> MentionedRuleset(e).Some?
    ensures e.NamesRuleset() ==> MentionedRuleset(e).value == e.rulesetId
  {
  }

  // ----- maxima -----

  /** A number that observations report and the state keeps the maximum of. */
  datatype Measure =
    | Version(ruleset: RulesetId)
    | FinalVersion(ruleset: RulesetId)
    | RulesetFreeTime(ruleset: RulesetId)
    | DenialCount(domain: DomainId)
    | FinalDenialCount(domain: DomainId)
    | DomainFreeTime(domain: DomainId)

  function Reported(e: Event, m: Measure): Option<nat> {
    match m
    case Version(r) => if MentionedRuleset(e) == Some(r) then Some(e.version) else None
    case FinalVersion(r) => if e.FreeRuleset? && e.rulesetId == r then Some(e.version) else None
    case RulesetFreeTime(r) => if e.FreeRuleset? && e.rulesetId == r then Some(e.timestamp) else None
    case DenialCount(d) =>
      if e.CreateDomain? && e.domainId == d then Some(0)
      else if e.FreeDomain? && e.domainId == d then Some(e.denialCount)
      else if e.IsDenial() && e.context.hierarchy.domainId == d then Some(e.context.cumulativeDenialCount)
      else None
    case FinalDenialCount(d) => if e.FreeDomain? && e.domainId == d then Some(e.denialCount) else None
    case DomainFreeTime(d) => if e.FreeDomain? && e.domainId == d then Some(e.timestamp) else None
  }

  ghost function Reports(history: seq<Event>, m: Measure): set<nat> {
    set e | e in history && Reported(e, m).Some? :: Reported(e, m).value
  }

  ghost predicate IsGreatest(x: nat, s: set<nat>) {
    x in s && forall y :: y in s ==> y <= x
  }

  /** The greatest number reported so far. */
  function Highest(history: seq<Event>, m: Measure): Option<nat> {
    if history == [] then None
    else
      var n := |history| - 1;
      var earlier, last := Highest(history[..n], m), Reported(history[n], m);
      if last.Some? then UpdateMax(earlier, last.value) else earlier
  }

  lemma {:induction false} HighestIsGreatest(history: seq<Event>, m: Measure)
    ensures Highest(history, m).None? <==> Reports(history, m) == {}
    ensures Highest(history, m).Some? ==> IsGreatest(Highest(history, m).value, Reports(history, m))
  {
    if history != [] {
      var n := |history| - 1;
      HighestIsGreatest(history[..n], m);
      var last := Reported(history[n], m);
      assert history == history[..n] + [history[n]];
      assert Reports(history, m) == Reports(history[..n], m) + OptionSet(last);
    }
  }

  lemma HighestExtends(history: seq<Event>, e: Event, m: Measure)
    ensures Highest(history + [e], m) ==
            if Reported(e, m).Some? then UpdateMax(Highest(history, m), Reported(e, m).value)
            else Highest(history, m)
  {
    assert (history + [e])[..|history|] == history;
  }

  // ----- presence -----

  datatype Fact =
    | RulesetNamed(ruleset: RulesetId)
    | RulesetFreed(ruleset: RulesetId)
    | DomainNamed(domain: DomainId)
    | DomainFreed(domain: DomainId)
    | ProcessWide(domain: DomainId)

  predicate Shows(e: Event, f: Fact) {
    match f
    case RulesetNamed(r) => MentionedRuleset(e) == Some(r)
    case RulesetFreed(r) => e.FreeRuleset? && e.rulesetId == r
    case DomainNamed(d) => d in Mentioned(e)
    case DomainFreed(d) => e.FreeDomain? && e.domainId == d
    case ProcessWide(d) => e.EnforceDomain? && e.domainId == d && e.processWide
  }

  ghost predicate Observed(history: seq<Event>, f: Fact) {
    exists e :: e in history && Shows(e, f)
  }

  lemma ObservedExtends(history: seq<Event>, e: Event, f: Fact)
    ensures Observed(history + [e], f) == (Observed(history, f) || Shows(e, f))
  {
    assert e in history + [e];
    if Observed(history, f) {
      var x :| x in history && Shows(x, f);
      assert x in history + [e];
    }
  }

  // ----- competitions -----

  /** A retained slot that observations compete for by timestamp. */
  datatype Slot =
    | RulesetCreation(ruleset: RulesetId)
    | PathRule(ruleset: RulesetId, device: nat, inode: nat)
    | PortRule(ruleset: RulesetId, port: nat)
    | DomainCreation(domain: DomainId)
    | ThreadEnforcement(domain: DomainId, tid: ThreadId)

  predicate Competes(e: Event, slot: Slot) {
    match slot
    case RulesetCreation(r) => e.CreateRuleset? && e.rulesetId == r
    case PathRule(r, device, inode) =>
      e.AddRulePathBeneath? && e.rulesetId == r && e.device == device && e.inode == inode
    case PortRule(r, port) => e.AddRuleNetPort? && e.rulesetId == r && e.port == port
    case DomainCreation(d) => e.CreateDomain? && e.domainId == d
    case ThreadEnforcement(d, tid) => e.EnforceDomain? && e.domainId == d && e.enforcingTid == tid
  }

  /** `history[i]` is the last-applied competitor among those with the greatest timestamp. */
  ghost predicate WinsAt(history: seq<Event>, slot: Slot, i: nat) {
    && i < |history|
    && Competes(history[i], slot)
    && (forall j :: 0 <= j < |history| && Competes(history[j], slot) ==> history[j].timestamp <= history[i].timestamp)
    && (forall j :: i < j < |history| && Competes(history[j], slot) ==> history[j].timestamp < history[i].timestamp)
  }

  function Winner(history: seq<Event>, slot: Slot): (r: Option<Event>)
    ensures r.Some? ==> Competes(r.value, slot)
  {
    if history == [] then None
    else
      var n := |history| - 1;
      var earlier, last := Winner(history[..n], slot), history[n];
      if Competes(last, slot) && (earlier.None? || last.timestamp >= earlier.value.timestamp) then Some(last)
      else earlier
  }

  /** The winner is the last-applied competitor of greatest timestamp, and
      exists exactly when somebody competes. */
  lemma {:induction false} WinnerWins(history: seq<Event>, slot: Slot) returns (i: nat)
    ensures Winner(history, slot).None? <==> forall e :: e in history ==> !Competes(e, slot)
    ensures Winner(history, slot).Some? ==> WinsAt(history, slot, i) && history[i] == Winner(history, slot).value
  {
    i := 0;
    if history != [] {
      var n := |history| - 1;
      var before, last := history[..n], history[n];
      i := WinnerWins(before, slot);
      assert history == before + [last];
      var earlier := Winner(before, slot);
      if Competes(last, slot) && (earlier.None? || last.timestamp >= earlier.value.timestamp) {
        WinsAtEnd(before, last, slot);
        i := n;
      } else if earlier.Some? {
        WinsStill(before, last, slot, i);
      }
    }
  }

  lemma WinsAtEnd(history: seq<Event>, e: Event, slot: Slot)
    requires Competes(e, slot)
    requires forall j :: 0 <= j < |history| && Competes(history[j], slot) ==> history[j].timestamp <= e.timestamp
    ensures WinsAt(history + [e], slot, |history|)
  {
  }

  lemma WinsStill(history: seq<Event>, e: Event, slot: Slot, i: nat)
    requires WinsAt(history, slot, i)
    requires Competes(e, slot) ==> e.timestamp < history[i].timestamp
    ensures WinsAt(history + [e], slot, i)
  {
  }

  lemma WinnerExtends(history: seq<Event>, e: Event, slot: Slot)
    ensures Winner(history + [e], slot) ==
            if Competes(e, slot) &&
               (Winner(history, slot).None? || e.timestamp >= Winner(history, slot).value.timestamp)
            then Some(e) else Winner(history, slot)
  {
    assert (history + [e])[..|history|] == history;
  }

  // ----- unions -----

  /** The union of the access masks of all rules added for a target. */
  function AccessUnion(history: seq<Event>, slot: Slot): AccessMask
    requires slot.PathRule? || slot.PortRule?
  {
    if history == [] then 0
    else
      var n := |history| - 1;
      var earlier := AccessUnion(history[..n], slot);
      if Competes(history[n], slot) then Bits.Or(earlier, history[n].access) else earlier
  }

  lemma AccessUnionExtends(history: seq<Event>, e: Event, slot: Slot)
    requires slot.PathRule? || slot.PortRule?
    ensures AccessUnion(history + [e], slot) ==
            if Competes(e, slot) then Bits.Or(AccessUnion(history, slot), e.access) else AccessUnion(history, slot)
  {
    assert (history + [e])[..|history|] == history;
  }

  lemma AccessUnionOfNone(history: seq<Event>, slot: Slot)
    requires slot.PathRule? || slot.PortRule?
    requires forall e :: e in history ==> !Competes(e, slot)
    ensures AccessUnion(history, slot) == 0
  {
  }

  /** A bit is in the union exactly when some observed mask has it. */
  lemma {:induction false} AccessUnionBits(history: seq<Event>, slot: Slot, i: nat)
    requires slot.PathRule? || slot.PortRule?
    ensures Bits.Bit(AccessUnion(history, slot), i) <==>
            exists e :: e in history && Competes(e, slot) && Bits.Bit(e.access, i)
  {
    if history == [] {
      Bits.BitOfZero(i);
    } else {
      var n := |history| - 1;
      var last := history[n];
      AccessUnionBits(history[..n], slot, i);
      assert history == history[..n] + [last];
      if Competes(last, slot) {
        Bits.BitOr(AccessUnion(history[..n], slot), last.access, i);
      }
    }
  }

  // ----- first guesses -----

  predicate DeniedBy(e: Event, d: DomainId) {
    e.IsDenial() && e.context.hierarchy.domainId == d
  }

  function FirstDenial(history: seq<Event>, d: DomainId): (r: Option<Event>)
    ensures r.Some? ==> DeniedBy(r.value, d)
  {
    if history == [] then None
    else if DeniedBy(history[0], d) then Some(history[0])
    else FirstDenial(history[1..], d)
  }

  lemma {:induction false} FirstDenialIsFirst(history: seq<Event>, d: DomainId) returns (i: nat)
    ensures FirstDenial(history, d).None? <==> forall e :: e in history ==> !DeniedBy(e, d)
    ensures FirstDenial(history, d).Some? ==>
              && i < |history| && history[i] == FirstDenial(history, d).value
              && forall j :: 0 <= j < i ==> !DeniedBy(history[j], d)
  {
    i := 0;
    if history != [] && !DeniedBy(history[0], d) {
      i := FirstDenialIsFirst(history[1..], d);
      assert history == [history[0]] + history[1..];
      i := i + 1;
    }
  }

  lemma FirstDenialExtends(history: seq<Event>, e: Event, d: DomainId)
    ensures FirstDenial(history + [e], d) ==
            if FirstDenial(history, d).Some? then FirstDenial(history, d)
            else if DeniedBy(e, d) then Some(e) else None
  {
    if history != [] {
      assert (history + [e])[1..] == history[1..] + [e];
      if !DeniedBy(history[0], d) {
        FirstDenialExtends(history[1..], e, d);
      }
    }
  }

  // ----- the summary -----

  ghost function PathTargets(history: seq<Event>, r: RulesetId): set<(nat, nat)> {
    set e | e in history && e.AddRulePathBeneath? && e.rulesetId == r :: (e.device, e.inode)
  }

  ghost function Ports(history: seq<Event>, r: RulesetId): set<nat> {
    set e | e in history && e.AddRuleNetPort? && e.rulesetId == r :: e.port
  }

  ghost function Threads(history: seq<Event>, d: DomainId): set<ThreadId> {
    set e | e in history && e.EnforceDomain? && e.domainId == d :: e.enforcingTid
  }

  ghost function PathRuleSummary(history: seq<Event>, r: RulesetId, key: (nat, nat)): FilesystemRule
    requires key in PathTargets(history, r)
  {
    var slot := PathRule(r, key.0, key.1);
    assert Winner(history, slot).Some? by { var _ := WinnerWins(history, slot); }
    var w := Winner(history, slot).value;
    FilesystemRule(key.0, key.1, AccessUnion(history, slot), w.pathname, w.timestamp)
  }

  ghost function PathRules(history: seq<Event>, r: RulesetId): map<(nat, nat), FilesystemRule> {
    map key | key in PathTargets(history, r) :: PathRuleSummary(history, r, key)
  }

  ghost function PortRules(history: seq<Event>, r: RulesetId): map<nat, NetworkRule> {
    map port | port in Ports(history, r) :: NetworkRule(port, AccessUnion(history, PortRule(r, port)))
  }

  ghost function Enforcements(history: seq<Event>, d: DomainId): map<ThreadId, Enforcement> {
    map tid | tid in Threads(history, d) :: EnforcementSummary(history, d, tid)
  }

  ghost function RulesetSummary(history: seq<Event>, r: RulesetId): RulesetState {
    var w := Winner(history, RulesetCreation(r));
    RulesetState(
      r,
      if Observed(history, RulesetFreed(r)) then Deallocated else Allocated,
      if w.None? then None else Some(w.value.timestamp),
      if w.None? then None else Some(w.value.handledFs),
      if w.None? then None else Some(w.value.handledNet),
      if w.None? then None else Some(w.value.scoped),
      if Highest(history, Version(r)).None? then 0 else Highest(history, Version(r)).value,
      Highest(history, FinalVersion(r)),
      Highest(history, RulesetFreeTime(r)),
      PathRules(history, r),
      PortRules(history, r))
  }

  ghost function DomainSummary(history: seq<Event>, d: DomainId): DomainState {
    var w := Winner(history, DomainCreation(d));
    var guess := FirstDenial(history, d);
    DomainState(
      d,
      if Observed(history, DomainFreed(d)) then Deallocated else Allocated,
      if w.Some? then Some(w.value.timestamp) else None,
      if w.Some? then Some(ParentOf(w.value.parentId))
      else if guess.Some? then Some(ParentOf(guess.value.context.hierarchy.parentId)) else None,
      if w.Some? then Some(w.value.creatorTgid)
      else if guess.Some? then Some(guess.value.context.hierarchy.creatorTgid) else None,
      if w.Some? then Some(w.value.creatorComm)
      else if guess.Some? then Some(guess.value.context.hierarchy.creatorComm) else None,
      if w.Some? then Some(RulesetVersion(w.value.rulesetId, w.value.version)) else None,
      Highest(history, DenialCount(d)),
      Highest(history, FinalDenialCount(d)),
      Highest(history, DomainFreeTime(d)),
      Enforcements(history, d),
      Observed(history, ProcessWide(d)))
  }

  ghost function EnforcementSummary(history: seq<Event>, d: DomainId, tid: ThreadId): Enforcement
    requires tid in Threads(history, d)
  {
    assert Winner(history, ThreadEnforcement(d, tid)).Some? by {
      var _ := WinnerWins(history, ThreadEnforcement(d, tid));
    }
    Winner(history, ThreadEnforcement(d, tid)).value
  }

  ghost function RulesetIds(history: seq<Event>): set<RulesetId> {
    set e | e in history && MentionedRuleset(e).Some? :: MentionedRuleset(e).value
  }

  ghost function DomainIds(history: seq<Event>): set<DomainId> {
    set e, d | e in history && d in Mentioned(e) :: d
  }

  lemma IdsAreObserved(history: seq<Event>)
    ensures forall r :: r in RulesetIds(history) <==> Observed(history, RulesetNamed(r))
    ensures forall d :: d in DomainIds(history) <==> Observed(history, DomainNamed(d))
  {
    forall r ensures r in RulesetIds(history) <==> Observed(history, RulesetNamed(r)) {
      if r in RulesetIds(history) {
        var e :| e in history && MentionedRuleset(e) == Some(r);
        assert Shows(e, RulesetNamed(r));
      }
    }
    forall d ensures d in DomainIds(history) <==> Observed(history, DomainNamed(d)) {
      if d in DomainIds(history) {
        var e :| e in history && d in Mentioned(e);
        assert Shows(e, DomainNamed(d));
      }
    }
  }

  /** The state a history determines. */
  ghost function Summarize(history: seq<Event>): State {
    State(map r | r in RulesetIds(history) :: RulesetSummary(history, r),
          map d | d in DomainIds(history) :: DomainSummary(history, d))
  }
}
