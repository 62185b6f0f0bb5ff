/** The semantic events carried through the pipeline. Numeric fields are
    naturals; `WireLayout.WellFormed` states the widths and ranges that the decoder
    establishes, and nothing else in the project depends on them. */
module Events {
  datatype Option<+T> = None | Some(value: T)

  type Byte = b: nat | b < 256

  type DomainId = nat
  type RulesetId = nat
  type ProcessId = nat
  type ThreadId = nat
  type Timestamp = nat
  type AccessMask = nat

  datatype CapturedBytes = CapturedBytes(bytes: seq<Byte>, bytesOmitted: bool)

  /** Whether the other party of a denial belonged to a domain. */
  datatype Membership = Unsandboxed | Sandboxed(id: DomainId)

  datatype Hierarchy = Hierarchy(
    domainId: DomainId,
    parentId: Option<DomainId>,
    creatorTgid: ProcessId,
    creatorComm: CapturedBytes)

  datatype DenialContext = DenialContext(
    hierarchy: Hierarchy,
    cumulativeDenialCount: nat,
    sameExec: bool,
    logged: bool)

  datatype Event =
    | CreateRuleset(timestamp: Timestamp, rulesetId: RulesetId, version: nat,
                    handledFs: AccessMask, handledNet: AccessMask, scoped: AccessMask)
    | AddRulePathBeneath(timestamp: Timestamp, rulesetId: RulesetId, version: nat,
                         access: AccessMask, device: nat, inode: nat, pathname: CapturedBytes)
    | AddRuleNetPort(timestamp: Timestamp, rulesetId: RulesetId, version: nat,
                     access: AccessMask, port: nat)
    | CreateDomain(timestamp: Timestamp, rulesetId: RulesetId, version: nat,
                   domainId: DomainId, parentId: Option<DomainId>,
                   creatorTgid: ProcessId, creatorComm: CapturedBytes)
    | DenyAccessFs(timestamp: Timestamp, context: DenialContext, blockersType: nat,
                   blockersAccess: AccessMask, device: nat, inode: nat, pathname: CapturedBytes)
    | DenyAccessNet(timestamp: Timestamp, context: DenialContext, blockersType: nat,
                    blockersAccess: AccessMask, sourcePort: nat, destinationPort: nat)
    | DenyPtrace(timestamp: Timestamp, context: DenialContext,
                 other: Membership, otherPid: ProcessId, otherComm: CapturedBytes)
    | DenyScopeSignal(timestamp: Timestamp, context: DenialContext,
                      other: Membership, otherPid: ProcessId, otherComm: CapturedBytes)
    | DenyScopeAbstractUnixSocket(timestamp: Timestamp, context: DenialContext,
                                  other: Membership, peerPid: Option<ProcessId>,
                                  abstractName: CapturedBytes)
    | FreeDomain(timestamp: Timestamp, domainId: DomainId, denialCount: nat)
    | FreeRuleset(timestamp: Timestamp, rulesetId: RulesetId, version: nat)
    | EnforceDomain(timestamp: Timestamp, domainId: DomainId, enforcingTid: ThreadId,
                    complete: bool, processWide: bool, noNewPrivs: bool)
  {
    predicate IsDenial() {
      DenyAccessFs? || DenyAccessNet? || DenyPtrace? || DenyScopeSignal? || DenyScopeAbstractUnixSocket?
    }

    predicate NamesRuleset() {
      CreateRuleset? || AddRulePathBeneath? || AddRuleNetPort? || CreateDomain? || FreeRuleset?
    }
  }

  /** The other party named by a scoped denial. */
  function MembershipOf(e: Event): Membership {
    if e.DenyPtrace? || e.DenyScopeSignal? || e.DenyScopeAbstractUnixSocket? then e.other else Unsandboxed
  }

  function OptionSet<T>(o: Option<T>): set<T> {
    if o.Some? then {o.value} else {}
  }
}
