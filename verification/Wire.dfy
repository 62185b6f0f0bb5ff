/** The decoder of fixed-layout producer records (src/wire.rs). */
module Wire {
  import opened Events
  import opened Captured
  import opened Numbers

  const RECORD_SIZE := 352
  const COMM_SIZE := 16
  const PATH_SIZE := 256
  const ABSTRACT_NAME_MAX := 107
  const MIN_LANDLOCK_ID := 0x1_0000_0000

  datatype DecodeError =
    | Length(expected: nat, actual: nat)
    | Boolean(field: string, byteValue: nat)
    | CapturedBytesRejected(field: string, source: CaptureError)
    | AbstractNameLength(length: nat, maximum: nat)
    | Id(field: string, idValue: nat)
    | TaskId(field: string)
    | EventKind(kind: nat)
    | Field(field: string)

  type Decoding<+T> = Result<T, DecodeError>

  // ----- readers -----

  function SliceAt(data: seq<Byte>, offset: nat, size: nat, field: string): Decoding<seq<Byte>> {
    if offset + size <= |data| then Ok(data[offset..offset + size]) else Err(Field(field))
  }

  function NumberAt(order: ByteOrder, data: seq<Byte>, offset: nat, size: nat, field: string): Decoding<nat> {
    var bytes :- SliceAt(data, offset, size, field);
    Ok(Value(order, bytes))
  }

  function U32At(order: ByteOrder, data: seq<Byte>, offset: nat, field: string): Decoding<nat> {
    NumberAt(order, data, offset, 4, field)
  }

  function U64At(order: ByteOrder, data: seq<Byte>, offset: nat, field: string): Decoding<nat> {
    NumberAt(order, data, offset, 8, field)
  }

  function BooleanAt(data: seq<Byte>, offset: nat, field: string): Decoding<bool> {
    if offset >= |data| then Err(Field(field))
    else if data[offset] == 0 then Ok(false)
    else if data[offset] == 1 then Ok(true)
    else Err(Boolean(field, data[offset]))
  }

  function CapturedCString(o: Origin, value: seq<Byte>, omitted: bool, field: string): Decoding<CapturedBytes> {
    match New(o, value[..FirstNul(value)], omitted)
    case Ok(v) => Ok(v)
    case Err(source) => Err(CapturedBytesRejected(field, source))
  }

  function CapturedAt(data: seq<Byte>, offset: nat, omittedOffset: nat): Decoding<CapturedBytes> {
    var value :- SliceAt(data, offset, PATH_SIZE, "pathname");
    var omitted :- BooleanAt(data, omittedOffset, "pathname_bytes_omitted");
    CapturedCString(Pathname, value, omitted, "pathname")
  }

  function CommandAt(data: seq<Byte>, offset: nat, field: string): Decoding<CapturedBytes> {
    var value :- SliceAt(data, offset, COMM_SIZE, field);
    CapturedCString(Command, value, false, field)
  }

  function AbstractNameAt(order: ByteOrder, data: seq<Byte>, lengthOffset: nat,
                          nameOffset: nat): Decoding<CapturedBytes> {
    var length :- U32At(order, data, lengthOffset, "abstract_unix_socket_name_length");
    if length > ABSTRACT_NAME_MAX then Err(AbstractNameLength(length, ABSTRACT_NAME_MAX))
    else
      var value :- SliceAt(data, nameOffset, length, "abstract_unix_socket_name");
      match New(AbstractUnixSocketName, value, false)
      case Ok(v) => Ok(v)
      case Err(source) => Err(CapturedBytesRejected("abstract_unix_socket_name", source))
  }

  function IdAt(order: ByteOrder, data: seq<Byte>, offset: nat, field: string): Decoding<nat> {
    var value :- U64At(order, data, offset, field);
    if value >= MIN_LANDLOCK_ID then Ok(value) else Err(Id(field, value))
  }

  function TaskIdAt(order: ByteOrder, data: seq<Byte>, offset: nat, field: string): Decoding<nat> {
    var value :- U32At(order, data, offset, field);
    if value != 0 then Ok(value) else Err(TaskId(field))
  }

  function OptionalTaskIdAt(order: ByteOrder, data: seq<Byte>, offset: nat,
                            field: string): Decoding<Option<ProcessId>> {
    var value :- U32At(order, data, offset, field);
    Ok(if value != 0 then Some(value) else None)
  }

  function ParentAt(order: ByteOrder, data: seq<Byte>, offset: nat, field: string): Decoding<Option<DomainId>> {
    var value :- U64At(order, data, offset, field);
    if value == 0 then Ok(None) else if value >= MIN_LANDLOCK_ID then Ok(Some(value)) else Err(Id(field, value))
  }

  function MembershipAt(order: ByteOrder, data: seq<Byte>, offset: nat, field: string): Decoding<Membership> {
    var id :- ParentAt(order, data, offset, field);
    Ok(if id.Some? then Sandboxed(id.value) else Unsandboxed)
  }

  function HierarchyAt(order: ByteOrder, data: seq<Byte>): Decoding<Hierarchy> {
    var domainId :- IdAt(order, data, 16, "domain_id");
    var parentId :- ParentAt(order, data, 24, "parent_id");
    var tgid :- TaskIdAt(order, data, 32, "creator_tgid");
    var comm :- CommandAt(data, 36, "creator_comm");
    Ok(Hierarchy(domainId, parentId, tgid, comm))
  }

  function DenialContextAt(order: ByteOrder, data: seq<Byte>): Decoding<DenialContext> {
    var hierarchy :- HierarchyAt(order, data);
    var count :- U64At(order, data, 56, "cumulative_denial_count");
    var sameExec :- BooleanAt(data, 72, "same_exec");
    var logged :- BooleanAt(data, 73, "logged");
    Ok(DenialContext(hierarchy, count, sameExec, logged))
  }

  // ----- the twelve kinds -----

  function DecodeCreateRuleset(order: ByteOrder, data: seq<Byte>, timestamp: nat): (r: Decoding<Event>)
    ensures r.Ok? ==> r.value.CreateRuleset? && r.value.timestamp == timestamp
  {
    var id :- IdAt(order, data, 16, "ruleset_id");
    var version :- U64At(order, data, 24, "ruleset_version");
    var fs :- U64At(order, data, 32, "handled_fs");
    var net :- U64At(order, data, 40, "handled_net");
    var scoped :- U64At(order, data, 48, "scoped");
    Ok(CreateRuleset(timestamp, id, version, fs, net, scoped))
  }

  function DecodeAddRulePathBeneath(order: ByteOrder, data: seq<Byte>, timestamp: nat): (r: Decoding<Event>)
    ensures r.Ok? ==> r.value.AddRulePathBeneath? && r.value.timestamp == timestamp
  {
    var id :- IdAt(order, data, 16, "ruleset_id");
    var version :- U64At(order, data, 24, "ruleset_version");
    var access :- U64At(order, data, 32, "access_rights");
    var device :- U32At(order, data, 40, "device");
    var inode :- U64At(order, data, 48, "inode");
    var pathname :- CapturedAt(data, 56, 44);
    Ok(AddRulePathBeneath(timestamp, id, version, access, device, inode, pathname))
  }

  function DecodeAddRuleNetPort(order: ByteOrder, data: seq<Byte>, timestamp: nat): (r: Decoding<Event>)
    ensures r.Ok? ==> r.value.AddRuleNetPort? && r.value.timestamp == timestamp
  {
    var id :- IdAt(order, data, 16, "ruleset_id");
    var version :- U64At(order, data, 24, "ruleset_version");
    var access :- U64At(order, data, 32, "access_rights");
    var port :- U64At(order, data, 40, "port");
    Ok(AddRuleNetPort(timestamp, id, version, access, port))
  }

  function DecodeCreateDomain(order: ByteOrder, data: seq<Byte>, timestamp: nat): (r: Decoding<Event>)
    ensures r.Ok? ==> r.value.CreateDomain? && r.value.timestamp == timestamp
  {
    var id :- IdAt(order, data, 16, "ruleset_id");
    var version :- U64At(order, data, 24, "ruleset_version");
    var domainId :- IdAt(order, data, 32, "domain_id");
    var parentId :- ParentAt(order, data, 40, "parent_id");
    var tgid :- TaskIdAt(order, data, 48, "creator_tgid");
    var comm :- CommandAt(data, 52, "creator_comm");
    Ok(CreateDomain(timestamp, id, version, domainId, parentId, tgid, comm))
  }

  function DecodeDenyAccessFs(order: ByteOrder, data: seq<Byte>, timestamp: nat): (r: Decoding<Event>)
    ensures r.Ok? ==> r.value.DenyAccessFs? && r.value.timestamp == timestamp
  {
    var context :- DenialContextAt(order, data);
    var blockersType :- U32At(order, data, 52, "blockers_type");
    var access :- U64At(order, data, 64, "blockers_access");
    var device :- U32At(order, data, 80, "device");
    var inode :- U64At(order, data, 88, "inode");
    var pathname :- CapturedAt(data, 96, 84);
    Ok(DenyAccessFs(timestamp, context, blockersType, access, device, inode, pathname))
  }

  function DecodeDenyAccessNet(order: ByteOrder, data: seq<Byte>, timestamp: nat): (r: Decoding<Event>)
    ensures r.Ok? ==> r.value.DenyAccessNet? && r.value.timestamp == timestamp
  {
    var context :- DenialContextAt(order, data);
    var blockersType :- U32At(order, data, 52, "blockers_type");
    var access :- U64At(order, data, 64, "blockers_access");
    var source :- U64At(order, data, 80, "source_port");
    var destination :- U64At(order, data, 88, "destination_port");
    Ok(DenyAccessNet(timestamp, context, blockersType, access, source, destination))
  }

  /** Ptrace and signal denials share their layout. */
  function DecodeTaskDenial(order: ByteOrder, data: seq<Byte>, timestamp: nat, party: string, ptrace: bool)
    : (r: Decoding<Event>)
    ensures r.Ok? ==>
            (if ptrace then r.value.DenyPtrace? else r.value.DenyScopeSignal?) && r.value.timestamp == timestamp
  {
    var context :- DenialContextAt(order, data);
    var other :- MembershipAt(order, data, 80, party + "_domain");
    var pid :- TaskIdAt(order, data, 88, party + "_pid");
    var comm :- CommandAt(data, 92, party + "_comm");
    Ok(if ptrace then DenyPtrace(timestamp, context, other, pid, comm)
        else DenyScopeSignal(timestamp, context, other, pid, comm))
  }

  function DecodeDenyAbstractUnixSocket(order: ByteOrder, data: seq<Byte>, timestamp: nat): (r: Decoding<Event>)
    ensures r.Ok? ==> r.value.DenyScopeAbstractUnixSocket? && r.value.timestamp == timestamp
  {
    var context :- DenialContextAt(order, data);
    var other :- MembershipAt(order, data, 80, "peer_domain");
    var pid :- OptionalTaskIdAt(order, data, 88, "peer_pid");
    var name :- AbstractNameAt(order, data, 92, 96);
    Ok(DenyScopeAbstractUnixSocket(timestamp, context, other, pid, name))
  }

  function DecodeFreeDomain(order: ByteOrder, data: seq<Byte>, timestamp: nat): (r: Decoding<Event>)
    ensures r.Ok? ==> r.value.FreeDomain? && r.value.timestamp == timestamp
  {
    var id :- IdAt(order, data, 16, "domain_id");
    var count :- U64At(order, data, 24, "denial_count");
    Ok(FreeDomain(timestamp, id, count))
  }

  function DecodeFreeRuleset(order: ByteOrder, data: seq<Byte>, timestamp: nat): (r: Decoding<Event>)
    ensures r.Ok? ==> r.value.FreeRuleset? && r.value.timestamp == timestamp
  {
    var id :- IdAt(order, data, 16, "ruleset_id");
    var version :- U64At(order, data, 24, "ruleset_version");
    Ok(FreeRuleset(timestamp, id, version))
  }

  function DecodeEnforceDomain(order: ByteOrder, data: seq<Byte>, timestamp: nat): (r: Decoding<Event>)
    ensures r.Ok? ==> r.value.EnforceDomain? && r.value.timestamp == timestamp
  {
    var id :- IdAt(order, data, 16, "domain_id");
    var tid :- TaskIdAt(order, data, 24, "enforcing_tid");
    var complete :- BooleanAt(data, 28, "complete");
    var processWide :- BooleanAt(data, 29, "process_wide");
    var noNewPrivs :- BooleanAt(data, 30, "no_new_privs");
    Ok(EnforceDomain(timestamp, id, tid, complete, processWide, noNewPrivs))
  }

  function DecodeKind(order: ByteOrder, data: seq<Byte>, kind: nat, timestamp: nat): Decoding<Event> {
    match kind
    case 1 => DecodeCreateRuleset(order, data, timestamp)
    case 2 => DecodeAddRulePathBeneath(order, data, timestamp)
    case 3 => DecodeAddRuleNetPort(order, data, timestamp)
    case 4 => DecodeCreateDomain(order, data, timestamp)
    case 5 => DecodeDenyAccessFs(order, data, timestamp)
    case 6 => DecodeDenyAccessNet(order, data, timestamp)
    case 7 => DecodeTaskDenial(order, data, timestamp, "tracee", true)
    case 8 => DecodeTaskDenial(order, data, timestamp, "target", false)
    case 9 => DecodeDenyAbstractUnixSocket(order, data, timestamp)
    case 10 => DecodeFreeDomain(order, data, timestamp)
    case 11 => DecodeFreeRuleset(order, data, timestamp)
    case 12 => DecodeEnforceDomain(order, data, timestamp)
    case _ => Err(EventKind(kind))
  }

  /** One complete producer record. */
  function Decode(order: ByteOrder, data: seq<Byte>): Decoding<Event> {
    if |data| != RECORD_SIZE then Err(Length(RECORD_SIZE, |data|))
    else
      var timestamp :- U64At(order, data, 0, "timestamp");
      DecodeKind(order, data, data[8], timestamp)
  }
}
