/** The producer's record layout (src/bpf/event.h) and its exact agreement with
    the decoder. A handler clears a record and stores fields into it; padding
    and whatever follows a string's terminator may hold anything. */
module WireLayout {
  import opened Events
  import opened Captured
  import opened Numbers
  import opened Wire

  datatype Store = Store(offset: nat, bytes: seq<Byte>)

  function Number(order: ByteOrder, offset: nat, n: nat, size: nat): Store {
    Store(offset, Encoded(order, n, size))
  }

  function Flag(offset: nat, b: bool): Store {
    Store(offset, [if b then 1 else 0])
  }

  /** A string up to its terminator, which a full field lacks. */
  function CString(offset: nat, bytes: seq<Byte>, size: nat): Store {
    Store(offset, if |bytes| < size then bytes + [0] else bytes)
  }

  function OptionalNumber(order: ByteOrder, offset: nat, o: Option<nat>, size: nat): Store {
    Number(order, offset, if o.Some? then o.value else 0, size)
  }

  function MembershipNumber(order: ByteOrder, offset: nat, m: Membership): Store {
    Number(order, offset, if m.Sandboxed? then m.id else 0, 8)
  }

  function HierarchyStores(order: ByteOrder, h: Hierarchy): seq<Store> {
    [Number(order, 16, h.domainId, 8),
     OptionalNumber(order, 24, h.parentId, 8),
     Number(order, 32, h.creatorTgid, 4),
     CString(36, h.creatorComm.bytes, 16)]
  }

  function DenialHeader(order: ByteOrder, c: DenialContext): seq<Store> {
    HierarchyStores(order, c.hierarchy) +
    [Number(order, 56, c.cumulativeDenialCount, 8),
     Flag(72, c.sameExec),
     Flag(73, c.logged)]
  }

  function KindOf(e: Event): Byte {
    match e
    case CreateRuleset(_, _, _, _, _, _) => 1
    case AddRulePathBeneath(_, _, _, _, _, _, _) => 2
    case AddRuleNetPort(_, _, _, _, _) => 3
    case CreateDomain(_, _, _, _, _, _, _) => 4
    case DenyAccessFs(_, _, _, _, _, _, _) => 5
    case DenyAccessNet(_, _, _, _, _, _) => 6
    case DenyPtrace(_, _, _, _, _) => 7
    case DenyScopeSignal(_, _, _, _, _) => 8
    case DenyScopeAbstractUnixSocket(_, _, _, _, _) => 9
    case FreeDomain(_, _, _) => 10
    case FreeRuleset(_, _, _) => 11
    case EnforceDomain(_, _, _, _, _, _) => 12
  }

  /** The fields of a denial that its common header does not hold. */
  function DenialTail(order: ByteOrder, e: Event): seq<Store>
    requires e.IsDenial()
  {
    match e
    case DenyAccessFs(_, _, blockersType, access, device, inode, pathname) =>
      [Number(order, 52, blockersType, 4), Number(order, 64, access, 8), Number(order, 80, device, 4),
       Flag(84, pathname.bytesOmitted), Number(order, 88, inode, 8), CString(96, pathname.bytes, 256)]
    case DenyAccessNet(_, _, blockersType, access, source, destination) =>
      [Number(order, 52, blockersType, 4), Number(order, 64, access, 8), Number(order, 80, source, 8),
       Number(order, 88, destination, 8)]
    case DenyPtrace(_, _, other, pid, comm) =>
      [MembershipNumber(order, 80, other), Number(order, 88, pid, 4), CString(92, comm.bytes, 16)]
    case DenyScopeSignal(_, _, other, pid, comm) =>
      [MembershipNumber(order, 80, other), Number(order, 88, pid, 4), CString(92, comm.bytes, 16)]
    case DenyScopeAbstractUnixSocket(_, _, other, pid, name) =>
      [MembershipNumber(order, 80, other), OptionalNumber(order, 88, pid, 4), Number(order, 92, |name.bytes|, 4),
       Store(96, name.bytes)]
  }

  /** The member of the record's union that the event's kind selects. */
  function Payload(order: ByteOrder, e: Event): seq<Store> {
    match e
    case CreateRuleset(_, id, version, fs, net, scoped) =>
      [Number(order, 16, id, 8), Number(order, 24, version, 8), Number(order, 32, fs, 8), Number(order, 40, net, 8),
       Number(order, 48, scoped, 8)]
    case AddRulePathBeneath(_, id, version, access, device, inode, pathname) =>
      [Number(order, 16, id, 8), Number(order, 24, version, 8), Number(order, 32, access, 8),
       Number(order, 40, device, 4), Flag(44, pathname.bytesOmitted), Number(order, 48, inode, 8),
       CString(56, pathname.bytes, 256)]
    case AddRuleNetPort(_, id, version, access, port) =>
      [Number(order, 16, id, 8), Number(order, 24, version, 8), Number(order, 32, access, 8),
       Number(order, 40, port, 8)]
    case CreateDomain(_, id, version, domainId, parentId, tgid, comm) =>
      [Number(order, 16, id, 8), Number(order, 24, version, 8), Number(order, 32, domainId, 8),
       OptionalNumber(order, 40, parentId, 8), Number(order, 48, tgid, 4), CString(52, comm.bytes, 16)]
    case DenyAccessFs(_, context, _, _, _, _, _) => DenialHeader(order, context) + DenialTail(order, e)
    case DenyAccessNet(_, context, _, _, _, _) => DenialHeader(order, context) + DenialTail(order, e)
    case DenyPtrace(_, context, _, _, _) => DenialHeader(order, context) + DenialTail(order, e)
    case DenyScopeSignal(_, context, _, _, _) => DenialHeader(order, context) + DenialTail(order, e)
    case DenyScopeAbstractUnixSocket(_, context, _, _, _) => DenialHeader(order, context) + DenialTail(order, e)
    case FreeDomain(_, id, count) =>
      [Number(order, 16, id, 8), Number(order, 24, count, 8)]
    case FreeRuleset(_, id, version) =>
      [Number(order, 16, id, 8), Number(order, 24, version, 8)]
    case EnforceDomain(_, id, tid, complete, processWide, noNewPrivs) =>
      [Number(order, 16, id, 8), Number(order, 24, tid, 4), Flag(28, complete), Flag(29, processWide),
       Flag(30, noNewPrivs)]
  }

  predicate Holds(data: seq<Byte>, s: Store) {
    s.offset + |s.bytes| <= |data| && data[s.offset..s.offset + |s.bytes|] == s.bytes
  }

  predicate HoldsAll(data: seq<Byte>, stores: seq<Store>) {
    forall i :: 0 <= i < |stores| ==> Holds(data, stores[i])
  }

  predicate LaidOut(order: ByteOrder, e: Event, data: seq<Byte>) {
    && |data| == RECORD_SIZE
    && Holds(data, Number(order, 0, e.timestamp, 8))
    && data[8] == KindOf(e)
    && HoldsAll(data, Payload(order, e))
  }

  // ----- well-formed events -----

  predicate Fits32(n: nat) { n < Limit(4) }
  predicate Fits64(n: nat) { n < Limit(8) }
  predicate ValidId(n: nat) { Fits64(n) && n >= MIN_LANDLOCK_ID }
  predicate ValidTask(n: nat) { Fits32(n) && n != 0 }

  predicate ValidMembership(m: Membership) { m.Sandboxed? ==> ValidId(m.id) }

  predicate ValidHierarchy(h: Hierarchy) {
    && ValidId(h.domainId)
    && (h.parentId.Some? ==> ValidId(h.parentId.value))
    && ValidTask(h.creatorTgid)
    && ValidFor(Command, h.creatorComm)
  }

  predicate ValidContext(c: DenialContext) {
    ValidHierarchy(c.hierarchy) && Fits64(c.cumulativeDenialCount)
  }

  /** The invariants of the typed event values. */
  predicate WellFormed(e: Event) {
    && Fits64(e.timestamp)
    && match e
       case CreateRuleset(_, id, version, fs, net, scoped) =>
         ValidId(id) && Fits64(version) && Fits64(fs) && Fits64(net) && Fits64(scoped)
       case AddRulePathBeneath(_, id, version, access, device, inode, pathname) =>
         ValidId(id) && Fits64(version) && Fits64(access) && Fits32(device) && Fits64(inode) &&
         ValidFor(Pathname, pathname)
       case AddRuleNetPort(_, id, version, access, port) =>
         ValidId(id) && Fits64(version) && Fits64(access) && Fits64(port)
       case CreateDomain(_, id, version, domainId, parentId, tgid, comm) =>
         && ValidId(id) && Fits64(version) && ValidId(domainId) && (parentId.Some? ==> ValidId(parentId.value))
         && ValidTask(tgid) && ValidFor(Command, comm)
       case DenyAccessFs(_, context, blockersType, access, device, inode, pathname) =>
         && ValidContext(context) && Fits32(blockersType) && Fits64(access) && Fits32(device) && Fits64(inode)
         && ValidFor(Pathname, pathname)
       case DenyAccessNet(_, context, blockersType, access, source, destination) =>
         ValidContext(context) && Fits32(blockersType) && Fits64(access) && Fits64(source) && Fits64(destination)
       case DenyPtrace(_, context, other, pid, comm) =>
         ValidContext(context) && ValidMembership(other) && ValidTask(pid) && ValidFor(Command, comm)
       case DenyScopeSignal(_, context, other, pid, comm) =>
         ValidContext(context) && ValidMembership(other) && ValidTask(pid) && ValidFor(Command, comm)
       case DenyScopeAbstractUnixSocket(_, context, other, pid, name) =>
         && ValidContext(context) && ValidMembership(other) && (pid.Some? ==> ValidTask(pid.value))
         && ValidFor(AbstractUnixSocketName, name)
       case FreeDomain(_, id, count) => ValidId(id) && Fits64(count)
       case FreeRuleset(_, id, version) => ValidId(id) && Fits64(version)
       case EnforceDomain(_, id, tid, _, _, _) => ValidId(id) && ValidTask(tid)
  }

  // ----- each reader against its field -----

  lemma NumberRead(order: ByteOrder, data: seq<Byte>, offset: nat, size: nat, field: string, n: nat)
    ensures NumberAt(order, data, offset, size, field) == Ok(n) <==>
            n < Limit(size) && Holds(data, Number(order, offset, n, size))
  {
    if offset + size <= |data| {
      var bytes := data[offset..offset + size];
      ReadIffEncoded(order, bytes, n);
      assert |bytes| == size;
      assert Holds(data, Number(order, offset, n, size)) <==> bytes == Encoded(order, n, size);
    }
  }

  lemma IdRead(order: ByteOrder, data: seq<Byte>, offset: nat, field: string, n: nat)
    ensures IdAt(order, data, offset, field) == Ok(n) <==> ValidId(n) && Holds(data, Number(order, offset, n, 8))
  {
    NumberRead(order, data, offset, 8, field, n);
  }

  lemma TaskRead(order: ByteOrder, data: seq<Byte>, offset: nat, field: string, n: nat)
    ensures TaskIdAt(order, data, offset, field) == Ok(n) <==> ValidTask(n) && Holds(data, Number(order, offset, n, 4))
  {
    NumberRead(order, data, offset, 4, field, n);
  }

  lemma OptionalTaskRead(order: ByteOrder, data: seq<Byte>, offset: nat, field: string, o: Option<ProcessId>)
    ensures OptionalTaskIdAt(order, data, offset, field) == Ok(o) <==>
            (o.Some? ==> ValidTask(o.value)) && Holds(data, OptionalNumber(order, offset, o, 4))
  {
    var n := if o.Some? then o.value else 0;
    NumberRead(order, data, offset, 4, field, n);
    assert Limit(4) > 0 by { Limits(); }
  }

  lemma ParentRead(order: ByteOrder, data: seq<Byte>, offset: nat, field: string, o: Option<DomainId>)
    ensures ParentAt(order, data, offset, field) == Ok(o) <==>
            (o.Some? ==> ValidId(o.value)) && Holds(data, OptionalNumber(order, offset, o, 8))
  {
    var n := if o.Some? then o.value else 0;
    NumberRead(order, data, offset, 8, field, n);
    assert Limit(8) > 0 by { Limits(); }
  }

  lemma MembershipRead(order: ByteOrder, data: seq<Byte>, offset: nat, field: string, m: Membership)
    ensures MembershipAt(order, data, offset, field) == Ok(m) <==>
            ValidMembership(m) && Holds(data, MembershipNumber(order, offset, m))
  {
    ParentRead(order, data, offset, field, if m.Sandboxed? then Some(m.id) else None);
  }

  lemma FlagRead(data: seq<Byte>, offset: nat, field: string, b: bool)
    ensures BooleanAt(data, offset, field) == Ok(b) <==> Holds(data, Flag(offset, b))
  {
    if offset < |data| { assert data[offset..offset + 1] == [data[offset]]; }
  }

  /** The bytes before the first NUL are the string stored up to its terminator. */
  lemma CStringRead(field: seq<Byte>, bytes: seq<Byte>)
    requires |bytes| <= |field|
    ensures field[..FirstNul(field)] == bytes <==>
            0 !in bytes && field[..|bytes|] == bytes && (|bytes| < |field| ==> field[|bytes|] == 0)
  {
    assert forall j :: 0 <= j < |bytes| ==> field[..|bytes|][j] == field[j];
    assert forall j :: 0 <= j < |bytes| ==> bytes[j] in bytes;
  }

  lemma CStringHeld(data: seq<Byte>, offset: nat, bytes: seq<Byte>, size: nat)
    requires offset + size <= |data| && |bytes| <= size
    ensures var field := data[offset..offset + size];
            Holds(data, CString(offset, bytes, size)) <==>
            field[..|bytes|] == bytes && (|bytes| < size ==> field[|bytes|] == 0)
  {
    var field := data[offset..offset + size];
    assert field[..|bytes|] == data[offset..offset + |bytes|];
    if |bytes| < size {
      assert data[offset..offset + |bytes| + 1] == data[offset..offset + |bytes|] + [data[offset + |bytes|]];
      assert field[|bytes|] == data[offset + |bytes|];
      if Holds(data, CString(offset, bytes, size)) {
        assert (bytes + [0])[..|bytes|] == bytes && (bytes + [0])[|bytes|] == 0;
        assert data[offset..offset + |bytes| + 1][..|bytes|] == bytes;
      }
    }
  }

  lemma CommandRead(data: seq<Byte>, offset: nat, field: string, v: CapturedBytes)
    requires offset + 16 <= |data|
    ensures CommandAt(data, offset, field) == Ok(v) <==>
            ValidFor(Command, v) && Holds(data, CString(offset, v.bytes, 16))
  {
    var value := data[offset..offset + 16];
    if |v.bytes| <= 16 {
      CStringRead(value, v.bytes);
      CStringHeld(data, offset, v.bytes, 16);
    }
  }

  lemma PathRead(data: seq<Byte>, offset: nat, omittedOffset: nat, v: CapturedBytes)
    requires offset + 256 <= |data| && omittedOffset < |data|
    ensures CapturedAt(data, offset, omittedOffset) == Ok(v) <==>
            ValidFor(Pathname, v) && Holds(data, CString(offset, v.bytes, 256)) &&
            Holds(data, Flag(omittedOffset, v.bytesOmitted))
  {
    var value := data[offset..offset + 256];
    FlagRead(data, omittedOffset, "pathname_bytes_omitted", v.bytesOmitted);
    if |v.bytes| <= 256 {
      CStringRead(value, v.bytes);
      CStringHeld(data, offset, v.bytes, 256);
    }
  }

  lemma AbstractNameRead(order: ByteOrder, data: seq<Byte>, lengthOffset: nat, nameOffset: nat, v: CapturedBytes)
    requires nameOffset + 107 <= |data|
    ensures AbstractNameAt(order, data, lengthOffset, nameOffset) == Ok(v) <==>
            ValidFor(AbstractUnixSocketName, v) && Holds(data, Number(order, lengthOffset, |v.bytes|, 4)) &&
            Holds(data, Store(nameOffset, v.bytes))
  {
    NumberRead(order, data, lengthOffset, 4, "abstract_unix_socket_name_length", |v.bytes|);
    Limits();
  }

  // ----- each kind against its layout -----

  lemma HoldsAllConcat(data: seq<Byte>, a: seq<Store>, b: seq<Store>)
    ensures HoldsAll(data, a + b) <==> HoldsAll(data, a) && HoldsAll(data, b)
  {
    if HoldsAll(data, a + b) {
      forall i | 0 <= i < |a| ensures Holds(data, a[i]) { assert (a + b)[i] == a[i]; }
      forall i | 0 <= i < |b| ensures Holds(data, b[i]) { assert (a + b)[|a| + i] == b[i]; }
    }
  }

  lemma HoldsAll3(data: seq<Byte>, s: seq<Store>)
    requires |s| == 3
    ensures HoldsAll(data, s) <==> Holds(data, s[0]) && Holds(data, s[1]) && Holds(data, s[2])
  {
  }

  lemma HoldsAll4(data: seq<Byte>, s: seq<Store>)
    requires |s| == 4
    ensures HoldsAll(data, s) <==> Holds(data, s[0]) && Holds(data, s[1]) && Holds(data, s[2]) && Holds(data, s[3])
  {
  }

  lemma HoldsAll5(data: seq<Byte>, s: seq<Store>)
    requires |s| == 5
    ensures HoldsAll(data, s) <==>
            Holds(data, s[0]) && Holds(data, s[1]) && Holds(data, s[2]) && Holds(data, s[3]) && Holds(data, s[4])
  {
  }

  lemma HoldsAll6(data: seq<Byte>, s: seq<Store>)
    requires |s| == 6
    ensures HoldsAll(data, s) <==>
            Holds(data, s[0]) && Holds(data, s[1]) && Holds(data, s[2]) && Holds(data, s[3]) && Holds(data, s[4]) &&
            Holds(data, s[5])
  {
  }

  lemma IdentityRead(order: ByteOrder, data: seq<Byte>, id: nat, parent: Option<DomainId>)
    requires |data| == RECORD_SIZE
    ensures IdAt(order, data, 16, "domain_id") == Ok(id) && ParentAt(order, data, 24, "parent_id") == Ok(parent) <==>
            ValidId(id) && (parent.Some? ==> ValidId(parent.value)) &&
            Holds(data, Number(order, 16, id, 8)) && Holds(data, OptionalNumber(order, 24, parent, 8))
  {
    IdRead(order, data, 16, "domain_id", id);
    ParentRead(order, data, 24, "parent_id", parent);
  }

  lemma CreatorRead(order: ByteOrder, data: seq<Byte>, tgid: nat, comm: CapturedBytes)
    requires |data| == RECORD_SIZE
    ensures TaskIdAt(order, data, 32, "creator_tgid") == Ok(tgid) &&
            CommandAt(data, 36, "creator_comm") == Ok(comm) <==>
            ValidTask(tgid) && ValidFor(Command, comm) &&
            Holds(data, Number(order, 32, tgid, 4)) && Holds(data, CString(36, comm.bytes, 16))
  {
    TaskRead(order, data, 32, "creator_tgid", tgid);
    CommandRead(data, 36, "creator_comm", comm);
  }

  lemma HierarchyParts(order: ByteOrder, data: seq<Byte>, h: Hierarchy)
    ensures HierarchyAt(order, data) == Ok(h) <==>
            IdAt(order, data, 16, "domain_id") == Ok(h.domainId) &&
            ParentAt(order, data, 24, "parent_id") == Ok(h.parentId) &&
            TaskIdAt(order, data, 32, "creator_tgid") == Ok(h.creatorTgid) &&
            CommandAt(data, 36, "creator_comm") == Ok(h.creatorComm)
  {
  }

  lemma HierarchyRead(order: ByteOrder, data: seq<Byte>, h: Hierarchy)
    requires |data| == RECORD_SIZE
    ensures HierarchyAt(order, data) == Ok(h) <==> ValidHierarchy(h) && HoldsAll(data, HierarchyStores(order, h))
  {
    HierarchyParts(order, data, h);
    IdentityRead(order, data, h.domainId, h.parentId);
    CreatorRead(order, data, h.creatorTgid, h.creatorComm);
    HoldsAll4(data, HierarchyStores(order, h));
  }

  lemma ContextRead(order: ByteOrder, data: seq<Byte>, c: DenialContext)
    requires |data| == RECORD_SIZE
    ensures DenialContextAt(order, data) == Ok(c) <==> ValidContext(c) && HoldsAll(data, DenialHeader(order, c))
  {
    var rest := DenialHeader(order, c)[4..];
    assert DenialHeader(order, c) == HierarchyStores(order, c.hierarchy) + rest;
    HoldsAllConcat(data, HierarchyStores(order, c.hierarchy), rest);
    HierarchyRead(order, data, c.hierarchy);
    NumberRead(order, data, 56, 8, "cumulative_denial_count", c.cumulativeDenialCount);
    FlagRead(data, 72, "same_exec", c.sameExec);
    FlagRead(data, 73, "logged", c.logged);
    HoldsAll3(data, rest);
  }

  lemma CreateRulesetRead(order: ByteOrder, data: seq<Byte>, t: nat, e: Event)
    requires |data| == RECORD_SIZE && e.CreateRuleset? && e.timestamp == t && Fits64(t)
    ensures DecodeCreateRuleset(order, data, t) == Ok(e) <==> WellFormed(e) && HoldsAll(data, Payload(order, e))
  {
    var s := Payload(order, e);
    IdRead(order, data, 16, "ruleset_id", e.rulesetId);
    NumberRead(order, data, 24, 8, "ruleset_version", e.version);
    NumberRead(order, data, 32, 8, "handled_fs", e.handledFs);
    NumberRead(order, data, 40, 8, "handled_net", e.handledNet);
    NumberRead(order, data, 48, 8, "scoped", e.scoped);
    HoldsAll5(data, s);
  }

  lemma HoldsAll7(data: seq<Byte>, s: seq<Store>)
    requires |s| == 7
    ensures HoldsAll(data, s) <==>
            Holds(data, s[0]) && Holds(data, s[1]) && Holds(data, s[2]) && Holds(data, s[3]) && Holds(data, s[4]) &&
            Holds(data, s[5]) && Holds(data, s[6])
  {
  }

  lemma AddRulePathBeneathSound(order: ByteOrder, data: seq<Byte>, t: nat, e: Event)
    requires |data| == RECORD_SIZE && e.timestamp == t && Fits64(t)
    requires DecodeAddRulePathBeneath(order, data, t) == Ok(e)
    ensures WellFormed(e) && HoldsAll(data, Payload(order, e))
  {
    IdRead(order, data, 16, "ruleset_id", e.rulesetId);
    NumberRead(order, data, 24, 8, "ruleset_version", e.version);
    NumberRead(order, data, 32, 8, "access_rights", e.access);
    NumberRead(order, data, 40, 4, "device", e.device);
    NumberRead(order, data, 48, 8, "inode", e.inode);
    PathRead(data, 56, 44, e.pathname);
    HoldsAll7(data, Payload(order, e));
  }

  lemma AddRulePathBeneathComplete(order: ByteOrder, data: seq<Byte>, t: nat, e: Event)
    requires |data| == RECORD_SIZE && e.AddRulePathBeneath? && e.timestamp == t && Fits64(t)
    requires WellFormed(e) && HoldsAll(data, Payload(order, e))
    ensures DecodeAddRulePathBeneath(order, data, t) == Ok(e)
  {
    HoldsAll7(data, Payload(order, e));
    IdRead(order, data, 16, "ruleset_id", e.rulesetId);
    NumberRead(order, data, 24, 8, "ruleset_version", e.version);
    NumberRead(order, data, 32, 8, "access_rights", e.access);
    NumberRead(order, data, 40, 4, "device", e.device);
    NumberRead(order, data, 48, 8, "inode", e.inode);
    PathRead(data, 56, 44, e.pathname);
  }

  lemma AddRulePathBeneathRead(order: ByteOrder, data: seq<Byte>, t: nat, e: Event)
    requires |data| == RECORD_SIZE && e.AddRulePathBeneath? && e.timestamp == t && Fits64(t)
    ensures DecodeAddRulePathBeneath(order, data, t) == Ok(e) <==> WellFormed(e) && HoldsAll(data, Payload(order, e))
  {
    if DecodeAddRulePathBeneath(order, data, t) == Ok(e) { AddRulePathBeneathSound(order, data, t, e); }
    if WellFormed(e) && HoldsAll(data, Payload(order, e)) { AddRulePathBeneathComplete(order, data, t, e); }
  }

  lemma AddRuleNetPortRead(order: ByteOrder, data: seq<Byte>, t: nat, e: Event)
    requires |data| == RECORD_SIZE && e.AddRuleNetPort? && e.timestamp == t && Fits64(t)
    ensures DecodeAddRuleNetPort(order, data, t) == Ok(e) <==> WellFormed(e) && HoldsAll(data, Payload(order, e))
  {
    var s := Payload(order, e);
    IdRead(order, data, 16, "ruleset_id", e.rulesetId);
    NumberRead(order, data, 24, 8, "ruleset_version", e.version);
    NumberRead(order, data, 32, 8, "access_rights", e.access);
    NumberRead(order, data, 40, 8, "port", e.port);
    HoldsAll4(data, s);
  }

  lemma CreateDomainParts(order: ByteOrder, data: seq<Byte>, t: nat, e: Event)
    requires e.CreateDomain? && e.timestamp == t
    ensures DecodeCreateDomain(order, data, t) == Ok(e) <==>
            IdAt(order, data, 16, "ruleset_id") == Ok(e.rulesetId) &&
            U64At(order, data, 24, "ruleset_version") == Ok(e.version) &&
            IdAt(order, data, 32, "domain_id") == Ok(e.domainId) &&
            ParentAt(order, data, 40, "parent_id") == Ok(e.parentId) &&
            TaskIdAt(order, data, 48, "creator_tgid") == Ok(e.creatorTgid) &&
            CommandAt(data, 52, "creator_comm") == Ok(e.creatorComm)
  {
  }

  /** The ruleset version that a domain freezes. */
  lemma FrozenRead(order: ByteOrder, data: seq<Byte>, id: nat, version: nat)
    ensures IdAt(order, data, 16, "ruleset_id") == Ok(id) &&
            U64At(order, data, 24, "ruleset_version") == Ok(version) <==>
            ValidId(id) && Fits64(version) &&
            Holds(data, Number(order, 16, id, 8)) && Holds(data, Number(order, 24, version, 8))
  {
    IdRead(order, data, 16, "ruleset_id", id);
    NumberRead(order, data, 24, 8, "ruleset_version", version);
  }

  lemma NewDomainRead(order: ByteOrder, data: seq<Byte>, id: nat, parent: Option<DomainId>)
    ensures IdAt(order, data, 32, "domain_id") == Ok(id) && ParentAt(order, data, 40, "parent_id") == Ok(parent) <==>
            ValidId(id) && (parent.Some? ==> ValidId(parent.value)) &&
            Holds(data, Number(order, 32, id, 8)) && Holds(data, OptionalNumber(order, 40, parent, 8))
  {
    IdRead(order, data, 32, "domain_id", id);
    ParentRead(order, data, 40, "parent_id", parent);
  }

  lemma CreateDomainRead(order: ByteOrder, data: seq<Byte>, t: nat, e: Event)
    requires |data| == RECORD_SIZE && e.CreateDomain? && e.timestamp == t && Fits64(t)
    ensures DecodeCreateDomain(order, data, t) == Ok(e) <==> WellFormed(e) && HoldsAll(data, Payload(order, e))
  {
    CreateDomainParts(order, data, t, e);
    FrozenRead(order, data, e.rulesetId, e.version);
    NewDomainRead(order, data, e.domainId, e.parentId);
    TaskRead(order, data, 48, "creator_tgid", e.creatorTgid);
    CommandRead(data, 52, "creator_comm", e.creatorComm);
    HoldsAll6(data, Payload(order, e));
  }

  lemma FsTailRead(order: ByteOrder, data: seq<Byte>, e: Event)
    requires |data| == RECORD_SIZE && e.DenyAccessFs?
    ensures U32At(order, data, 52, "blockers_type") == Ok(e.blockersType) &&
            U64At(order, data, 64, "blockers_access") == Ok(e.blockersAccess) &&
            U32At(order, data, 80, "device") == Ok(e.device) && U64At(order, data, 88, "inode") == Ok(e.inode) &&
            CapturedAt(data, 96, 84) == Ok(e.pathname) <==>
            Fits32(e.blockersType) && Fits64(e.blockersAccess) && Fits32(e.device) && Fits64(e.inode) &&
            ValidFor(Pathname, e.pathname) &&
            HoldsAll(data, DenialTail(order, e))
  {
    NumberRead(order, data, 52, 4, "blockers_type", e.blockersType);
    NumberRead(order, data, 64, 8, "blockers_access", e.blockersAccess);
    NumberRead(order, data, 80, 4, "device", e.device);
    NumberRead(order, data, 88, 8, "inode", e.inode);
    PathRead(data, 96, 84, e.pathname);
    HoldsAll6(data, DenialTail(order, e));
  }

  lemma DenyAccessFsRead(order: ByteOrder, data: seq<Byte>, t: nat, e: Event)
    requires |data| == RECORD_SIZE && e.DenyAccessFs? && e.timestamp == t && Fits64(t)
    ensures DecodeDenyAccessFs(order, data, t) == Ok(e) <==> WellFormed(e) && HoldsAll(data, Payload(order, e))
  {
    HoldsAllConcat(data, DenialHeader(order, e.context), DenialTail(order, e));
    ContextRead(order, data, e.context);
    FsTailRead(order, data, e);
  }

  lemma NetTailRead(order: ByteOrder, data: seq<Byte>, e: Event)
    requires |data| == RECORD_SIZE && e.DenyAccessNet?
    ensures U32At(order, data, 52, "blockers_type") == Ok(e.blockersType) &&
            U64At(order, data, 64, "blockers_access") == Ok(e.blockersAccess) &&
            U64At(order, data, 80, "source_port") == Ok(e.sourcePort) &&
            U64At(order, data, 88, "destination_port") == Ok(e.destinationPort) <==>
            Fits32(e.blockersType) && Fits64(e.blockersAccess) && Fits64(e.sourcePort) && Fits64(e.destinationPort) &&
            HoldsAll(data, DenialTail(order, e))
  {
    NumberRead(order, data, 52, 4, "blockers_type", e.blockersType);
    NumberRead(order, data, 64, 8, "blockers_access", e.blockersAccess);
    NumberRead(order, data, 80, 8, "source_port", e.sourcePort);
    NumberRead(order, data, 88, 8, "destination_port", e.destinationPort);
    HoldsAll4(data, DenialTail(order, e));
  }

  lemma DenyAccessNetRead(order: ByteOrder, data: seq<Byte>, t: nat, e: Event)
    requires |data| == RECORD_SIZE && e.DenyAccessNet? && e.timestamp == t && Fits64(t)
    ensures DecodeDenyAccessNet(order, data, t) == Ok(e) <==> WellFormed(e) && HoldsAll(data, Payload(order, e))
  {
    HoldsAllConcat(data, DenialHeader(order, e.context), DenialTail(order, e));
    ContextRead(order, data, e.context);
    NetTailRead(order, data, e);
  }

  lemma TaskTailRead(order: ByteOrder, data: seq<Byte>, party: string, other: Membership, pid: nat, comm: CapturedBytes)
    requires |data| == RECORD_SIZE
    ensures MembershipAt(order, data, 80, party + "_domain") == Ok(other) &&
            TaskIdAt(order, data, 88, party + "_pid") == Ok(pid) &&
            CommandAt(data, 92, party + "_comm") == Ok(comm) <==>
            ValidMembership(other) && ValidTask(pid) && ValidFor(Command, comm) &&
            HoldsAll(data, [MembershipNumber(order, 80, other), Number(order, 88, pid, 4), CString(92, comm.bytes, 16)])
  {
    MembershipRead(order, data, 80, party + "_domain", other);
    TaskRead(order, data, 88, party + "_pid", pid);
    CommandRead(data, 92, party + "_comm", comm);
    HoldsAll3(data, [MembershipNumber(order, 80, other), Number(order, 88, pid, 4), CString(92, comm.bytes, 16)]);
  }

  lemma TaskDenialParts(order: ByteOrder, data: seq<Byte>, t: nat, party: string, e: Event)
    requires (e.DenyPtrace? || e.DenyScopeSignal?) && e.timestamp == t
    ensures DecodeTaskDenial(order, data, t, party, e.DenyPtrace?) == Ok(e) <==>
            DenialContextAt(order, data) == Ok(e.context) &&
            MembershipAt(order, data, 80, party + "_domain") == Ok(e.other) &&
            TaskIdAt(order, data, 88, party + "_pid") == Ok(e.otherPid) &&
            CommandAt(data, 92, party + "_comm") == Ok(e.otherComm)
  {
  }

  lemma TaskDenialRead(order: ByteOrder, data: seq<Byte>, t: nat, party: string, e: Event)
    requires |data| == RECORD_SIZE && (e.DenyPtrace? || e.DenyScopeSignal?) && e.timestamp == t && Fits64(t)
    ensures DecodeTaskDenial(order, data, t, party, e.DenyPtrace?) == Ok(e) <==>
            WellFormed(e) && HoldsAll(data, Payload(order, e))
  {
    TaskDenialParts(order, data, t, party, e);
    HoldsAllConcat(data, DenialHeader(order, e.context), DenialTail(order, e));
    ContextRead(order, data, e.context);
    TaskTailRead(order, data, party, e.other, e.otherPid, e.otherComm);
  }

  lemma PeerRead(order: ByteOrder, data: seq<Byte>, other: Membership, pid: Option<ProcessId>)
    ensures MembershipAt(order, data, 80, "peer_domain") == Ok(other) &&
            OptionalTaskIdAt(order, data, 88, "peer_pid") == Ok(pid) <==>
            ValidMembership(other) && (pid.Some? ==> ValidTask(pid.value)) &&
            Holds(data, MembershipNumber(order, 80, other)) && Holds(data, OptionalNumber(order, 88, pid, 4))
  {
    MembershipRead(order, data, 80, "peer_domain", other);
    OptionalTaskRead(order, data, 88, "peer_pid", pid);
  }

  lemma AbstractTailRead(order: ByteOrder, data: seq<Byte>, other: Membership, pid: Option<ProcessId>,
                         name: CapturedBytes)
    requires |data| == RECORD_SIZE
    ensures MembershipAt(order, data, 80, "peer_domain") == Ok(other) &&
            OptionalTaskIdAt(order, data, 88, "peer_pid") == Ok(pid) &&
            AbstractNameAt(order, data, 92, 96) == Ok(name) <==>
            ValidMembership(other) && (pid.Some? ==> ValidTask(pid.value)) && ValidFor(AbstractUnixSocketName, name) &&
            HoldsAll(data, [MembershipNumber(order, 80, other), OptionalNumber(order, 88, pid, 4),
                            Number(order, 92, |name.bytes|, 4), Store(96, name.bytes)])
  {
    PeerRead(order, data, other, pid);
    AbstractNameRead(order, data, 92, 96, name);
    HoldsAll4(data, [MembershipNumber(order, 80, other), OptionalNumber(order, 88, pid, 4),
                     Number(order, 92, |name.bytes|, 4), Store(96, name.bytes)]);
  }

  lemma AbstractDenialParts(order: ByteOrder, data: seq<Byte>, t: nat, e: Event)
    requires e.DenyScopeAbstractUnixSocket? && e.timestamp == t
    ensures DecodeDenyAbstractUnixSocket(order, data, t) == Ok(e) <==>
            DenialContextAt(order, data) == Ok(e.context) &&
            MembershipAt(order, data, 80, "peer_domain") == Ok(e.other) &&
            OptionalTaskIdAt(order, data, 88, "peer_pid") == Ok(e.peerPid) &&
            AbstractNameAt(order, data, 92, 96) == Ok(e.abstractName)
  {
  }

  lemma AbstractDenialRead(order: ByteOrder, data: seq<Byte>, t: nat, e: Event)
    requires |data| == RECORD_SIZE && e.DenyScopeAbstractUnixSocket? && e.timestamp == t && Fits64(t)
    ensures DecodeDenyAbstractUnixSocket(order, data, t) == Ok(e) <==>
            WellFormed(e) && HoldsAll(data, Payload(order, e))
  {
    AbstractDenialParts(order, data, t, e);
    HoldsAllConcat(data, DenialHeader(order, e.context), DenialTail(order, e));
    ContextRead(order, data, e.context);
    AbstractTailRead(order, data, e.other, e.peerPid, e.abstractName);
  }

  lemma FreeRead(order: ByteOrder, data: seq<Byte>, t: nat, e: Event)
    requires |data| == RECORD_SIZE && (e.FreeDomain? || e.FreeRuleset?) && e.timestamp == t && Fits64(t)
    ensures e.FreeDomain? ==>
              (DecodeFreeDomain(order, data, t) == Ok(e) <==> WellFormed(e) && HoldsAll(data, Payload(order, e)))
    ensures e.FreeRuleset? ==>
              (DecodeFreeRuleset(order, data, t) == Ok(e) <==> WellFormed(e) && HoldsAll(data, Payload(order, e)))
  {
    var s := Payload(order, e);
    IdRead(order, data, 16, if e.FreeDomain? then "domain_id" else "ruleset_id",
           if e.FreeDomain? then e.domainId else e.rulesetId);
    NumberRead(order, data, 24, 8, if e.FreeDomain? then "denial_count" else "ruleset_version",
               if e.FreeDomain? then e.denialCount else e.version);
    assert HoldsAll(data, s) <==> Holds(data, s[0]) && Holds(data, s[1]);
  }

  lemma EnforceDomainRead(order: ByteOrder, data: seq<Byte>, t: nat, e: Event)
    requires |data| == RECORD_SIZE && e.EnforceDomain? && e.timestamp == t && Fits64(t)
    ensures DecodeEnforceDomain(order, data, t) == Ok(e) <==> WellFormed(e) && HoldsAll(data, Payload(order, e))
  {
    var s := Payload(order, e);
    IdRead(order, data, 16, "domain_id", e.domainId);
    TaskRead(order, data, 24, "enforcing_tid", e.enforcingTid);
    FlagRead(data, 28, "complete", e.complete);
    FlagRead(data, 29, "process_wide", e.processWide);
    FlagRead(data, 30, "no_new_privs", e.noNewPrivs);
    HoldsAll5(data, s);
  }

  /** What a successful kind decoder returns carries that kind and the timestamp given. */
  lemma KindDecoded(order: ByteOrder, data: seq<Byte>, kind: Byte, t: nat)
    ensures DecodeKind(order, data, kind, t).Ok? ==>
              KindOf(DecodeKind(order, data, kind, t).value) == kind &&
              DecodeKind(order, data, kind, t).value.timestamp == t
  {
  }

  lemma LifecycleKindRead(order: ByteOrder, data: seq<Byte>, t: nat, e: Event)
    requires |data| == RECORD_SIZE && e.timestamp == t && Fits64(t) && !e.IsDenial()
    ensures DecodeKind(order, data, KindOf(e), t) == Ok(e) <==> WellFormed(e) && HoldsAll(data, Payload(order, e))
  {
    match e
    case CreateRuleset(_, _, _, _, _, _) => CreateRulesetRead(order, data, t, e);
    case AddRulePathBeneath(_, _, _, _, _, _, _) => AddRulePathBeneathRead(order, data, t, e);
    case AddRuleNetPort(_, _, _, _, _) => AddRuleNetPortRead(order, data, t, e);
    case CreateDomain(_, _, _, _, _, _, _) => CreateDomainRead(order, data, t, e);
    case FreeDomain(_, _, _) => FreeRead(order, data, t, e);
    case FreeRuleset(_, _, _) => FreeRead(order, data, t, e);
    case EnforceDomain(_, _, _, _, _, _) => EnforceDomainRead(order, data, t, e);
  }

  lemma DenialKindRead(order: ByteOrder, data: seq<Byte>, t: nat, e: Event)
    requires |data| == RECORD_SIZE && e.timestamp == t && Fits64(t) && e.IsDenial()
    ensures DecodeKind(order, data, KindOf(e), t) == Ok(e) <==> WellFormed(e) && HoldsAll(data, Payload(order, e))
  {
    match e
    case DenyAccessFs(_, _, _, _, _, _, _) => DenyAccessFsRead(order, data, t, e);
    case DenyAccessNet(_, _, _, _, _, _) => DenyAccessNetRead(order, data, t, e);
    case DenyPtrace(_, _, _, _, _) => TaskDenialRead(order, data, t, "tracee", e);
    case DenyScopeSignal(_, _, _, _, _) => TaskDenialRead(order, data, t, "target", e);
    case DenyScopeAbstractUnixSocket(_, _, _, _, _) => AbstractDenialRead(order, data, t, e);
  }

  /** The decoder accepts a record as an event exactly when the event is well
      formed and the record is laid out for it. */
  lemma EventRead(order: ByteOrder, data: seq<Byte>, e: Event)
    requires |data| == RECORD_SIZE && Fits64(e.timestamp)
    ensures DecodeKind(order, data, KindOf(e), e.timestamp) == Ok(e) <==>
            WellFormed(e) && HoldsAll(data, Payload(order, e))
  {
    if e.IsDenial() { DenialKindRead(order, data, e.timestamp, e); }
    else { LifecycleKindRead(order, data, e.timestamp, e); }
  }

  lemma DecodeIffLaidOut(order: ByteOrder, data: seq<Byte>, e: Event)
    ensures Decode(order, data) == Ok(e) <==> WellFormed(e) && LaidOut(order, e, data)
  {
    if |data| == RECORD_SIZE {
      NumberRead(order, data, 0, 8, "timestamp", e.timestamp);
      var t := Value(order, data[0..8]);
      assert Decode(order, data) == DecodeKind(order, data, data[8], t);
      KindDecoded(order, data, data[8], t);
      if Fits64(e.timestamp) { EventRead(order, data, e); }
    }
  }
}
