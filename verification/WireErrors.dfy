/** Why a record is rejected. Each kind of record has a list of checks in reading
    order, every one of them at its own offset; the decoder reports the first that
    fails, and nothing else. */
module WireErrors {
  import opened Events
  import opened Captured
  import opened Numbers
  import opened Wire

  // ----- what is checked, and where -----

  datatype Check =
    | Identifier(field: string, offset: nat)          // assigned by the kernel
    | OptionalIdentifier(field: string, offset: nat)  // zero for none
    | Task(field: string, offset: nat)                // not zero
    | FlagByte(field: string, offset: nat)            // zero or one
    | CommandText(field: string, offset: nat)         // terminated
    | FullPath(offset: nat, omitted: nat)             // full when marked as cut short
    | NameLength(offset: nat)                         // within the longest name

  function NumberIn(order: ByteOrder, data: seq<Byte>, offset: nat, size: nat): nat
    requires offset + size <= |data|
  {
    Value(order, data[offset..offset + size])
  }

  predicate Fits(c: Check, size: nat) {
    match c
    case Identifier(_, offset) => offset + 8 <= size
    case OptionalIdentifier(_, offset) => offset + 8 <= size
    case Task(_, offset) => offset + 4 <= size
    case FlagByte(_, offset) => offset < size
    case CommandText(_, offset) => offset + COMM_SIZE <= size
    case FullPath(offset, omitted) => offset + PATH_SIZE <= size && omitted < size
    case NameLength(offset) => offset + 4 <= size
  }

  /** The fault that a check finds at its offset. */
  function Fault(order: ByteOrder, data: seq<Byte>, c: Check): Option<DecodeError>
    requires Fits(c, |data|)
  {
    match c
    case Identifier(field, offset) =>
      var n := NumberIn(order, data, offset, 8);
      if n < MIN_LANDLOCK_ID then Some(Id(field, n)) else None
    case OptionalIdentifier(field, offset) =>
      var n := NumberIn(order, data, offset, 8);
      if 0 < n < MIN_LANDLOCK_ID then Some(Id(field, n)) else None
    case Task(field, offset) =>
      if NumberIn(order, data, offset, 4) == 0 then Some(TaskId(field)) else None
    case FlagByte(field, offset) =>
      if data[offset] > 1 then Some(Boolean(field, data[offset])) else None
    case CommandText(field, offset) =>
      if 0 !in data[offset..offset + COMM_SIZE]
          then Some(CapturedBytesRejected(field, TooLong(COMM_SIZE, COMM_SIZE - 1)))
      else None
    case FullPath(offset, omitted) =>
      var length := FirstNul(data[offset..offset + PATH_SIZE]);
      if data[omitted] == 1 && length < PATH_SIZE
      then Some(CapturedBytesRejected("pathname", OmissionRequiresFullCapacity(length, PATH_SIZE)))
      else None
    case NameLength(offset) =>
      var n := NumberIn(order, data, offset, 4);
      if n > ABSTRACT_NAME_MAX then Some(AbstractNameLength(n, ABSTRACT_NAME_MAX)) else None
  }

  function HierarchyChecks(): seq<Check> {
    [Identifier("domain_id", 16), OptionalIdentifier("parent_id", 24), Task("creator_tgid", 32),
        CommandText("creator_comm", 36)]
  }

  function ContextChecks(): seq<Check> {
    HierarchyChecks() + [FlagByte("same_exec", 72), FlagByte("logged", 73)]
  }

  function PathChecks(offset: nat, omitted: nat): seq<Check> {
    [FlagByte("pathname_bytes_omitted", omitted), FullPath(offset, omitted)]
  }

  function TaskDenialChecks(party: string): seq<Check> {
    [OptionalIdentifier(party + "_domain", 80), Task(party + "_pid", 88), CommandText(party + "_comm", 92)]
  }

  /** The checks of a kind, in reading order. */
  function Checks(kind: nat): seq<Check>
    requires 1 <= kind <= 12
  {
    match kind
    case 1 => [Identifier("ruleset_id", 16)]
    case 2 => [Identifier("ruleset_id", 16)] + PathChecks(56, 44)
    case 3 => [Identifier("ruleset_id", 16)]
    case 4 => [Identifier("ruleset_id", 16), Identifier("domain_id", 32), OptionalIdentifier("parent_id", 40),
               Task("creator_tgid", 48), CommandText("creator_comm", 52)]
    case 5 => ContextChecks() + PathChecks(96, 84)
    case 6 => ContextChecks()
    case 7 => ContextChecks() + TaskDenialChecks("tracee")
    case 8 => ContextChecks() + TaskDenialChecks("target")
    case 9 => ContextChecks() + [OptionalIdentifier("peer_domain", 80), NameLength(92)]
    case 10 => [Identifier("domain_id", 16)]
    case 11 => [Identifier("ruleset_id", 16)]
    case _ => [Identifier("domain_id", 16), Task("enforcing_tid", 24), FlagByte("complete", 28),
               FlagByte("process_wide", 29), FlagByte("no_new_privs", 30)]
  }

  predicate AllFit(checks: seq<Check>) {
    forall i :: 0 <= i < |checks| ==> Fits(checks[i], RECORD_SIZE)
  }

  /** The fault of the first check that finds one. */
  function First(order: ByteOrder, data: seq<Byte>, checks: seq<Check>): Option<DecodeError>
    requires |data| == RECORD_SIZE && AllFit(checks)
  {
    if checks == [] then None
    else
      var fault := Fault(order, data, checks[0]);
      if fault.Some? then fault else First(order, data, checks[1..])
  }

  /** Check `i` fails with the error, and none before it fails. */
  predicate FirstFault(order: ByteOrder, data: seq<Byte>, checks: seq<Check>, i: nat, error: DecodeError)
    requires |data| == RECORD_SIZE && AllFit(checks)
  {
    && i < |checks| && Fault(order, data, checks[i]) == Some(error)
    && forall j :: 0 <= j < i ==> Fault(order, data, checks[j]).None?
  }

  lemma {:induction false} FirstMeaning(order: ByteOrder, data: seq<Byte>, checks: seq<Check>, error: DecodeError)
    requires |data| == RECORD_SIZE && AllFit(checks)
    ensures First(order, data, checks) == Some(error) <==> exists i: nat :: FirstFault(order, data, checks, i, error)
  {
    if checks != [] {
      var rest := checks[1..];
      FirstMeaning(order, data, rest, error);
      if Fault(order, data, checks[0]).Some? {
        assert Fault(order, data, checks[0]) == Some(error) ==> FirstFault(order, data, checks, 0, error);
      } else {
        forall i: nat
          ensures FirstFault(order, data, checks, i + 1, error) <==> FirstFault(order, data, rest, i, error)
        {
          ShiftedFault(order, data, checks, i, error);
        }
        if exists i: nat :: FirstFault(order, data, checks, i, error) {
          var i: nat :| FirstFault(order, data, checks, i, error);
          assert FirstFault(order, data, rest, i - 1, error);
        }
      }
    }
  }

  lemma ShiftedFault(order: ByteOrder, data: seq<Byte>, checks: seq<Check>, i: nat, error: DecodeError)
    requires |data| == RECORD_SIZE && AllFit(checks) && checks != [] && Fault(order, data, checks[0]).None?
    ensures FirstFault(order, data, checks, i + 1, error) <==> FirstFault(order, data, checks[1..], i, error)
  {
    var rest := checks[1..];
    assert forall j :: 0 <= j < |rest| ==> rest[j] == checks[j + 1];
    if FirstFault(order, data, rest, i, error) {
      forall j | 0 <= j < i + 1 ensures Fault(order, data, checks[j]).None? {
        if j > 0 { assert Fault(order, data, rest[j - 1]).None?; }
      }
    }
    if FirstFault(order, data, checks, i + 1, error) {
      forall j | 0 <= j < i ensures Fault(order, data, rest[j]).None? {
        assert Fault(order, data, checks[j + 1]).None?;
      }
    }
  }

  lemma {:induction false} FirstConcat(order: ByteOrder, data: seq<Byte>, a: seq<Check>, b: seq<Check>)
    requires |data| == RECORD_SIZE && AllFit(a) && AllFit(b)
    ensures AllFit(a + b)
    ensures var first := First(order, data, a);
            First(order, data, a + b) == if first.Some? then first else First(order, data, b)
  {
    if a == [] {
      assert a + b == b;
    } else {
      assert (a + b)[1..] == a[1..] + b;
      FirstConcat(order, data, a[1..], b);
    }
  }

  lemma FirstSingle(order: ByteOrder, data: seq<Byte>, c: Check)
    requires |data| == RECORD_SIZE && Fits(c, RECORD_SIZE)
    ensures First(order, data, [c]) == Fault(order, data, c)
  {
    assert [c][1..] == [];
  }

  /** A check in front of others. */
  lemma FirstOf(order: ByteOrder, data: seq<Byte>, c: Check, rest: seq<Check>)
    requires |data| == RECORD_SIZE && Fits(c, RECORD_SIZE) && AllFit(rest)
    ensures AllFit([c] + rest)
    ensures var fault := Fault(order, data, c);
            First(order, data, [c] + rest) == if fault.Some? then fault else First(order, data, rest)
  {
    FirstSingle(order, data, c);
    FirstConcat(order, data, [c], rest);
  }

  lemma FirstTwo(order: ByteOrder, data: seq<Byte>, a: Check, b: Check)
    requires |data| == RECORD_SIZE && Fits(a, RECORD_SIZE) && Fits(b, RECORD_SIZE)
    ensures AllFit([a, b])
    ensures var fa := Fault(order, data, a);
            First(order, data, [a, b]) == if fa.Some? then fa else Fault(order, data, b)
  {
    FirstSingle(order, data, b);
    FirstOf(order, data, a, [b]);
    assert [a, b] == [a] + [b];
  }

  lemma FirstThree(order: ByteOrder, data: seq<Byte>, a: Check, b: Check, c: Check)
    requires |data| == RECORD_SIZE && Fits(a, RECORD_SIZE) && Fits(b, RECORD_SIZE) && Fits(c, RECORD_SIZE)
    ensures AllFit([a, b, c])
    ensures var fa, fb := Fault(order, data, a), Fault(order, data, b);
            First(order, data, [a, b, c]) == if fa.Some? then fa else if fb.Some? then fb else Fault(order, data, c)
  {
    FirstTwo(order, data, b, c);
    FirstOf(order, data, a, [b, c]);
    assert [a, b, c] == [a] + [b, c];
  }

  /** Four checks one after the other. */
  lemma FirstFour(order: ByteOrder, data: seq<Byte>, a: Check, b: Check, c: Check, d: Check)
    requires |data| == RECORD_SIZE
    requires Fits(a, RECORD_SIZE) && Fits(b, RECORD_SIZE) && Fits(c, RECORD_SIZE) && Fits(d, RECORD_SIZE)
    ensures AllFit([a, b, c, d])
    ensures var fa, fb, fc := Fault(order, data, a), Fault(order, data, b), Fault(order, data, c);
            First(order, data, [a, b, c, d]) ==
            if fa.Some? then fa else if fb.Some? then fb else if fc.Some? then fc else Fault(order, data, d)
  {
    FirstThree(order, data, b, c, d);
    FirstOf(order, data, a, [b, c, d]);
    assert [a, b, c, d] == [a] + [b, c, d];
  }

  // ----- each reader fails exactly as its check does -----

  function ErrorOf<T>(r: Decoding<T>): Option<DecodeError> {
    if r.Err? then Some(r.error) else None
  }

  lemma IdentifierChecked(order: ByteOrder, data: seq<Byte>, offset: nat, field: string)
    requires offset + 8 <= |data|
    ensures ErrorOf(IdAt(order, data, offset, field)) == Fault(order, data, Identifier(field, offset))
  {
  }

  lemma OptionalIdentifierChecked(order: ByteOrder, data: seq<Byte>, offset: nat, field: string)
    requires offset + 8 <= |data|
    ensures ErrorOf(ParentAt(order, data, offset, field)) == Fault(order, data, OptionalIdentifier(field, offset))
    ensures ErrorOf(MembershipAt(order, data, offset, field)) == Fault(order, data, OptionalIdentifier(field, offset))
  {
  }

  lemma TaskChecked(order: ByteOrder, data: seq<Byte>, offset: nat, field: string)
    requires offset + 4 <= |data|
    ensures ErrorOf(TaskIdAt(order, data, offset, field)) == Fault(order, data, Task(field, offset))
  {
  }

  lemma FlagChecked(order: ByteOrder, data: seq<Byte>, offset: nat, field: string)
    requires offset < |data|
    ensures ErrorOf(BooleanAt(data, offset, field)) == Fault(order, data, FlagByte(field, offset))
  {
  }

  lemma CommandChecked(order: ByteOrder, data: seq<Byte>, offset: nat, field: string)
    requires offset + 16 <= |data|
    ensures ErrorOf(CommandAt(data, offset, field)) == Fault(order, data, CommandText(field, offset))
  {
    var value := data[offset..offset + 16];
    var text := value[..FirstNul(value)];
    assert 0 !in text;
    if FirstNul(value) == 16 {
      assert text == value;
    } else {
      assert value[FirstNul(value)] in value;
    }
  }

  lemma PathChecked(order: ByteOrder, data: seq<Byte>, offset: nat, omitted: nat)
    requires |data| == RECORD_SIZE && offset + 256 <= |data| && omitted < |data|
    ensures AllFit(PathChecks(offset, omitted))
    ensures ErrorOf(CapturedAt(data, offset, omitted)) == First(order, data, PathChecks(offset, omitted))
  {
    FlagChecked(order, data, omitted, "pathname_bytes_omitted");
    FirstSingle(order, data, FullPath(offset, omitted));
    FirstOf(order, data, FlagByte("pathname_bytes_omitted", omitted), [FullPath(offset, omitted)]);
    assert PathChecks(offset, omitted) == [FlagByte("pathname_bytes_omitted", omitted)] + [FullPath(offset, omitted)];
    var value := data[offset..offset + 256];
    assert 0 !in value[..FirstNul(value)];
  }

  lemma NameLengthChecked(order: ByteOrder, data: seq<Byte>)
    requires |data| == RECORD_SIZE
    ensures ErrorOf(AbstractNameAt(order, data, 92, 96)) == Fault(order, data, NameLength(92))
  {
  }

  lemma HierarchyChecked(order: ByteOrder, data: seq<Byte>)
    requires |data| == RECORD_SIZE
    ensures AllFit(HierarchyChecks())
    ensures ErrorOf(HierarchyAt(order, data)) == First(order, data, HierarchyChecks())
  {
    var c := HierarchyChecks();
    IdentifierChecked(order, data, 16, "domain_id");
    OptionalIdentifierChecked(order, data, 24, "parent_id");
    TaskChecked(order, data, 32, "creator_tgid");
    CommandChecked(order, data, 36, "creator_comm");
    FirstFour(order, data, c[0], c[1], c[2], c[3]);
  }

  lemma ContextChecked(order: ByteOrder, data: seq<Byte>)
    requires |data| == RECORD_SIZE
    ensures AllFit(ContextChecks())
    ensures ErrorOf(DenialContextAt(order, data)) == First(order, data, ContextChecks())
  {
    HierarchyChecked(order, data);
    FlagChecked(order, data, 72, "same_exec");
    FlagChecked(order, data, 73, "logged");
    FirstTwo(order, data, FlagByte("same_exec", 72), FlagByte("logged", 73));
    FirstConcat(order, data, HierarchyChecks(), [FlagByte("same_exec", 72), FlagByte("logged", 73)]);
  }

  // ----- each kind -----

  /** The decoder of a kind fails exactly as the first failing check of that kind. */
  ghost predicate KindChecked(order: ByteOrder, data: seq<Byte>, kind: nat, t: nat)
    requires |data| == RECORD_SIZE && 1 <= kind <= 12
  {
    AllFit(Checks(kind)) && ErrorOf(DecodeKind(order, data, kind, t)) == First(order, data, Checks(kind))
  }

  lemma RulesetKindsChecked(order: ByteOrder, data: seq<Byte>, kind: nat, t: nat)
    requires |data| == RECORD_SIZE && (kind == 1 || kind == 3 || kind == 11)
    ensures KindChecked(order, data, kind, t)
  {
    IdentifierChecked(order, data, 16, "ruleset_id");
    FirstSingle(order, data, Identifier("ruleset_id", 16));
  }

  lemma FreeDomainChecked(order: ByteOrder, data: seq<Byte>, t: nat)
    requires |data| == RECORD_SIZE
    ensures KindChecked(order, data, 10, t)
  {
    IdentifierChecked(order, data, 16, "domain_id");
    FirstSingle(order, data, Identifier("domain_id", 16));
  }

  lemma PathRuleChecked(order: ByteOrder, data: seq<Byte>, t: nat)
    requires |data| == RECORD_SIZE
    ensures KindChecked(order, data, 2, t)
  {
    IdentifierChecked(order, data, 16, "ruleset_id");
    PathChecked(order, data, 56, 44);
    FirstOf(order, data, Identifier("ruleset_id", 16), PathChecks(56, 44));
  }

  lemma FiveChecked(order: ByteOrder, data: seq<Byte>, c: seq<Check>)
    requires |data| == RECORD_SIZE && |c| == 5 && AllFit(c)
    ensures var f0, f1 := Fault(order, data, c[0]), Fault(order, data, c[1]);
            var f2, f3 := Fault(order, data, c[2]), Fault(order, data, c[3]);
            First(order, data, c) ==
            if f0.Some? then f0 else if f1.Some? then f1 else if f2.Some? then f2 else if f3.Some? then f3
            else Fault(order, data, c[4])
  {
    FirstFour(order, data, c[1], c[2], c[3], c[4]);
    FirstOf(order, data, c[0], [c[1], c[2], c[3], c[4]]);
    assert c == [c[0]] + [c[1], c[2], c[3], c[4]];
  }

  lemma CreateDomainChecked(order: ByteOrder, data: seq<Byte>, t: nat)
    requires |data| == RECORD_SIZE
    ensures KindChecked(order, data, 4, t)
  {
    IdentifierChecked(order, data, 16, "ruleset_id");
    IdentifierChecked(order, data, 32, "domain_id");
    OptionalIdentifierChecked(order, data, 40, "parent_id");
    TaskChecked(order, data, 48, "creator_tgid");
    CommandChecked(order, data, 52, "creator_comm");
    FiveChecked(order, data, Checks(4));
  }

  lemma EnforceDomainChecked(order: ByteOrder, data: seq<Byte>, t: nat)
    requires |data| == RECORD_SIZE
    ensures KindChecked(order, data, 12, t)
  {
    IdentifierChecked(order, data, 16, "domain_id");
    TaskChecked(order, data, 24, "enforcing_tid");
    FlagChecked(order, data, 28, "complete");
    FlagChecked(order, data, 29, "process_wide");
    FlagChecked(order, data, 30, "no_new_privs");
    FiveChecked(order, data, Checks(12));
  }

  lemma FilesystemDenialChecked(order: ByteOrder, data: seq<Byte>, t: nat)
    requires |data| == RECORD_SIZE
    ensures KindChecked(order, data, 5, t)
  {
    ContextChecked(order, data);
    PathChecked(order, data, 96, 84);
    FirstConcat(order, data, ContextChecks(), PathChecks(96, 84));
  }

  lemma NetworkDenialChecked(order: ByteOrder, data: seq<Byte>, t: nat)
    requires |data| == RECORD_SIZE
    ensures KindChecked(order, data, 6, t)
  {
    ContextChecked(order, data);
  }

  lemma TaskDenialChecked(order: ByteOrder, data: seq<Byte>, t: nat, party: string, ptrace: bool)
    requires |data| == RECORD_SIZE
    ensures AllFit(ContextChecks() + TaskDenialChecks(party))
    ensures ErrorOf(DecodeTaskDenial(order, data, t, party, ptrace)) ==
            First(order, data, ContextChecks() + TaskDenialChecks(party))
  {
    ContextChecked(order, data);
    OptionalIdentifierChecked(order, data, 80, party + "_domain");
    TaskChecked(order, data, 88, party + "_pid");
    CommandChecked(order, data, 92, party + "_comm");
    var c := TaskDenialChecks(party);
    FirstThree(order, data, c[0], c[1], c[2]);
    FirstConcat(order, data, ContextChecks(), c);
  }

  lemma AbstractDenialChecked(order: ByteOrder, data: seq<Byte>, t: nat)
    requires |data| == RECORD_SIZE
    ensures KindChecked(order, data, 9, t)
  {
    ContextChecked(order, data);
    OptionalIdentifierChecked(order, data, 80, "peer_domain");
    NameLengthChecked(order, data);
    FirstTwo(order, data, OptionalIdentifier("peer_domain", 80), NameLength(92));
    FirstConcat(order, data, ContextChecks(), [OptionalIdentifier("peer_domain", 80), NameLength(92)]);
  }

  lemma KindsChecked(order: ByteOrder, data: seq<Byte>, kind: nat, t: nat)
    requires |data| == RECORD_SIZE && 1 <= kind <= 12
    ensures KindChecked(order, data, kind, t)
  {
    if kind == 2 { PathRuleChecked(order, data, t); }
    else if kind == 4 { CreateDomainChecked(order, data, t); }
    else if kind == 5 { FilesystemDenialChecked(order, data, t); }
    else if kind == 6 { NetworkDenialChecked(order, data, t); }
    else if kind == 7 { TaskDenialChecked(order, data, t, "tracee", true); }
    else if kind == 8 { TaskDenialChecked(order, data, t, "target", false); }
    else if kind == 9 { AbstractDenialChecked(order, data, t); }
    else if kind == 12 { EnforceDomainChecked(order, data, t); }
    else if kind == 10 { FreeDomainChecked(order, data, t); }
    else { RulesetKindsChecked(order, data, kind, t); }
  }

  // ----- every rejection -----

  /** The one error of a record, if it has one. */
  ghost predicate Rejected(order: ByteOrder, data: seq<Byte>, error: DecodeError) {
    if |data| != RECORD_SIZE then error == Length(RECORD_SIZE, |data|)
    else if !(1 <= data[8] <= 12) then error == EventKind(data[8])
    else AllFit(Checks(data[8])) && exists i: nat :: FirstFault(order, data, Checks(data[8]), i, error)
  }

  /** A record is rejected with an error if and only if that is its length error, its kind
      error, or the fault found by the first failing check of its kind. */
  lemma RejectedIff(order: ByteOrder, data: seq<Byte>, error: DecodeError)
    ensures Decode(order, data) == Err(error) <==> Rejected(order, data, error)
  {
    if |data| == RECORD_SIZE {
      var t, kind := Value(order, data[0..8]), data[8];
      assert Decode(order, data) == DecodeKind(order, data, kind, t);
      if 1 <= kind <= 12 {
        KindsChecked(order, data, kind, t);
        FirstMeaning(order, data, Checks(kind), error);
      }
    }
  }

  /** No complete record lacks a field, and the only captured-bytes faults are an unterminated
      command and an omission mark on a path that fits. */
  lemma ReachableErrors(order: ByteOrder, data: seq<Byte>)
    requires Decode(order, data).Err?
    ensures var error := Decode(order, data).error;
            && !error.Field?
            && (error.Length? <==> |data| != RECORD_SIZE)
            && (error.CapturedBytesRejected? ==>
                  || error.source == TooLong(COMM_SIZE, COMM_SIZE - 1)
                  || (error.field == "pathname" && error.source.OmissionRequiresFullCapacity? &&
                     error.source.length < PATH_SIZE))
  {
    var error := Decode(order, data).error;
    RejectedIff(order, data, error);
    if |data| == RECORD_SIZE && 1 <= data[8] <= 12 {
      var i: nat :| FirstFault(order, data, Checks(data[8]), i, error);
    }
  }
}
