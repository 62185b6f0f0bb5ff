/** The text of filesystem blockers, in the batch protocol and in the terminal
    interface: nothing about the request is lost in either. */
module BlockerText {
  import opened Events
  import opened Text
  import opened Masks
  import Bits

  const FS_CHANGE_TOPOLOGY := 2
  const FS_ACCESS := 3
  const NET_ACCESS := 4

  datatype FilesystemBlockers =
    | Access(access: AccessMask)
    | ChangeTopology
    | Other(requestType: nat, otherAccess: AccessMask)

  function Classify(requestType: nat, access: AccessMask): FilesystemBlockers {
    if requestType == FS_ACCESS then Access(access)
    else if requestType == FS_CHANGE_TOPOLOGY && access == 0 then ChangeTopology
    else Other(requestType, access)
  }

  function Prefixed(n: nat): string {
    "0x" + Hex(n)
  }

  function NameStrings(names: seq<NamedBit>): (r: seq<string>)
    ensures |r| == |names|
    ensures forall i :: 0 <= i < |r| ==> r[i] == names[i].name
  {
    seq(|names|, i requires 0 <= i < |names| => names[i].name)
  }

  /** Known names, then the unknown bits in hexadecimal when there are any or
      when there is nothing else to say. */
  function AccessParts(table: Table, mask: AccessMask): seq<string> {
    var names, unknown := NameStrings(KnownNames(table, mask)), UnknownBits(table, mask);
    names + if unknown != 0 || names == [] then [Prefixed(unknown)] else []
  }

  /** The comma-separated parts both renderings share. */
  function Parts(table: Table, b: FilesystemBlockers): seq<string> {
    match b
    case Access(access) => AccessParts(table, access)
    case ChangeTopology => ["change_topology"]
    case Other(requestType, access) =>
      [if requestType == FS_CHANGE_TOPOLOGY then "change_topology" else "request_type=" + Prefixed(requestType),
       "access=" + Prefixed(access)]
  }

  /** lltop/src/batch.rs, `filesystem_blockers`: an empty mask is a bare `0x0`. */
  function BatchText(table: Table, b: FilesystemBlockers): string {
    if b.Access? && b.access == 0 then "0x0" else "FS:" + Join(Parts(table, b), ",")
  }

  /** lltop/src/tui/format.rs, `filesystem_blocker`. */
  function ScreenText(table: Table, b: FilesystemBlockers): string {
    "FS: " + Join(Parts(table, b), ", ")
  }

  // ----- recovering the parts -----

  ghost predicate CommaFree(parts: seq<string>) {
    forall i :: 0 <= i < |parts| ==> ',' !in parts[i]
  }

  /** The same list with a space in front of every element but the first. */
  function Spaced(parts: seq<string>): seq<string> {
    if parts == [] then [] else [parts[0]] + Indented(parts[1..])
  }

  function Indented(parts: seq<string>): (r: seq<string>)
    ensures |r| == |parts|
    ensures forall i :: 0 <= i < |r| ==> r[i] == [' '] + parts[i]
  {
    seq(|parts|, i requires 0 <= i < |parts| => [' '] + parts[i])
  }

  lemma JoinFirst(first: string, rest: seq<string>, sep: string)
    requires rest != []
    ensures Join([first] + rest, sep) == first + sep + Join(rest, sep)
  {
    assert ([first] + rest)[1..] == rest;
  }

  lemma {:induction false} JoinIndented(parts: seq<string>)
    requires parts != []
    ensures Join(Indented(parts), ",") == [' '] + Join(parts, ", ")
  {
    if |parts| > 1 {
      var rest := parts[1..];
      JoinIndented(rest);
      assert Indented(parts) == [[' '] + parts[0]] + Indented(rest);
      JoinFirst([' '] + parts[0], Indented(rest), ",");
      assert parts == [parts[0]] + rest;
      JoinFirst(parts[0], rest, ", ");
      JoinAfter([' '] + parts[0], Join(rest, ", "));
      assert [' '] + (parts[0] + ", " + Join(rest, ", ")) == [' '] + parts[0] + ", " + Join(rest, ", ");
    }
  }

  /** A comma and an indented rest are a comma, a space and the rest. */
  lemma JoinAfter(first: string, rest: string)
    ensures first + "," + ([' '] + rest) == first + ", " + rest
  {
  }

  lemma JoinSpaced(parts: seq<string>)
    requires parts != []
    ensures Join(parts, ", ") == Join(Spaced(parts), ",")
  {
    if |parts| > 1 {
      var rest := parts[1..];
      JoinIndented(rest);
      JoinFirst(parts[0], Indented(rest), ",");
      assert parts == [parts[0]] + rest;
      JoinFirst(parts[0], rest, ", ");
      JoinAfter(parts[0], Join(rest, ", "));
    }
  }

  lemma SpacedInjective(a: seq<string>, b: seq<string>)
    requires a != [] && b != [] && Spaced(a) == Spaced(b)
    ensures a == b
  {
    assert a[0] == Spaced(a)[0] && b[0] == Spaced(b)[0];
    assert |a| == |Spaced(a)| && |b| == |Spaced(b)|;
    forall i | 1 <= i < |a| ensures a[i] == b[i] {
      assert Spaced(a)[i] == [' '] + a[i] && Spaced(b)[i] == [' '] + b[i];
      assert a[i] == Spaced(a)[i][1..] && b[i] == Spaced(b)[i][1..];
    }
  }

  lemma SpacedCommaFree(parts: seq<string>)
    requires CommaFree(parts)
    ensures CommaFree(Spaced(parts))
  {
  }

  /** Either separator lets the parts be recovered. */
  lemma JoinInjective(a: seq<string>, b: seq<string>)
    requires a != [] && b != [] && CommaFree(a) && CommaFree(b)
    ensures Join(a, ",") == Join(b, ",") ==> a == b
    ensures Join(a, ", ") == Join(b, ", ") ==> a == b
  {
    SplitJoin(a, ',');
    SplitJoin(b, ',');
    if Join(a, ", ") == Join(b, ", ") {
      JoinSpaced(a);
      JoinSpaced(b);
      SpacedCommaFree(a);
      SpacedCommaFree(b);
      SplitJoin(Spaced(a), ',');
      SplitJoin(Spaced(b), ',');
      SpacedInjective(a, b);
    }
  }

  // ----- suitable name tables -----

  predicate SuitableName(name: string) {
    && name != "" && name[0] != '0'
    && ',' !in name && '=' !in name && ' ' !in name
    && name != "change_topology"
  }

  ghost predicate SuitableTable(table: Table) {
    && (forall i :: 0 <= i < |table| ==> SuitableName(table[i].name))
    && (forall i, j :: 0 <= i < j < |table| ==> table[i].name != table[j].name && table[i].index != table[j].index)
  }

  lemma HexHolds(n: nat, c: char)
    requires !IsHexDigit(c) && c != 'x'
    ensures c !in Prefixed(n)
  {
    HexRoundTrip(n);
  }

  lemma KnownNameSuitable(table: Table, mask: AccessMask, i: nat)
    requires SuitableTable(table) && i < |KnownNames(table, mask)|
    ensures SuitableName(KnownNames(table, mask)[i].name)
  {
    KnownNamesMembers(table, mask, KnownNames(table, mask)[i]);
  }

  /** Neither separator of a list of parts. */
  predicate Plain(part: string) {
    ',' !in part && ' ' !in part
  }

  lemma AccessPartsPlain(table: Table, access: AccessMask)
    requires SuitableTable(table)
    ensures forall i :: 0 <= i < |AccessParts(table, access)| ==> Plain(AccessParts(table, access)[i])
  {
    HexHolds(UnknownBits(table, access), ',');
    HexHolds(UnknownBits(table, access), ' ');
    forall i | 0 <= i < |KnownNames(table, access)| ensures SuitableName(KnownNames(table, access)[i].name) {
      KnownNameSuitable(table, access, i);
    }
  }

  lemma NumberPartsPlain(n: nat)
    ensures Plain("request_type=" + Prefixed(n)) && Plain("access=" + Prefixed(n))
  {
    HexHolds(n, ',');
    HexHolds(n, ' ');
  }

  lemma PartsCommaFree(table: Table, b: FilesystemBlockers)
    requires SuitableTable(table)
    ensures Parts(table, b) != [] && CommaFree(Parts(table, b))
    ensures forall i :: 0 <= i < |Parts(table, b)| ==> ' ' !in Parts(table, b)[i]
  {
    match b
    case Access(access) => AccessPartsPlain(table, access);
    case ChangeTopology => assert Plain("change_topology");
    case Other(requestType, access) =>
      NumberPartsPlain(requestType);
      NumberPartsPlain(access);
      assert Plain("change_topology");
  }

  // ----- losslessness -----

  lemma PrefixedInjective(a: nat, b: nat)
    requires Prefixed(a) == Prefixed(b)
    ensures a == b
  {
    assert Prefixed(a)[2..] == Hex(a) && Prefixed(b)[2..] == Hex(b);
    HexInjective(a, b);
  }

  lemma MaskFromNames(table: Table, a: AccessMask, b: AccessMask)
    requires SuitableTable(table)
    requires NameStrings(KnownNames(table, a)) == NameStrings(KnownNames(table, b))
    requires UnknownBits(table, a) == UnknownBits(table, b)
    ensures a == b
  {
    forall i: nat ensures Bits.Bit(a, i) == Bits.Bit(b, i) {
      TableMaskBits(table, i);
      Bits.BitAndNot(a, TableMask(table), i);
      Bits.BitAndNot(b, TableMask(table), i);
      if Listed(table, i) {
        var k :| 0 <= k < |table| && table[k].index == i;
        NameShowsBit(table, a, k);
        NameShowsBit(table, b, k);
      }
    }
    Bits.Extensional(a, b);
  }

  lemma NameShowsBit(table: Table, mask: AccessMask, k: nat)
    requires SuitableTable(table) && k < |table|
    ensures table[k].name in NameStrings(KnownNames(table, mask)) <==> Bits.Bit(mask, table[k].index)
  {
    var names := KnownNames(table, mask);
    KnownNamesMembers(table, mask, table[k]);
    if table[k] in names {
      var m :| 0 <= m < |names| && names[m] == table[k];
      assert NameStrings(names)[m] == table[k].name;
    }
    if table[k].name in NameStrings(names) {
      var m :| 0 <= m < |names| && names[m].name == table[k].name;
      KnownNamesMembers(table, mask, names[m]);
      var j :| 0 <= j < |table| && table[j] == names[m];
    }
  }

  /** The last part of an access list starts with `0` exactly when it is the hexadecimal one. */
  lemma AccessPartsShape(table: Table, mask: AccessMask)
    requires SuitableTable(table)
    ensures var parts, names := AccessParts(table, mask), NameStrings(KnownNames(table, mask));
            && parts != []
            && parts[|parts| - 1] != ""
            && (parts[|parts| - 1][0] == '0' <==> |parts| == |names| + 1)
            && (parts[|parts| - 1][0] == '0' ==> parts == names + [Prefixed(UnknownBits(table, mask))])
            && (parts[|parts| - 1][0] != '0' ==> parts == names && UnknownBits(table, mask) == 0)
    ensures forall i :: 0 <= i < |AccessParts(table, mask)| ==>
              '=' !in AccessParts(table, mask)[i] && AccessParts(table, mask)[i] != "change_topology"
  {
    HexHolds(UnknownBits(table, mask), '=');
    forall i | 0 <= i < |KnownNames(table, mask)| ensures SuitableName(KnownNames(table, mask)[i].name) {
      KnownNameSuitable(table, mask, i);
    }
  }

  lemma AccessPartsInjective(table: Table, a: AccessMask, b: AccessMask)
    requires SuitableTable(table)
    requires AccessParts(table, a) == AccessParts(table, b)
    ensures a == b
  {
    AccessPartsShape(table, a);
    AccessPartsShape(table, b);
    var parts := AccessParts(table, a);
    var na, nb := NameStrings(KnownNames(table, a)), NameStrings(KnownNames(table, b));
    if parts[|parts| - 1][0] == '0' {
      assert parts[|parts| - 1] == Prefixed(UnknownBits(table, a)) == Prefixed(UnknownBits(table, b));
      PrefixedInjective(UnknownBits(table, a), UnknownBits(table, b));
      assert na == parts[..|parts| - 1] == nb;
    }
    MaskFromNames(table, a, b);
  }

  lemma RequestTypeText(n: nat)
    ensures '=' in "request_type=" + Prefixed(n)
    ensures ("request_type=" + Prefixed(n))[13..] == Prefixed(n)
    ensures ("access=" + Prefixed(n))[7..] == Prefixed(n)
    ensures '=' in "access=" + Prefixed(n)
  {
    assert ("request_type=" + Prefixed(n))[12] == '=';
    assert ("access=" + Prefixed(n))[6] == '=';
  }

  lemma PartsInjective(table: Table, t1: nat, m1: AccessMask, t2: nat, m2: AccessMask)
    requires SuitableTable(table)
    requires Parts(table, Classify(t1, m1)) == Parts(table, Classify(t2, m2))
    ensures t1 == t2 && m1 == m2
  {
    var a, b := Classify(t1, m1), Classify(t2, m2);
    AccessPartsShape(table, m1);
    AccessPartsShape(table, m2);
    RequestTypeText(t1);
    RequestTypeText(t2);
    RequestTypeText(m1);
    RequestTypeText(m2);
    if a.Access? && b.Access? {
      AccessPartsInjective(table, m1, m2);
    } else if a.Other? && b.Other? {
      assert Parts(table, a)[1][7..] == Parts(table, b)[1][7..];
      PrefixedInjective(m1, m2);
      if t1 != FS_CHANGE_TOPOLOGY {
        assert Parts(table, a)[0][13..] == Parts(table, b)[0][13..];
        PrefixedInjective(t1, t2);
      }
    }
  }

  lemma BatchTextIsJoin(table: Table, b: FilesystemBlockers)
    requires SuitableTable(table)
    ensures BatchText(table, b) != ""
    ensures BatchText(table, b)[0] == '0' <==> b == Access(0)
    ensures b != Access(0) ==> BatchText(table, b)[3..] == Join(Parts(table, b), ",")
  {
  }

  /** Both renderings determine the request type and the whole mask; grouping
      by text is grouping by blocker pair. */
  lemma BlockerTextInjective(table: Table, t1: nat, m1: AccessMask, t2: nat, m2: AccessMask)
    requires SuitableTable(table)
    ensures BatchText(table, Classify(t1, m1)) == BatchText(table, Classify(t2, m2)) <==> t1 == t2 && m1 == m2
    ensures ScreenText(table, Classify(t1, m1)) == ScreenText(table, Classify(t2, m2)) <==> t1 == t2 && m1 == m2
  {
    var a, b := Classify(t1, m1), Classify(t2, m2);
    PartsCommaFree(table, a);
    PartsCommaFree(table, b);
    JoinInjective(Parts(table, a), Parts(table, b));
    BatchTextIsJoin(table, a);
    BatchTextIsJoin(table, b);
    if Parts(table, a) == Parts(table, b) {
      PartsInjective(table, t1, m1, t2, m2);
    }
    assert ScreenText(table, a)[4..] == Join(Parts(table, a), ", ");
    assert ScreenText(table, b)[4..] == Join(Parts(table, b), ", ");
  }

  // ----- the tables of src/event/access_names.rs -----

  /** A table naming bits 0, 1, 2, … in order. */
  function NumberedTable(names: seq<string>): (table: Table)
    ensures |table| == |names|
    ensures forall i :: 0 <= i < |table| ==> table[i] == NamedBit(i, names[i])
  {
    seq(|names|, i requires 0 <= i < |names| => NamedBit(i, names[i]))
  }

  const FILESYSTEM_ACCESS_NAMES: seq<string> := [
    "execute", "write_file", "read_file", "read_dir", "remove_dir", "remove_file", "make_char", "make_dir", "make_reg",
    "make_sock", "make_fifo", "make_block", "make_sym", "refer", "truncate", "ioctl_dev", "resolve_unix"]

  const NETWORK_ACCESS_NAMES: seq<string> := ["bind_tcp", "connect_tcp", "bind_udp", "connect_send_udp"]

  const FILESYSTEM_TABLE := NumberedTable(FILESYSTEM_ACCESS_NAMES)
  const NETWORK_TABLE := NumberedTable(NETWORK_ACCESS_NAMES)

  lemma FilesystemNamesSuitable(i: nat)
    requires i < |FILESYSTEM_ACCESS_NAMES|
    ensures SuitableName(FILESYSTEM_ACCESS_NAMES[i])
  {
  }

  lemma FilesystemNamesDistinct(i: nat, j: nat)
    requires i < j < |FILESYSTEM_ACCESS_NAMES|
    ensures FILESYSTEM_ACCESS_NAMES[i] != FILESYSTEM_ACCESS_NAMES[j]
  {
  }

  lemma FilesystemTableSuitable()
    ensures SuitableTable(FILESYSTEM_TABLE)
  {
    var table := FILESYSTEM_TABLE;
    forall i | 0 <= i < |table| ensures SuitableName(table[i].name) { FilesystemNamesSuitable(i); }
    forall i, j | 0 <= i < j < |table| ensures table[i].name != table[j].name { FilesystemNamesDistinct(i, j); }
  }

  lemma NetworkTableSuitable()
    ensures SuitableTable(NETWORK_TABLE)
  {
    var names := NETWORK_ACCESS_NAMES;
    forall i | 0 <= i < |names| ensures SuitableName(names[i]) { }
    forall i, j | 0 <= i < j < |names| ensures names[i] != names[j] { }
  }

  /** A mask with this one bit is shown by this one name. */
  ghost predicate Shows(table: Table, mask: AccessMask, name: string) {
    AccessParts(table, mask) == [name]
  }

  lemma {:induction false} OneNameKnown(table: Table, i: nat)
    requires forall k :: 0 <= k < |table| ==> table[k].index == k
    ensures KnownNames(table, SingleBit(i)) == if i < |table| then [table[i]] else []
  {
    if table != [] {
      var n := |table| - 1;
      OneNameKnown(table[..n], i);
      AndSingleBit(SingleBit(i), n);
      SingleBitBits(i, n);
    }
  }

  lemma OneBitShown(table: Table, i: nat)
    requires i < |table| && forall k :: 0 <= k < |table| ==> table[k].index == k
    ensures Shows(table, SingleBit(i), table[i].name)
  {
    OneNameKnown(table, i);
    assert table[i].index == i && Listed(table, i);
    var unknown := UnknownBits(table, SingleBit(i));
    if unknown != 0 {
      var j := Bits.SomeBit(unknown);
      Bits.BitAndNot(SingleBit(i), TableMask(table), j);
      SingleBitBits(i, j);
      TableMaskBits(table, j);
    }
  }

  lemma FilesystemBits()
    ensures Shows(FILESYSTEM_TABLE, 0x1, "execute")
    ensures Shows(FILESYSTEM_TABLE, 0x2, "write_file")
    ensures Shows(FILESYSTEM_TABLE, 0x4, "read_file")
    ensures Shows(FILESYSTEM_TABLE, 0x8, "read_dir")
    ensures Shows(FILESYSTEM_TABLE, 0x10, "remove_dir")
    ensures Shows(FILESYSTEM_TABLE, 0x20, "remove_file")
    ensures Shows(FILESYSTEM_TABLE, 0x40, "make_char")
    ensures Shows(FILESYSTEM_TABLE, 0x80, "make_dir")
    ensures Shows(FILESYSTEM_TABLE, 0x100, "make_reg")
    ensures Shows(FILESYSTEM_TABLE, 0x200, "make_sock")
    ensures Shows(FILESYSTEM_TABLE, 0x400, "make_fifo")
    ensures Shows(FILESYSTEM_TABLE, 0x800, "make_block")
    ensures Shows(FILESYSTEM_TABLE, 0x1000, "make_sym")
    ensures Shows(FILESYSTEM_TABLE, 0x2000, "refer")
    ensures Shows(FILESYSTEM_TABLE, 0x4000, "truncate")
    ensures Shows(FILESYSTEM_TABLE, 0x8000, "ioctl_dev")
    ensures Shows(FILESYSTEM_TABLE, 0x10000, "resolve_unix")
  {
    var table := FILESYSTEM_TABLE;
    forall i: nat | i < 17 ensures Shows(table, SingleBit(i), FILESYSTEM_ACCESS_NAMES[i]) { OneBitShown(table, i); }
    SingleBits();
  }

  lemma NetworkBits()
    ensures Shows(NETWORK_TABLE, 0x1, "bind_tcp")
    ensures Shows(NETWORK_TABLE, 0x2, "connect_tcp")
    ensures Shows(NETWORK_TABLE, 0x4, "bind_udp")
    ensures Shows(NETWORK_TABLE, 0x8, "connect_send_udp")
  {
    var table := NETWORK_TABLE;
    forall i: nat | i < 4 ensures Shows(table, SingleBit(i), NETWORK_ACCESS_NAMES[i]) { OneBitShown(table, i); }
    SingleBits();
  }

  lemma SingleBits()
    ensures SingleBit(0) == 0x1
    ensures SingleBit(1) == 0x2
    ensures SingleBit(2) == 0x4
    ensures SingleBit(3) == 0x8
    ensures SingleBit(4) == 0x10
    ensures SingleBit(5) == 0x20
    ensures SingleBit(6) == 0x40
    ensures SingleBit(7) == 0x80
    ensures SingleBit(8) == 0x100
    ensures SingleBit(9) == 0x200
    ensures SingleBit(10) == 0x400
    ensures SingleBit(11) == 0x800
    ensures SingleBit(12) == 0x1000
    ensures SingleBit(13) == 0x2000
    ensures SingleBit(14) == 0x4000
    ensures SingleBit(15) == 0x8000
    ensures SingleBit(16) == 0x10000
  {
    assert SingleBit(4) == 0x10;
    assert SingleBit(8) == 0x100;
    assert SingleBit(12) == 0x1000;
  }
}
