/** Reading the lines of the batch protocol back: every fact stands where its label says,
    and can be recovered from the text alone. */
module BatchReader {
  import opened Events
  import opened State
  import opened Text
  import opened Escape
  import opened Aggregator
  import opened BatchLines
  import opened Masks
  import opened BlockerText
  import Bits

  // ----- parts of a line -----

  /** What follows the label. */
  function After(token: string, name: string): Option<string> {
    if name <= token then Some(token[|name|..]) else None
  }

  function HexIn(text: string): Option<nat> {
    if text != "" && AllHexDigits(text) then Some(HexValue(text)) else None
  }

  function DecimalIn(text: string): Option<nat> {
    if text != "" && AllHexDigits(text) then Some(DecimalValue(text)) else None
  }

  function NumberAfter(token: string, name: string): Option<nat> {
    var text := After(token, name);
    if text.None? then None else DecimalIn(text.value)
  }

  function IdAfter(token: string, name: string): Option<nat> {
    var text := After(token, name);
    if text.None? then None else HexIn(text.value)
  }

  function FlagIn(text: string): Option<bool> {
    if text == "1" then Some(true) else if text == "0" then Some(false) else None
  }

  function FlagAfter(token: string, name: string): Option<bool> {
    var text := After(token, name);
    if text.None? then None else FlagIn(text.value)
  }

  lemma AfterLabel(name: string, text: string)
    ensures After(name + text, name) == Some(text)
  {
  }

  lemma NumberRead(name: string, n: nat)
    ensures NumberAfter(name + Decimal(n), name) == Some(n)
  {
    AfterLabel(name, Decimal(n));
    DecimalRoundTrip(n);
  }

  lemma IdRead(name: string, n: nat)
    ensures IdAfter(name + Hex(n), name) == Some(n)
  {
    AfterLabel(name, Hex(n));
    HexRoundTrip(n);
  }

  lemma FlagRead(name: string, b: bool)
    ensures FlagAfter(name + FlagText(b), name) == Some(b)
  {
    AfterLabel(name, FlagText(b));
  }

  /** The two texts around the first separator. */
  function Pair(text: string, sep: char): Option<(string, string)> {
    var parts := Split(text, sep);
    if |parts| == 2 then Some((parts[0], parts[1])) else None
  }

  lemma PairRead(a: string, b: string, sep: char)
    requires sep !in a && sep !in b
    ensures Pair(a + [sep] + b, sep) == Some((a, b))
  {
    SplitToken(a, b, sep);
    SplitSingle(b, sep);
  }

  lemma NumberExcludes(n: nat, c: char)
    requires !IsHexDigit(c)
    ensures c !in Decimal(n) && c !in Hex(n)
  {
    DecimalRoundTrip(n);
    HexRoundTrip(n);
    DigitsOnly(Decimal(n), c);
    DigitsOnly(Hex(n), c);
  }

  // ----- rulesets -----

  function VersionIn(text: string): Option<RulesetVersion> {
    var parts := Pair(text, '.');
    if parts.None? then None
    else
      var id, version := HexIn(parts.value.0), DecimalIn(parts.value.1);
      if id.Some? && version.Some? then Some(RulesetVersion(id.value, version.value)) else None
  }

  lemma VersionRead(v: RulesetVersion)
    ensures VersionIn(VersionText(v)) == Some(v)
  {
    NumberExcludes(v.rulesetId, '.');
    NumberExcludes(v.version, '.');
    PairRead(Hex(v.rulesetId), Decimal(v.version), '.');
    HexRoundTrip(v.rulesetId);
    DecimalRoundTrip(v.version);
    assert VersionText(v) == Hex(v.rulesetId) + ['.'] + Decimal(v.version);
  }

  function ReadDrop(line: string): Option<RulesetVersion> {
    var tokens := Split(line, ' ');
    if |tokens| == 2 && tokens[0] == "DROP_RULESET" then
      var text := After(tokens[1], "ruleset=");
      if text.None? then None else VersionIn(text.value)
    else None
  }

  lemma DropRead(v: RulesetVersion)
    ensures ReadDrop(FormatDrop(v)) == Some(v)
  {
    DropTokensSpaceFree(v);
    LineTokens(DropTokens(v));
    AfterLabel("ruleset=", VersionText(v));
    VersionRead(v);
  }

  // ----- domains -----

  /** What a domain line says; a fact that is not known is absent. */
  datatype DomainFacts = DomainFacts(
    id: DomainId, parent: Option<DomainParent>, ruleset: Option<RulesetVersion>,
    creator: Option<(CapturedBytes, ProcessId)>, noNewPrivs: Option<bool>)

  function ParentIn(text: string): Option<DomainParent> {
    if text == "0" then Some(Root)
    else
      var id := HexIn(text);
      if id.Some? then Some(Domain(id.value)) else None
  }

  /** Zero is not an identifier and stands for the root. */
  lemma ParentRead(parent: Option<DomainParent>)
    ensures ParentIn(ParentText(parent)) == (if parent == Some(Domain(0)) then Some(Root) else parent)
  {
    if parent.Some? && parent.value.Domain? {
      HexRoundTrip(parent.value.id);
      assert parent.value.id == 0 ==> Hex(parent.value.id) == "0";
      assert HexValue("0") == 0 by { HexRoundTrip(0); }
    }
  }

  function CreatorIn(text: string): Option<(CapturedBytes, ProcessId)> {
    var parts := Pair(text, '[');
    if parts.None? || parts.value.1 == "" then None
    else
      var rest := parts.value.1;
      var tgid := DecimalIn(rest[..|rest| - 1]);
      if tgid.Some? && rest[|rest| - 1] == ']' then Some((Unescaped(parts.value.0), tgid.value)) else None
  }

  lemma CreatorRead(comm: Option<CapturedBytes>, tgid: Option<ProcessId>)
    ensures CreatorIn(CreatorText(comm, tgid)) ==
            if comm.Some? && tgid.Some? then Some((comm.value, tgid.value)) else None
  {
    if comm.Some? && tgid.Some? {
      var rest := Decimal(tgid.value) + "]";
      EscapedExcludes(comm.value, '[');
      NumberExcludes(tgid.value, '[');
      PairRead(Escaped(comm.value), rest, '[');
      assert CreatorText(comm, tgid) == Escaped(comm.value) + ['['] + rest;
      assert rest[..|rest| - 1] == Decimal(tgid.value);
      DecimalRoundTrip(tgid.value);
      EscapeRoundTrip(comm.value);
    } else {
      SplitSingle("?", '[');
    }
  }

  lemma RulesetRead(v: Option<RulesetVersion>)
    ensures VersionIn(RulesetText(v)) == v
  {
    if v.Some? { VersionRead(v.value); } else { SplitSingle("?", '.'); }
  }

  function ReadDomain(line: string): Option<DomainFacts> {
    var t := Split(line, ' ');
    if |t| == 6 && t[0] == "DOMAIN" then
      var id, parent, ruleset := IdAfter(t[1], "domain="), After(t[2], "parent="), After(t[3], "ruleset=");
      var creator, nnp := After(t[4], "creator="), After(t[5], "no_new_privs=");
      if id.Some? && parent.Some? && ruleset.Some? && creator.Some? && nnp.Some? then
        Some(DomainFacts(id.value, ParentIn(parent.value), VersionIn(ruleset.value), CreatorIn(creator.value),
                         FlagIn(nnp.value)))
      else None
    else None
  }

  /** A domain line says exactly what is known of the domain. */
  lemma DomainRead(d: DomainState)
    ensures ReadDomain(FormatDomain(d)) ==
            Some(DomainFacts(d.id, if d.parent == Some(Domain(0)) then Some(Root) else d.parent, d.ruleset,
                             if d.creatorComm.Some? && d.creatorTgid.Some?
                             then Some((d.creatorComm.value, d.creatorTgid.value)) else None,
                             NoNewPrivs(d)))
  {
    DomainTokensSpaceFree(d);
    LineTokens(DomainTokens(d));
    IdRead("domain=", d.id);
    AfterLabel("parent=", ParentText(d.parent));
    ParentRead(d.parent);
    AfterLabel("ruleset=", RulesetText(d.ruleset));
    RulesetRead(d.ruleset);
    AfterLabel("creator=", CreatorText(d.creatorComm, d.creatorTgid));
    CreatorRead(d.creatorComm, d.creatorTgid);
    AfterLabel("no_new_privs=", var nnp := NoNewPrivs(d); if nnp.Some? then FlagText(nnp.value) else "?");
  }

  // ----- statistics -----

  function ReadStats(line: string): Option<(nat, nat, Stats)> {
    var t := Split(line, ' ');
    if |t| == 8 && t[0] == "STATS" && t[7] != "" then
      var counts, all := After(t[1], "domains="), NumberAfter(t[2], "denials=");
      var fs, net, ptrace := NumberAfter(t[3], "(fs="), NumberAfter(t[4], "net="), NumberAfter(t[5], "ptrace=");
      var signal, abstractUnix := NumberAfter(t[6], "signal="), NumberAfter(t[7][..|t[7]| - 1], "abstract_unix=");
      if counts.Some? && all.Some? && fs.Some? && net.Some? && ptrace.Some? && signal.Some? && abstractUnix.Some? then
        var pair := Pair(counts.value, '/');
        if pair.Some? && DecimalIn(pair.value.0).Some? && DecimalIn(pair.value.1).Some? then
          Some((DecimalIn(pair.value.0).value, DecimalIn(pair.value.1).value,
                Stats(all.value, fs.value, net.value, ptrace.value, signal.value, abstractUnix.value)))
        else None
      else None
    else None
  }

  lemma CountsRead(live: nat, total: nat)
    ensures var text := After("domains=" + Decimal(live) + "/" + Decimal(total), "domains=");
            && text.Some?
            && var pair := Pair(text.value, '/');
               pair.Some? && DecimalIn(pair.value.0) == Some(live) && DecimalIn(pair.value.1) == Some(total)
  {
    var text := Decimal(live) + ['/'] + Decimal(total);
    assert "domains=" + Decimal(live) + "/" + Decimal(total) == "domains=" + text;
    AfterLabel("domains=", text);
    NumberExcludes(live, '/');
    NumberExcludes(total, '/');
    PairRead(Decimal(live), Decimal(total), '/');
    DecimalRoundTrip(live);
    DecimalRoundTrip(total);
  }

  /** A statistics line shows every counter under its own name. */
  lemma StatsRead(live: nat, total: nat, stats: Stats)
    ensures ReadStats(FormatStats(live, total, stats)) == Some((live, total, stats))
  {
    StatsTokensSpaceFree(live, total, stats);
    LineTokens(StatsTokens(live, total, stats));
    CountsRead(live, total);
    NumberRead("denials=", stats.totalDenials);
    NumberRead("(fs=", stats.fs);
    NumberRead("net=", stats.net);
    NumberRead("ptrace=", stats.ptrace);
    NumberRead("signal=", stats.signal);
    NumberRead("abstract_unix=", stats.abstractUnix);
    var last := "abstract_unix=" + Decimal(stats.abstractUnix);
    assert (last + ")")[..|last + ")"| - 1] == last;
  }

  // ----- denials -----

  /** What a denial line says. */
  datatype DenialFacts = DenialFacts(
    kind: DenialKind, domainId: DomainId, blockers: string, target: string,
    count: nat, age: string, sameExec: bool, logged: bool, party: Option<Membership>)

  function KindIn(text: string): Option<DenialKind> {
    if text == "FS" then Some(Fs)
    else if text == "NET" then Some(Net)
    else if text == "PTRACE" then Some(Ptrace)
    else if text == "SIGNAL" then Some(Signal)
    else if text == "ABSTRACT_UNIX" then Some(AbstractUnix)
    else None
  }

  function PartyName(kind: DenialKind): string {
    match kind
    case Fs => ""
    case Net => ""
    case Ptrace => "tracee_domain="
    case Signal => "target_domain="
    case AbstractUnix => "peer_domain="
  }

  function PartyIn(text: string): Option<Membership> {
    if text == "0" then Some(Unsandboxed)
    else
      var id := HexIn(text);
      if id.Some? then Some(Sandboxed(id.value)) else None
  }

  function SubjectIn(t: seq<string>): Option<(DenialKind, DomainId)> {
    if |t| == 3 && t[0] == "DENIAL" then
      var named, id := After(t[1], "type="), IdAfter(t[2], "domain=");
      if named.Some? && id.Some? && KindIn(named.value).Some? then Some((KindIn(named.value).value, id.value)) else None
    else None
  }

  function RequestIn(t: seq<string>): Option<(string, string)> {
    if |t| == 2 then
      var blockers, target := After(t[0], "blockers="), After(t[1], "target=");
      if blockers.Some? && target.Some? then Some((blockers.value, target.value)) else None
    else None
  }

  function CountIn(t: seq<string>): Option<(nat, string, bool, bool)> {
    if |t| == 4 then
      var count, age := NumberAfter(t[0], "count="), After(t[1], "age=");
      var sameExec, logged := FlagAfter(t[2], "same_exec="), FlagAfter(t[3], "logged=");
      if count.Some? && age.Some? && sameExec.Some? && logged.Some?
      then Some((count.value, age.value, sameExec.value, logged.value)) else None
    else None
  }

  function PartyAfter(t: seq<string>, kind: DenialKind): Option<Membership> {
    if |t| == 1 then
      var text := After(t[0], PartyName(kind));
      if text.Some? then PartyIn(text.value) else None
    else None
  }

  function ReadDenial(line: string): Option<DenialFacts> {
    var t := Split(line, ' ');
    if |t| < 9 then None
    else
      var subject, request, count := SubjectIn(t[..3]), RequestIn(t[3..5]), CountIn(t[5..9]);
      if subject.Some? && request.Some? && count.Some? then
        Some(DenialFacts(subject.value.0, subject.value.1, request.value.0, request.value.1, count.value.0,
                         count.value.1, count.value.2, count.value.3, PartyAfter(t[9..], subject.value.0)))
      else None
  }

  /** The other party of a denial; zero is not an identifier and stands for none. */
  function Party(e: Event): Option<Membership> {
    if e.DenyPtrace? || e.DenyScopeSignal? || e.DenyScopeAbstractUnixSocket? then
      Some(if e.other == Sandboxed(0) then Unsandboxed else e.other)
    else None
  }

  lemma SubjectRead(kind: DenialKind, e: Event)
    requires e.IsDenial()
    ensures SubjectIn(SubjectTokens(kind, e)) == Some((kind, e.context.hierarchy.domainId))
  {
    AfterLabel("type=", KindLabel(kind));
    IdRead("domain=", e.context.hierarchy.domainId);
  }

  lemma RequestRead(e: Event)
    requires e.IsDenial()
    ensures RequestIn(RequestTokens(e)) == Some((BlockersField(e), TargetField(e)))
  {
    AfterLabel("blockers=", BlockersField(e));
    AfterLabel("target=", TargetField(e));
  }

  lemma CountRead(d: AggregatedDenial)
    ensures CountIn(CountTokens(d)) ==
            Some((d.occurrenceCount, Elapsed(d.firstTimestamp, d.latestTimestamp), d.sameExec, d.logged))
  {
    NumberRead("count=", d.occurrenceCount);
    AfterLabel("age=", Elapsed(d.firstTimestamp, d.latestTimestamp));
    FlagRead("same_exec=", d.sameExec);
    FlagRead("logged=", d.logged);
  }

  lemma PartyRead(kind: DenialKind, e: Event)
    requires KindOfDenial(e) == Some(kind)
    ensures PartyAfter(RelationTokens(e), kind) == Party(e)
  {
    if Party(e).Some? {
      AfterLabel(PartyName(kind), MembershipText(e.other));
      assert RelationTokens(e)[0] == PartyName(kind) + MembershipText(e.other);
      if e.other.Sandboxed? {
        HexRoundTrip(e.other.id);
        assert HexValue("0") == 0 by { HexRoundTrip(0); }
      }
    }
  }

  lemma Slices(a: seq<string>, b: seq<string>, c: seq<string>, d: seq<string>)
    requires |a| == 3 && |b| == 2 && |c| == 4
    ensures var all := a + b + c + d;
            |all| >= 9 && all[..3] == a && all[3..5] == b && all[5..9] == c && all[9..] == d
  {
  }

  /** A denial line says what the retained entry holds, each fact under its own name. */
  lemma DenialRead(kind: DenialKind, d: AggregatedDenial)
    requires KindOfDenial(d.latestEvent) == Some(kind)
    ensures var e := d.latestEvent;
            ReadDenial(FormatDenial(kind, d)) ==
            Some(DenialFacts(kind, e.context.hierarchy.domainId, BlockersField(e), TargetField(e), d.occurrenceCount,
                             Elapsed(d.firstTimestamp, d.latestTimestamp), d.sameExec, d.logged, Party(e)))
  {
    var e := d.latestEvent;
    DenialTokensSpaceFree(kind, d);
    LineTokens(DenialTokens(kind, d));
    Slices(SubjectTokens(kind, e), RequestTokens(e), CountTokens(d), RelationTokens(e));
    SubjectRead(kind, e);
    RequestRead(e);
    CountRead(d);
    PartyRead(kind, e);
  }

  // ----- the fields of a denial -----

  /** Without its last character. */
  function Body(text: string): string {
    if text == "" then "" else text[..|text| - 1]
  }

  /** Whole seconds. */
  function AgeIn(text: string): Option<nat> {
    var hours, minutes := Pair(text, 'h'), Pair(text, 'm');
    if hours.Some? then
      var h, m := DecimalIn(hours.value.0), DecimalIn(Body(hours.value.1));
      if h.Some? && m.Some? then Some(h.value * 3600 + m.value * 60) else None
    else if minutes.Some? then
      var m, s := DecimalIn(minutes.value.0), DecimalIn(Body(minutes.value.1));
      if m.Some? && s.Some? then Some(m.value * 60 + s.value) else None
    else DecimalIn(Body(text))
  }

  lemma UnitRead(n: nat, symbol: char)
    ensures Body(Decimal(n) + [symbol]) == Decimal(n) && DecimalIn(Decimal(n)) == Some(n)
  {
    DecimalRoundTrip(n);
  }

  lemma NoPair(text: string, sep: char)
    requires sep !in text
    ensures Pair(text, sep) == None
  {
    SplitSingle(text, sep);
  }

  lemma TwoUnitsRead(a: nat, sep: char, b: nat, symbol: char)
    requires !IsHexDigit(sep) && sep != symbol
    ensures var text := Decimal(a) + [sep] + (Decimal(b) + [symbol]);
            && Pair(text, sep) == Some((Decimal(a), Decimal(b) + [symbol]))
            && DecimalIn(Decimal(a)) == Some(a) && DecimalIn(Body(Decimal(b) + [symbol])) == Some(b)
  {
    NumberExcludes(a, sep);
    NumberExcludes(b, sep);
    PairRead(Decimal(a), Decimal(b) + [symbol], sep);
    UnitRead(a, symbol);
    UnitRead(b, symbol);
  }

  lemma SecondsRead(s: nat)
    ensures AgeIn(Decimal(s) + "s") == Some(s)
  {
    NumberExcludes(s, 'h');
    NumberExcludes(s, 'm');
    NoPair(Decimal(s) + ['s'], 'h');
    NoPair(Decimal(s) + ['s'], 'm');
    UnitRead(s, 's');
  }

  lemma HoursRead(h: nat, m: nat)
    ensures AgeIn(Decimal(h) + "h" + Decimal(m) + "m") == Some(h * 3600 + m * 60)
  {
    assert Decimal(h) + "h" + Decimal(m) + "m" == Decimal(h) + ['h'] + (Decimal(m) + ['m']);
    TwoUnitsRead(h, 'h', m, 'm');
  }

  lemma MinutesRead(m: nat, s: nat)
    ensures AgeIn(Decimal(m) + "m" + Decimal(s) + "s") == Some(m * 60 + s)
  {
    var text := Decimal(m) + ['m'] + (Decimal(s) + ['s']);
    assert Decimal(m) + "m" + Decimal(s) + "s" == text;
    NumberExcludes(m, 'h');
    NumberExcludes(s, 'h');
    NoPair(text, 'h');
    TwoUnitsRead(m, 'm', s, 's');
  }

  lemma MinutesOfHours(seconds: nat)
    ensures seconds / 3600 * 3600 + seconds % 3600 / 60 * 60 == seconds - seconds % 60
  {
    var h, r := seconds / 3600, seconds % 3600;
    assert seconds == h * 3600 + r;
    assert seconds % 60 == r % 60;
  }

  lemma LongAgeRead(seconds: nat)
    requires seconds >= 3600
    ensures AgeIn(AgeText(seconds)) == Some(seconds - seconds % 60)
  {
    var h, m := seconds / 3600, seconds % 3600 / 60;
    HoursRead(h, m);
    assert AgeText(seconds) == Decimal(h) + "h" + Decimal(m) + "m";
    MinutesOfHours(seconds);
  }

  lemma AgeTextRead(seconds: nat)
    ensures AgeIn(AgeText(seconds)) == Some(if seconds < 3600 then seconds else seconds - seconds % 60)
  {
    if seconds < 60 {
      SecondsRead(seconds);
    } else if seconds < 3600 {
      MinutesRead(seconds / 60, seconds % 60);
    } else {
      LongAgeRead(seconds);
    }
  }

  /** An age is the whole seconds between the two times, and whole minutes from an hour on. */
  lemma AgeRead(first: Timestamp, latest: Timestamp)
    ensures var seconds := (if latest < first then 0 else latest - first) / 1_000_000_000;
            AgeIn(Elapsed(first, latest)) == Some(if seconds < 3600 then seconds else seconds - seconds % 60)
  {
    AgeTextRead((if latest < first then 0 else latest - first) / SECOND);
  }

  function TaskIn(text: string): Option<(ProcessId, CapturedBytes)> {
    var rest := After(text, "pid:");
    if rest.None? then None
    else
      var parts := Pair(rest.value, ':');
      if parts.Some? && DecimalIn(parts.value.0).Some?
      then Some((DecimalIn(parts.value.0).value, Unescaped(parts.value.1))) else None
  }

  lemma TaskRead(pid: ProcessId, comm: CapturedBytes)
    ensures TaskIn("pid:" + Decimal(pid) + ":" + Escaped(comm)) == Some((pid, comm))
  {
    var rest := Decimal(pid) + [':'] + Escaped(comm);
    assert "pid:" + Decimal(pid) + ":" + Escaped(comm) == "pid:" + rest;
    AfterLabel("pid:", rest);
    NumberExcludes(pid, ':');
    EscapedExcludes(comm, ':');
    PairRead(Decimal(pid), Escaped(comm), ':');
    DecimalRoundTrip(pid);
    EscapeRoundTrip(comm);
  }

  /** The target names the path, the other task or the socket, whole. */
  lemma TargetRead(e: Event)
    requires e.IsDenial()
    ensures e.DenyAccessFs? ==> Unescaped(TargetField(e)) == e.pathname
    ensures e.DenyPtrace? || e.DenyScopeSignal? ==> TaskIn(TargetField(e)) == Some((e.otherPid, e.otherComm))
    ensures e.DenyScopeAbstractUnixSocket? ==>
              After(TargetField(e), "@").Some? && Unescaped(After(TargetField(e), "@").value) == e.abstractName
  {
    match e
    case DenyAccessFs(_, _, _, _, _, _, pathname) => EscapeRoundTrip(pathname);
    case DenyAccessNet(_, _, _, _, _, _) =>
    case DenyPtrace(_, _, _, pid, comm) => TaskRead(pid, comm);
    case DenyScopeSignal(_, _, _, pid, comm) => TaskRead(pid, comm);
    case DenyScopeAbstractUnixSocket(_, _, _, _, name) =>
      AfterLabel("@", Escaped(name));
      EscapeRoundTrip(name);
  }

  /** The source and the destination port, as far as they are shown. */
  function PortsIn(text: string): (Option<nat>, Option<nat>) {
    var both := Pair(text, ',');
    if both.Some? then (NumberAfter(both.value.0, "sport:"), NumberAfter(both.value.1, "dport:"))
    else (NumberAfter(text, "sport:"), NumberAfter(text, "dport:"))
  }

  /** Bits 0 and 2 of a network mask are about binding, bits 1 and 3 about connecting. */
  predicate Binds(e: Event)
    requires e.DenyAccessNet?
  {
    e.blockersType == NET_ACCESS && (Bits.Bit(e.blockersAccess, 0) || Bits.Bit(e.blockersAccess, 2))
  }

  predicate Connects(e: Event)
    requires e.DenyAccessNet?
  {
    e.blockersType == NET_ACCESS && (Bits.Bit(e.blockersAccess, 1) || Bits.Bit(e.blockersAccess, 3))
  }

  /** Some known name has the prefix exactly when one of the two bits named with it is set. */
  lemma NamesWithPrefix(access: AccessMask, prefix: string, a: nat, b: nat)
    requires a < |NETWORK_TABLE| && b < |NETWORK_TABLE|
    requires forall k :: 0 <= k < |NETWORK_TABLE| ==> (prefix <= NETWORK_TABLE[k].name <==> k == a || k == b)
    ensures NamesWith(KnownNames(NETWORK_TABLE, access), prefix) <==> Bits.Bit(access, a) || Bits.Bit(access, b)
  {
    var table, names := NETWORK_TABLE, KnownNames(NETWORK_TABLE, access);
    KnownNamesMembers(table, access, table[a]);
    KnownNamesMembers(table, access, table[b]);
    if NamesWith(names, prefix) {
      var i :| 0 <= i < |names| && prefix <= names[i].name;
      KnownNamesMembers(table, access, names[i]);
      var k :| 0 <= k < |table| && table[k] == names[i];
    }
  }

  lemma NamesWithBits(access: AccessMask)
    ensures NamesWith(KnownNames(NETWORK_TABLE, access), "bind_") <==> Bits.Bit(access, 0) || Bits.Bit(access, 2)
    ensures NamesWith(KnownNames(NETWORK_TABLE, access), "connect_") <==> Bits.Bit(access, 1) || Bits.Bit(access, 3)
  {
    NetworkPrefixes();
    NamesWithPrefix(access, "bind_", 0, 2);
    NamesWithPrefix(access, "connect_", 1, 3);
  }

  lemma NetworkPrefixes()
    ensures |NETWORK_TABLE| == 4
    ensures "bind_" <= NETWORK_TABLE[0].name && "bind_" <= NETWORK_TABLE[2].name
    ensures !("bind_" <= NETWORK_TABLE[1].name) && !("bind_" <= NETWORK_TABLE[3].name)
    ensures "connect_" <= NETWORK_TABLE[1].name && "connect_" <= NETWORK_TABLE[3].name
    ensures !("connect_" <= NETWORK_TABLE[0].name) && !("connect_" <= NETWORK_TABLE[2].name)
  {
    assert NETWORK_TABLE[0].name[0] == NETWORK_TABLE[2].name[0] == 'b';
    assert NETWORK_TABLE[1].name[0] == NETWORK_TABLE[3].name[0] == 'c';
  }

  lemma OnePortRead(name: string, other: string, port: nat)
    requires ',' !in name && name != "" && other != "" && name[0] != other[0]
    ensures Pair(name + Decimal(port), ',').None?
    ensures NumberAfter(name + Decimal(port), name) == Some(port) && NumberAfter(name + Decimal(port), other).None?
  {
    NumberExcludes(port, ',');
    NoPair(name + Decimal(port), ',');
    NumberRead(name, port);
    assert (name + Decimal(port))[0] == name[0];
  }

  /** A denied bind shows the source port, a denied connect the destination port, anything else both. */
  lemma PortsRead(e: Event)
    requires e.DenyAccessNet?
    ensures PortsIn(NetworkTarget(e)) ==
            (if Connects(e) && !Binds(e) then None else Some(e.sourcePort),
             if Binds(e) && !Connects(e) then None else Some(e.destinationPort))
  {
    NamesWithBits(e.blockersAccess);
    OnePortRead("sport:", "dport:", e.sourcePort);
    OnePortRead("dport:", "sport:", e.destinationPort);
    var source, destination := "sport:" + Decimal(e.sourcePort), "dport:" + Decimal(e.destinationPort);
    assert "sport:" + Decimal(e.sourcePort) + ",dport:" + Decimal(e.destinationPort) == source + [','] + destination;
    NumberExcludes(e.sourcePort, ',');
    NumberExcludes(e.destinationPort, ',');
    PairRead(source, destination, ',');
  }
}
