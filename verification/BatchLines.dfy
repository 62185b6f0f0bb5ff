/** The lines of the batch protocol (lltop/src/batch.rs): space-separated tokens,
    none of which contains a space, so that a line can be taken apart again. */
module BatchLines {
  import opened Events
  import opened State
  import opened Text
  import opened Escape
  import opened Masks
  import opened BlockerText
  import opened Aggregator

  ghost predicate SpaceFree(tokens: seq<string>) {
    forall i :: 0 <= i < |tokens| ==> ' ' !in tokens[i]
  }

  function Line(tokens: seq<string>): string {
    Join(tokens, " ")
  }

  lemma LineTokens(tokens: seq<string>)
    requires tokens != [] && SpaceFree(tokens)
    ensures Split(Line(tokens), ' ') == tokens
  {
    SplitJoin(tokens, ' ');
  }

  lemma NumberSpaceFree(n: nat)
    ensures ' ' !in Hex(n) && ' ' !in Decimal(n)
  {
    HexRoundTrip(n);
    DecimalRoundTrip(n);
    DigitsOnly(Hex(n), ' ');
    DigitsOnly(Decimal(n), ' ');
  }

  // ----- domains -----

  function ParentText(parent: Option<DomainParent>): string {
    match parent
    case None => "?"
    case Some(Root) => "0"
    case Some(Domain(id)) => Hex(id)
  }

  function VersionText(v: RulesetVersion): string {
    Hex(v.rulesetId) + "." + Decimal(v.version)
  }

  function RulesetText(v: Option<RulesetVersion>): string {
    if v.Some? then VersionText(v.value) else "?"
  }

  function CreatorText(comm: Option<CapturedBytes>, tgid: Option<ProcessId>): string {
    if comm.Some? && tgid.Some? then Escaped(comm.value) + "[" + Decimal(tgid.value) + "]" else "?"
  }

  function FlagText(b: bool): string {
    if b then "1" else "0"
  }

  function DomainTokens(d: DomainState): seq<string> {
    ["DOMAIN",
     "domain=" + Hex(d.id),
     "parent=" + ParentText(d.parent),
     "ruleset=" + RulesetText(d.ruleset),
     "creator=" + CreatorText(d.creatorComm, d.creatorTgid),
     "no_new_privs=" + (var nnp := NoNewPrivs(d); if nnp.Some? then FlagText(nnp.value) else "?")]
  }

  function FormatDomain(d: DomainState): string {
    Line(DomainTokens(d))
  }

  lemma Labelled(name: string, value: string)
    requires ' ' !in name && ' ' !in value
    ensures ' ' !in name + value
  {
  }

  lemma ParentSpaceFree(parent: Option<DomainParent>)
    ensures ' ' !in ParentText(parent)
  {
    if parent.Some? && parent.value.Domain? { NumberSpaceFree(parent.value.id); }
  }

  lemma VersionSpaceFree(v: RulesetVersion)
    ensures ' ' !in VersionText(v)
  {
    NumberSpaceFree(v.rulesetId);
    NumberSpaceFree(v.version);
  }

  lemma CreatorSpaceFree(comm: Option<CapturedBytes>, tgid: Option<ProcessId>)
    ensures ' ' !in CreatorText(comm, tgid)
  {
    if comm.Some? && tgid.Some? {
      EscapedExcludes(comm.value, ' ');
      NumberSpaceFree(tgid.value);
    }
  }

  lemma DomainTokensSpaceFree(d: DomainState)
    ensures SpaceFree(DomainTokens(d))
  {
    NumberSpaceFree(d.id);
    ParentSpaceFree(d.parent);
    if d.ruleset.Some? { VersionSpaceFree(d.ruleset.value); }
    CreatorSpaceFree(d.creatorComm, d.creatorTgid);
    var t := DomainTokens(d);
    Labelled("domain=", Hex(d.id));
    Labelled("parent=", ParentText(d.parent));
    Labelled("creator=", CreatorText(d.creatorComm, d.creatorTgid));
  }

  // ----- rulesets -----

  function DropTokens(v: RulesetVersion): seq<string> {
    ["DROP_RULESET", "ruleset=" + VersionText(v)]
  }

  function FormatDrop(v: RulesetVersion): string {
    Line(DropTokens(v))
  }

  lemma DropTokensSpaceFree(v: RulesetVersion)
    ensures SpaceFree(DropTokens(v))
  {
    NumberSpaceFree(v.rulesetId);
    NumberSpaceFree(v.version);
  }

  // ----- statistics -----

  datatype DenialKind = Fs | Net | Ptrace | Signal | AbstractUnix

  function KindOfDenial(e: Event): Option<DenialKind> {
    match e
    case DenyAccessFs(_, _, _, _, _, _, _) => Some(Fs)
    case DenyAccessNet(_, _, _, _, _, _) => Some(Net)
    case DenyPtrace(_, _, _, _, _) => Some(Ptrace)
    case DenyScopeSignal(_, _, _, _, _) => Some(Signal)
    case DenyScopeAbstractUnixSocket(_, _, _, _, _) => Some(AbstractUnix)
    case _ => None
  }

  datatype Stats = Stats(totalDenials: nat, fs: nat, net: nat, ptrace: nat, signal: nat, abstractUnix: nat) {
    function Counter(kind: DenialKind): nat {
      match kind
      case Fs => fs
      case Net => net
      case Ptrace => ptrace
      case Signal => signal
      case AbstractUnix => abstractUnix
    }
  }

  const NoDenials := Stats(0, 0, 0, 0, 0, 0)

  function StatsTokens(live: nat, total: nat, stats: Stats): seq<string> {
    ["STATS",
     "domains=" + Decimal(live) + "/" + Decimal(total),
     "denials=" + Decimal(stats.totalDenials),
     "(fs=" + Decimal(stats.fs),
     "net=" + Decimal(stats.net),
     "ptrace=" + Decimal(stats.ptrace),
     "signal=" + Decimal(stats.signal),
     "abstract_unix=" + Decimal(stats.abstractUnix) + ")"]
  }

  function FormatStats(live: nat, total: nat, stats: Stats): string {
    Line(StatsTokens(live, total, stats))
  }

  lemma StatsTokensSpaceFree(live: nat, total: nat, stats: Stats)
    ensures SpaceFree(StatsTokens(live, total, stats))
  {
    NumberSpaceFree(live);
    NumberSpaceFree(total);
    NumberSpaceFree(stats.totalDenials);
    NumberSpaceFree(stats.fs);
    NumberSpaceFree(stats.net);
    NumberSpaceFree(stats.ptrace);
    NumberSpaceFree(stats.signal);
    NumberSpaceFree(stats.abstractUnix);
  }

  // ----- denials -----

  function MembershipText(m: Membership): string {
    if m.Sandboxed? then Hex(m.id) else "0"
  }

  const SECOND := 1_000_000_000

  /** A saturating difference. */
  function Elapsed(first: Timestamp, latest: Timestamp): string {
    AgeText((if latest < first then 0 else latest - first) / SECOND)
  }

  /** Seconds, in the two largest units that fit. */
  function AgeText(seconds: nat): string {
    if seconds < 60 then Decimal(seconds) + "s"
    else if seconds < 3600 then Decimal(seconds / 60) + "m" + Decimal(seconds % 60) + "s"
    else Decimal(seconds / 3600) + "h" + Decimal(seconds % 3600 / 60) + "m"
  }

  function NetworkParts(requestType: nat, access: AccessMask): seq<string> {
    if requestType == NET_ACCESS then AccessParts(NETWORK_TABLE, access)
    else ["request_type=" + Prefixed(requestType), "access=" + Prefixed(access)]
  }

  function NetworkText(requestType: nat, access: AccessMask): string {
    if requestType == NET_ACCESS && access == 0 then "0x0" else "Net:" + Join(NetworkParts(requestType, access), ",")
  }

  predicate NamesWith(names: seq<NamedBit>, prefix: string) {
    exists i :: 0 <= i < |names| && prefix <= names[i].name
  }

  /** The port that the denied access was about, or both when that is not one of them. */
  function NetworkTarget(e: Event): string
    requires e.DenyAccessNet?
  {
    var names := if e.blockersType == NET_ACCESS then KnownNames(NETWORK_TABLE, e.blockersAccess) else [];
    var bind, connect := NamesWith(names, "bind_"), NamesWith(names, "connect_");
    if bind && !connect then "sport:" + Decimal(e.sourcePort)
    else if connect && !bind then "dport:" + Decimal(e.destinationPort)
    else "sport:" + Decimal(e.sourcePort) + ",dport:" + Decimal(e.destinationPort)
  }

  function BlockersField(e: Event): string
    requires e.IsDenial()
  {
    match e
    case DenyAccessFs(_, _, requestType, access, _, _, _) => BatchText(FILESYSTEM_TABLE, Classify(requestType, access))
    case DenyAccessNet(_, _, requestType, access, _, _) => NetworkText(requestType, access)
    case DenyPtrace(_, _, _, _, _) => "ptrace"
    case DenyScopeSignal(_, _, _, _, _) => "Scope:signal"
    case DenyScopeAbstractUnixSocket(_, _, _, _, _) => "Scope:abstract_unix_socket"
  }

  function TargetField(e: Event): string
    requires e.IsDenial()
  {
    match e
    case DenyAccessFs(_, _, _, _, _, _, pathname) => Escaped(pathname)
    case DenyAccessNet(_, _, _, _, _, _) => NetworkTarget(e)
    case DenyPtrace(_, _, _, pid, comm) => "pid:" + Decimal(pid) + ":" + Escaped(comm)
    case DenyScopeSignal(_, _, _, pid, comm) => "pid:" + Decimal(pid) + ":" + Escaped(comm)
    case DenyScopeAbstractUnixSocket(_, _, _, _, name) => "@" + Escaped(name)
  }

  function KindLabel(kind: DenialKind): string {
    match kind
    case Fs => "FS"
    case Net => "NET"
    case Ptrace => "PTRACE"
    case Signal => "SIGNAL"
    case AbstractUnix => "ABSTRACT_UNIX"
  }

  function RelationTokens(e: Event): seq<string>
    requires e.IsDenial()
  {
    match e
    case DenyAccessFs(_, _, _, _, _, _, _) => []
    case DenyAccessNet(_, _, _, _, _, _) => []
    case DenyPtrace(_, _, other, _, _) => ["tracee_domain=" + MembershipText(other)]
    case DenyScopeSignal(_, _, other, _, _) => ["target_domain=" + MembershipText(other)]
    case DenyScopeAbstractUnixSocket(_, _, other, _, _) => ["peer_domain=" + MembershipText(other)]
  }

  function SubjectTokens(kind: DenialKind, e: Event): seq<string>
    requires e.IsDenial()
  {
    ["DENIAL", "type=" + KindLabel(kind), "domain=" + Hex(e.context.hierarchy.domainId)]
  }

  function RequestTokens(e: Event): seq<string>
    requires e.IsDenial()
  {
    ["blockers=" + BlockersField(e), "target=" + TargetField(e)]
  }

  function CountTokens(d: AggregatedDenial): seq<string> {
    ["count=" + Decimal(d.occurrenceCount),
     "age=" + Elapsed(d.firstTimestamp, d.latestTimestamp),
     "same_exec=" + FlagText(d.sameExec),
     "logged=" + FlagText(d.logged)]
  }

  function DenialTokens(kind: DenialKind, d: AggregatedDenial): seq<string>
    requires d.latestEvent.IsDenial()
  {
    SubjectTokens(kind, d.latestEvent) + RequestTokens(d.latestEvent) + CountTokens(d) + RelationTokens(d.latestEvent)
  }

  function FormatDenial(kind: DenialKind, d: AggregatedDenial): string
    requires d.latestEvent.IsDenial()
  {
    Line(DenialTokens(kind, d))
  }

  lemma {:induction false} JoinSpaceFree(parts: seq<string>)
    requires SpaceFree(parts)
    ensures ' ' !in Join(parts, ",")
  {
    if |parts| > 1 { JoinSpaceFree(parts[1..]); }
  }

  lemma FilesystemTextSpaceFree(b: FilesystemBlockers)
    ensures ' ' !in BatchText(FILESYSTEM_TABLE, b)
  {
    FilesystemTableSuitable();
    PartsCommaFree(FILESYSTEM_TABLE, b);
    JoinSpaceFree(Parts(FILESYSTEM_TABLE, b));
  }

  lemma NetworkPartsPlain(requestType: nat, access: AccessMask)
    ensures var parts := NetworkParts(requestType, access);
            parts != [] && CommaFree(parts) && SpaceFree(parts)
  {
    NetworkTableSuitable();
    NumberPartsPlain(requestType);
    NumberPartsPlain(access);
    AccessPartsPlain(NETWORK_TABLE, access);
  }

  lemma NetworkTextSpaceFree(requestType: nat, access: AccessMask)
    ensures ' ' !in NetworkText(requestType, access)
  {
    NetworkPartsPlain(requestType, access);
    JoinSpaceFree(NetworkParts(requestType, access));
  }

  lemma NetworkPartsInjective(t1: nat, m1: AccessMask, t2: nat, m2: AccessMask)
    requires NetworkParts(t1, m1) == NetworkParts(t2, m2)
    ensures t1 == t2 && m1 == m2
  {
    NetworkTableSuitable();
    AccessPartsShape(NETWORK_TABLE, m1);
    AccessPartsShape(NETWORK_TABLE, m2);
    RequestTypeText(t1);
    RequestTypeText(t2);
    RequestTypeText(m1);
    RequestTypeText(m2);
    var a, b := NetworkParts(t1, m1), NetworkParts(t2, m2);
    if t1 == NET_ACCESS && t2 == NET_ACCESS {
      AccessPartsInjective(NETWORK_TABLE, m1, m2);
    } else if t1 != NET_ACCESS && t2 != NET_ACCESS {
      assert a[0][13..] == b[0][13..] && a[1][7..] == b[1][7..];
      PrefixedInjective(t1, t2);
      PrefixedInjective(m1, m2);
    }
  }

  /** The network text, too, determines the request type and the whole mask. */
  lemma NetworkTextInjective(t1: nat, m1: AccessMask, t2: nat, m2: AccessMask)
    ensures NetworkText(t1, m1) == NetworkText(t2, m2) <==> t1 == t2 && m1 == m2
  {
    var a, b := NetworkText(t1, m1), NetworkText(t2, m2);
    if a == b {
      if !(t1 == NET_ACCESS && m1 == 0) && !(t2 == NET_ACCESS && m2 == 0) {
        assert a[4..] == Join(NetworkParts(t1, m1), ",") && b[4..] == Join(NetworkParts(t2, m2), ",");
        NetworkPartsPlain(t1, m1);
        NetworkPartsPlain(t2, m2);
        JoinInjective(NetworkParts(t1, m1), NetworkParts(t2, m2));
        NetworkPartsInjective(t1, m1, t2, m2);
      } else {
        assert a[0] == b[0];
      }
    }
  }

  lemma BlockersSpaceFree(e: Event)
    requires e.IsDenial()
    ensures ' ' !in BlockersField(e)
  {
    if e.DenyAccessFs? {
      FilesystemTextSpaceFree(Classify(e.blockersType, e.blockersAccess));
    } else if e.DenyAccessNet? {
      NetworkTextSpaceFree(e.blockersType, e.blockersAccess);
    }
  }

  lemma NetworkTargetSpaceFree(e: Event)
    requires e.DenyAccessNet?
    ensures ' ' !in NetworkTarget(e)
  {
    NumberSpaceFree(e.sourcePort);
    NumberSpaceFree(e.destinationPort);
  }

  lemma TaskTargetSpaceFree(pid: ProcessId, comm: CapturedBytes)
    ensures ' ' !in "pid:" + Decimal(pid) + ":" + Escaped(comm)
  {
    NumberSpaceFree(pid);
    EscapedExcludes(comm, ' ');
  }

  lemma TargetSpaceFree(e: Event)
    requires e.IsDenial()
    ensures ' ' !in TargetField(e)
  {
    match e
    case DenyAccessFs(_, _, _, _, _, _, pathname) => EscapedExcludes(pathname, ' ');
    case DenyAccessNet(_, _, _, _, _, _) => NetworkTargetSpaceFree(e);
    case DenyPtrace(_, _, _, pid, comm) => TaskTargetSpaceFree(pid, comm);
    case DenyScopeSignal(_, _, _, pid, comm) => TaskTargetSpaceFree(pid, comm);
    case DenyScopeAbstractUnixSocket(_, _, _, _, name) => EscapedExcludes(name, ' ');
  }

  lemma ElapsedSpaceFree(first: Timestamp, latest: Timestamp)
    ensures ' ' !in Elapsed(first, latest)
  {
    var seconds := (if latest < first then 0 else latest - first) / SECOND;
    NumberSpaceFree(seconds);
    NumberSpaceFree(seconds / 60);
    NumberSpaceFree(seconds % 60);
    NumberSpaceFree(seconds / 3600);
    NumberSpaceFree(seconds % 3600 / 60);
  }

  lemma RequestTokensSpaceFree(e: Event)
    requires e.IsDenial()
    ensures SpaceFree(RequestTokens(e))
  {
    BlockersSpaceFree(e);
    TargetSpaceFree(e);
    Labelled("blockers=", BlockersField(e));
    Labelled("target=", TargetField(e));
  }

  lemma SubjectTokensSpaceFree(kind: DenialKind, e: Event)
    requires e.IsDenial()
    ensures SpaceFree(SubjectTokens(kind, e))
  {
    NumberSpaceFree(e.context.hierarchy.domainId);
    Labelled("domain=", Hex(e.context.hierarchy.domainId));
  }

  lemma CountTokensSpaceFree(d: AggregatedDenial)
    ensures SpaceFree(CountTokens(d))
  {
    NumberSpaceFree(d.occurrenceCount);
    ElapsedSpaceFree(d.firstTimestamp, d.latestTimestamp);
    Labelled("count=", Decimal(d.occurrenceCount));
    Labelled("age=", Elapsed(d.firstTimestamp, d.latestTimestamp));
  }

  lemma RelationTokensSpaceFree(e: Event)
    requires e.IsDenial()
    ensures SpaceFree(RelationTokens(e))
  {
    if (e.DenyPtrace? || e.DenyScopeSignal? || e.DenyScopeAbstractUnixSocket?) && e.other.Sandboxed? {
      NumberSpaceFree(e.other.id);
    }
  }

  lemma DenialTokensSpaceFree(kind: DenialKind, d: AggregatedDenial)
    requires d.latestEvent.IsDenial()
    ensures SpaceFree(DenialTokens(kind, d))
  {
    SubjectTokensSpaceFree(kind, d.latestEvent);
    RequestTokensSpaceFree(d.latestEvent);
    CountTokensSpaceFree(d);
    RelationTokensSpaceFree(d.latestEvent);
  }

  /** Every denial line splits on spaces into nine tokens, or ten for the kinds that name another party. */
  lemma DenialLineSplits(kind: DenialKind, d: AggregatedDenial)
    requires KindOfDenial(d.latestEvent) == Some(kind)
    ensures var tokens := Split(FormatDenial(kind, d), ' ');
            && tokens == DenialTokens(kind, d)
            && |tokens| == (if kind.Fs? || kind.Net? then 9 else 10)
            && tokens[0] == "DENIAL"
  {
    DenialTokensSpaceFree(kind, d);
    LineTokens(DenialTokens(kind, d));
  }

  // ----- what a line is about -----

  datatype Topic = DomainTopic(field: string) | RulesetTopic(field: string) | StatsTopic | OtherTopic

  function TopicOfTokens(tokens: seq<string>): Topic
    requires tokens != []
  {
    if tokens[0] == "DOMAIN" && |tokens| > 1 then DomainTopic(tokens[1])
    else if tokens[0] == "DROP_RULESET" && |tokens| > 1 then RulesetTopic(Split(tokens[1], '.')[0])
    else if tokens[0] == "STATS" then StatsTopic
    else OtherTopic
  }

  /** Read off the text of a line. */
  function TopicOf(line: string): Topic {
    TopicOfTokens(Split(line, ' '))
  }

  function AboutDomain(id: DomainId): Topic {
    DomainTopic("domain=" + Hex(id))
  }

  function AboutRuleset(id: RulesetId): Topic {
    RulesetTopic("ruleset=" + Hex(id))
  }

  lemma TopicsDistinct(a: nat, b: nat)
    ensures AboutDomain(a) == AboutDomain(b) <==> a == b
    ensures AboutRuleset(a) == AboutRuleset(b) <==> a == b
  {
    assert ("domain=" + Hex(a))[7..] == Hex(a) && ("domain=" + Hex(b))[7..] == Hex(b);
    assert ("ruleset=" + Hex(a))[8..] == Hex(a) && ("ruleset=" + Hex(b))[8..] == Hex(b);
    if Hex(a) == Hex(b) { HexInjective(a, b); }
  }

  lemma DomainTopicOf(d: DomainState)
    ensures TopicOf(FormatDomain(d)) == AboutDomain(d.id)
  {
    DomainTokensSpaceFree(d);
    LineTokens(DomainTokens(d));
  }

  lemma DropTopicOf(v: RulesetVersion)
    ensures TopicOf(FormatDrop(v)) == AboutRuleset(v.rulesetId)
  {
    DropTokensSpaceFree(v);
    LineTokens(DropTokens(v));
    HexRoundTrip(v.rulesetId);
    DigitsOnly(Hex(v.rulesetId), '.');
    var name := "ruleset=" + Hex(v.rulesetId);
    assert DropTokens(v)[1] == name + ['.'] + Decimal(v.version);
    SplitToken(name, Decimal(v.version), '.');
  }

  lemma StatsTopicOf(live: nat, total: nat, stats: Stats)
    ensures TopicOf(FormatStats(live, total, stats)) == StatsTopic
  {
    StatsTokensSpaceFree(live, total, stats);
    LineTokens(StatsTokens(live, total, stats));
  }

  lemma DenialTopicOf(kind: DenialKind, d: AggregatedDenial)
    requires KindOfDenial(d.latestEvent) == Some(kind)
    ensures TopicOf(FormatDenial(kind, d)) == OtherTopic
  {
    DenialLineSplits(kind, d);
  }

  // ----- the last line on a topic -----

  function Last(lines: seq<string>, topic: Topic): Option<string> {
    if lines == [] then None
    else
      var n := |lines| - 1;
      if TopicOf(lines[n]) == topic then Some(lines[n]) else Last(lines[..n], topic)
  }

  lemma {:induction false} LastConcat(a: seq<string>, b: seq<string>, topic: Topic)
    ensures Last(a + b, topic) == if Last(b, topic).Some? then Last(b, topic) else Last(a, topic)
  {
    if b == [] {
      assert a + b == a;
    } else {
      var n := |b| - 1;
      assert (a + b)[..|a| + n] == a + b[..n];
      LastConcat(a, b[..n], topic);
    }
  }

  lemma LastSingle(line: string, topic: Topic)
    ensures Last([line], topic) == if TopicOf(line) == topic then Some(line) else None
  {
    assert [line][..0] == [];
  }
}
