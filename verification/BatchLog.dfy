/** What the batch output of one observation does to the stream of lines: after
    it, the last line on every topic is about the present state. */
module BatchLog {
  import opened Events
  import opened State
  import opened BatchLines
  import opened BatchReader
  import opened Aggregator
  import opened Recency
  import opened Summary
  import opened History
  import opened DomainIds

  type Domains = map<DomainId, DomainState>
  type Rulesets = map<RulesetId, RulesetState>

  /** What is shown of a domain, and whether it counts as allocated. */
  datatype Known = Unknown | Known(record: string, live: bool)

  function KnownOf(domains: Domains, d: DomainId): Known {
    if d in domains then Known.Known(FormatDomain(domains[d]), domains[d].lifecycle.Allocated?) else Unknown
  }

  function Shown(domains: Domains, d: DomainId): Option<string> {
    if d in domains then Some(FormatDomain(domains[d])) else None
  }

  predicate OwnIds(domains: Domains) {
    forall d :: d in domains ==> domains[d].id == d
  }

  // ----- domain lines -----

  function LineIfChanged(before: Domains, after: Domains, d: DomainId): seq<string> {
    if d in after && Shown(after, d) != Shown(before, d) then [FormatDomain(after[d])] else []
  }

  function DomainLines(ids: seq<DomainId>, before: Domains, after: Domains): seq<string> {
    if ids == [] then []
    else DomainLines(ids[..|ids| - 1], before, after) + LineIfChanged(before, after, ids[|ids| - 1])
  }

  lemma LineIfChangedLast(before: Domains, after: Domains, d: DomainId, topic: Topic)
    requires OwnIds(after)
    ensures Last(LineIfChanged(before, after, d), topic) ==
            if topic == AboutDomain(d) && d in after && Shown(after, d) != Shown(before, d) then Shown(after, d)
            else None
  {
    if d in after {
      DomainTopicOf(after[d]);
      LastSingle(FormatDomain(after[d]), topic);
    }
  }

  /** One line for each listed domain that looks different, and nothing else. */
  lemma {:induction false} DomainLinesLast(ids: seq<DomainId>, before: Domains, after: Domains, d: DomainId)
    requires Ascending(ids) && OwnIds(after)
    ensures Last(DomainLines(ids, before, after), AboutDomain(d)) ==
            if d in ids && d in after && Shown(after, d) != Shown(before, d) then Shown(after, d) else None
  {
    if ids != [] {
      var n := |ids| - 1;
      var earlier, x := ids[..n], ids[n];
      assert d in ids <==> d in earlier || d == x by { assert ids == earlier + [x]; }
      assert x !in earlier;
      DomainLinesLast(earlier, before, after, d);
      TopicsDistinct(d, x);
      LineIfChangedLast(before, after, x, AboutDomain(d));
      LastConcat(DomainLines(earlier, before, after), LineIfChanged(before, after, x), AboutDomain(d));
    }
  }

  lemma {:induction false} DomainLinesOnly(ids: seq<DomainId>, before: Domains, after: Domains, topic: Topic)
    requires OwnIds(after) && !topic.DomainTopic?
    ensures Last(DomainLines(ids, before, after), topic) == None
  {
    if ids != [] {
      var n := |ids| - 1;
      DomainLinesOnly(ids[..n], before, after, topic);
      LineIfChangedLast(before, after, ids[n], topic);
      LastConcat(DomainLines(ids[..n], before, after), LineIfChanged(before, after, ids[n]), topic);
    }
  }

  // ----- ruleset lines -----

  /** The greatest version that freeing a ruleset reported, if it was freed at all. */
  lemma FinalIdentityMeaning(h: seq<Event>, r: RulesetId)
    ensures FinalIdentity(Run(h).rulesets, r).None? <==> forall e :: e in h ==> !(e.FreeRuleset? && e.rulesetId == r)
    ensures var identity := FinalIdentity(Run(h).rulesets, r);
            identity.Some? ==>
              && identity.value.rulesetId == r
              && (exists e :: e in h && e.FreeRuleset? && e.rulesetId == r && e.version == identity.value.version)
              && (forall e :: e in h && e.FreeRuleset? && e.rulesetId == r ==> e.version <= identity.value.version)
  {
    RunIsSummary(h);
    KnownRulesets(h, r);
    HighestIsGreatest(h, FinalVersion(r));
    var reports := Reports(h, FinalVersion(r));
    forall e | e in h && e.FreeRuleset? && e.rulesetId == r ensures e.version in reports {
      assert Reported(e, FinalVersion(r)) == Some(e.version);
    }
    if r in Run(h).rulesets { assert Run(h).rulesets[r] == RulesetSummary(h, r); }
  }

  /** The version a ruleset had when it was freed. */
  function FinalIdentity(rulesets: Rulesets, r: RulesetId): Option<RulesetVersion> {
    if r in rulesets && rulesets[r].lifecycle.Deallocated? && rulesets[r].finalVersion.Some?
    then Some(RulesetVersion(r, rulesets[r].finalVersion.value)) else None
  }

  function DropShown(rulesets: Rulesets, r: RulesetId): Option<string> {
    var v := FinalIdentity(rulesets, r);
    if v.Some? then Some(FormatDrop(v.value)) else None
  }

  function DropLines(e: Event, before: Rulesets, after: Rulesets): seq<string> {
    if e.FreeRuleset? && FinalIdentity(after, e.rulesetId).Some? &&
       FinalIdentity(after, e.rulesetId) != FinalIdentity(before, e.rulesetId)
    then [FormatDrop(FinalIdentity(after, e.rulesetId).value)] else []
  }

  // ----- the frame of one observation -----

  lemma Untouched(domains: Domains, e: Event, d: DomainId)
    requires d !in Affected(e)
    ensures Shown(AppliedToDomains(domains, e), d) == Shown(domains, d)
    ensures d in AppliedToDomains(domains, e) <==> d in domains
    ensures d in domains ==> AppliedToDomains(domains, e)[d] == domains[d]
  {
  }

  lemma AffectedKnown(domains: Domains, e: Event)
    ensures domains.Keys + Affected(e) == AppliedToDomains(domains, e).Keys
  {
  }

  /** Only the ruleset that an event frees changes its final identity, and a final identity never goes away. */
  lemma IdentityFrame(rulesets: Rulesets, e: Event, r: RulesetId)
    ensures FinalIdentity(AppliedToRulesets(rulesets, e), r) != FinalIdentity(rulesets, r) ==>
              e.FreeRuleset? && e.rulesetId == r && FinalIdentity(AppliedToRulesets(rulesets, e), r).Some?
  {
  }

  // ----- the change log -----

  /** The last line on each domain shows it as it is; there is none for a domain not known. */
  ghost predicate DomainsLogged(stream: seq<string>, domains: Domains) {
    forall d {:trigger Last(stream, AboutDomain(d))} :: Last(stream, AboutDomain(d)) == Shown(domains, d)
  }

  /** The last line on each ruleset names its final version; there is none for a ruleset not freed. */
  ghost predicate RulesetsLogged(stream: seq<string>, rulesets: Rulesets) {
    forall r {:trigger Last(stream, AboutRuleset(r))} :: Last(stream, AboutRuleset(r)) == DropShown(rulesets, r)
  }

  /** The last statistics line shows the counters; there is none while all are zero. */
  ghost predicate StatsLogged(stream: seq<string>, live: nat, total: nat, stats: Stats) {
    match Last(stream, StatsTopic)
    case None => live == 0 && total == 0 && stats == NoDenials
    case Some(line) => line == FormatStats(live, total, stats)
  }

  /** No line on the topic. */
  ghost predicate Silent(lines: seq<string>, topic: Topic) {
    Last(lines, topic) == None
  }

  lemma DomainsStayLogged(stream: seq<string>, ids: seq<DomainId>, before: Domains, e: Event, tail: seq<string>)
    requires DomainsLogged(stream, before)
    requires Ascending(ids) && Ids(ids) == Affected(e) && OwnIds(AppliedToDomains(before, e))
    requires forall d :: Silent(tail, AboutDomain(d))
    ensures DomainsLogged(stream + (DomainLines(ids, before, AppliedToDomains(before, e)) + tail),
            AppliedToDomains(before, e))
  {
    var after := AppliedToDomains(before, e);
    var lines := DomainLines(ids, before, after);
    AffectedKnown(before, e);
    forall d ensures Last(stream + (lines + tail), AboutDomain(d)) == Shown(after, d) {
      LastConcat(stream, lines + tail, AboutDomain(d));
      LastConcat(lines, tail, AboutDomain(d));
      DomainLinesLast(ids, before, after, d);
      assert Silent(tail, AboutDomain(d));
      assert d in ids <==> d in Ids(ids);
      if d !in Affected(e) { Untouched(before, e, d); }
    }
  }

  lemma DropLinesLast(e: Event, before: Rulesets, after: Rulesets, topic: Topic)
    ensures Last(DropLines(e, before, after), topic) ==
            if DropLines(e, before, after) != [] && topic == AboutRuleset(e.rulesetId) then
              DropShown(after, e.rulesetId)
            else None
  {
    if DropLines(e, before, after) != [] {
      var v := FinalIdentity(after, e.rulesetId).value;
      DropTopicOf(v);
      LastSingle(FormatDrop(v), topic);
    }
  }

  lemma RulesetsStayLogged(stream: seq<string>, head: seq<string>, before: Rulesets, e: Event, tail: seq<string>)
    requires RulesetsLogged(stream, before)
    requires forall r :: Silent(head, AboutRuleset(r))
    requires forall r :: Silent(tail, AboutRuleset(r))
    ensures RulesetsLogged(stream + (head + (DropLines(e, before, AppliedToRulesets(before, e)) + tail)),
            AppliedToRulesets(before, e))
  {
    var after := AppliedToRulesets(before, e);
    var lines := DropLines(e, before, after);
    forall r ensures Last(stream + (head + (lines + tail)), AboutRuleset(r)) == DropShown(after, r) {
      LastConcat(stream, head + (lines + tail), AboutRuleset(r));
      LastConcat(head, lines + tail, AboutRuleset(r));
      LastConcat(lines, tail, AboutRuleset(r));
      assert Silent(head, AboutRuleset(r)) && Silent(tail, AboutRuleset(r));
      DropLinesLast(e, before, after, AboutRuleset(r));
      IdentityFrame(before, e, r);
      if e.FreeRuleset? { TopicsDistinct(e.rulesetId, r); }
    }
  }

  /** At most one line, on one topic. */
  ghost predicate AtMostOne(lines: seq<string>, topic: Topic) {
    |lines| <= 1 && (lines != [] ==> TopicOf(lines[0]) == topic)
  }

  lemma ShortLast(lines: seq<string>, own: Topic, topic: Topic)
    requires AtMostOne(lines, own)
    ensures Last(lines, topic) == if lines != [] && topic == own then Some(lines[0]) else None
  {
    if lines != [] {
      assert lines == [lines[0]];
      LastSingle(lines[0], topic);
    }
  }

  /** The lines of one observation, in the order they are put out. */
  function Output(ids: seq<DomainId>, before: State, e: Event, denial: seq<string>, stats: seq<string>): seq<string> {
    DomainLines(ids, before.domains, AppliedToDomains(before.domains, e)) +
    (DropLines(e, before.rulesets, AppliedToRulesets(before.rulesets, e)) + (denial + stats))
  }

  lemma OutputLogsDomains(stream: seq<string>, ids: seq<DomainId>, before: State, e: Event, denial: seq<string>,
                          stats: seq<string>)
    requires DomainsLogged(stream, before.domains)
    requires Ascending(ids) && Ids(ids) == Affected(e) && OwnIds(AppliedToDomains(before.domains, e))
    requires AtMostOne(denial, OtherTopic) && AtMostOne(stats, StatsTopic)
    ensures DomainsLogged(stream + Output(ids, before, e, denial, stats), AppliedToDomains(before.domains, e))
  {
    var drop := DropLines(e, before.rulesets, AppliedToRulesets(before.rulesets, e));
    forall d ensures Silent(drop + (denial + stats), AboutDomain(d)) {
      LastConcat(drop, denial + stats, AboutDomain(d));
      LastConcat(denial, stats, AboutDomain(d));
      DropLinesLast(e, before.rulesets, AppliedToRulesets(before.rulesets, e), AboutDomain(d));
      ShortLast(denial, OtherTopic, AboutDomain(d));
      ShortLast(stats, StatsTopic, AboutDomain(d));
    }
    DomainsStayLogged(stream, ids, before.domains, e, drop + (denial + stats));
  }

  lemma OutputLogsRulesets(stream: seq<string>, ids: seq<DomainId>, before: State, e: Event, denial: seq<string>,
                           stats: seq<string>)
    requires RulesetsLogged(stream, before.rulesets) && OwnIds(AppliedToDomains(before.domains, e))
    requires AtMostOne(denial, OtherTopic) && AtMostOne(stats, StatsTopic)
    ensures RulesetsLogged(stream + Output(ids, before, e, denial, stats), AppliedToRulesets(before.rulesets, e))
  {
    var head := DomainLines(ids, before.domains, AppliedToDomains(before.domains, e));
    forall r ensures Silent(head, AboutRuleset(r)) {
      DomainLinesOnly(ids, before.domains, AppliedToDomains(before.domains, e), AboutRuleset(r));
    }
    forall r ensures Silent(denial + stats, AboutRuleset(r)) {
      LastConcat(denial, stats, AboutRuleset(r));
      ShortLast(denial, OtherTopic, AboutRuleset(r));
      ShortLast(stats, StatsTopic, AboutRuleset(r));
    }
    RulesetsStayLogged(stream, head, before.rulesets, e, denial + stats);
  }

  lemma OutputLogsStats(stream: seq<string>, ids: seq<DomainId>, before: State, e: Event, denial: seq<string>,
                        stats: seq<string>)
    requires OwnIds(AppliedToDomains(before.domains, e))
    requires AtMostOne(denial, OtherTopic) && AtMostOne(stats, StatsTopic)
    ensures Last(stream + Output(ids, before, e, denial, stats), StatsTopic) ==
            if stats != [] then Some(stats[0]) else Last(stream, StatsTopic)
  {
    var head := DomainLines(ids, before.domains, AppliedToDomains(before.domains, e));
    var drop := DropLines(e, before.rulesets, AppliedToRulesets(before.rulesets, e));
    LastConcat(stream, head + (drop + (denial + stats)), StatsTopic);
    LastConcat(head, drop + (denial + stats), StatsTopic);
    LastConcat(drop, denial + stats, StatsTopic);
    LastConcat(denial, stats, StatsTopic);
    DomainLinesOnly(ids, before.domains, AppliedToDomains(before.domains, e), StatsTopic);
    DropLinesLast(e, before.rulesets, AppliedToRulesets(before.rulesets, e), StatsTopic);
    ShortLast(denial, OtherTopic, StatsTopic);
    ShortLast(stats, StatsTopic, StatsTopic);
  }

  lemma OutputKeepsStats(stream: seq<string>, ids: seq<DomainId>, before: State, e: Event, denial: seq<string>,
                         last: seq<string>, live: nat, total: nat, stats: Stats)
    requires OwnIds(AppliedToDomains(before.domains, e))
    requires AtMostOne(denial, OtherTopic) && AtMostOne(last, StatsTopic)
    requires last == [FormatStats(live, total, stats)] || (last == [] && StatsLogged(stream, live, total, stats))
    ensures StatsLogged(stream + Output(ids, before, e, denial, last), live, total, stats)
  {
    OutputLogsStats(stream, ids, before, e, denial, last);
  }

  /** The lines of one observation carry the log from one state to the next. */
  lemma OutputLogs(stream: seq<string>, ids: seq<DomainId>, before: State, e: Event, denial: seq<string>,
                   last: seq<string>, live: nat, total: nat, stats: Stats)
    requires DomainsLogged(stream, before.domains) && RulesetsLogged(stream, before.rulesets)
    requires Ascending(ids) && Ids(ids) == Affected(e) && OwnIds(AppliedToDomains(before.domains, e))
    requires AtMostOne(denial, OtherTopic) && AtMostOne(last, StatsTopic)
    requires last == [FormatStats(live, total, stats)] || (last == [] && StatsLogged(stream, live, total, stats))
    ensures var stream' := stream + Output(ids, before, e, denial, last);
            && DomainsLogged(stream', AppliedToDomains(before.domains, e))
            && RulesetsLogged(stream', AppliedToRulesets(before.rulesets, e))
            && StatsLogged(stream', live, total, stats)
  {
    OutputLogsDomains(stream, ids, before, e, denial, last);
    OutputLogsRulesets(stream, ids, before, e, denial, last);
    OutputKeepsStats(stream, ids, before, e, denial, last, live, total, stats);
  }

  // ----- which lines there are -----

  /** What one observation gives cause to print: the domains that look different, in order; the
      ruleset that was freed; the entry of a denial; and whether the domain counts moved. */
  datatype Report = Report(
    changed: seq<DomainId>, freed: seq<RulesetId>, denial: Option<AggregatedDenial>, countsMoved: bool)

  /** Nothing more and nothing less than what differs between the two states. */
  ghost predicate Explains(report: Report, before: State, after: State) {
    && Ascending(report.changed)
    && (forall d :: d in report.changed <==> Shown(after.domains, d) != Shown(before.domains, d))
    && |report.freed| <= 1
    && (forall r :: r in report.freed <==> DropShown(after.rulesets, r) != DropShown(before.rulesets, r))
    && Printable(report, after)
  }

  /** Everything in the report has a line. */
  ghost predicate Printable(report: Report, after: State) {
    && (forall i :: 0 <= i < |report.changed| ==> Shown(after.domains, report.changed[i]).Some?)
    && (forall i :: 0 <= i < |report.freed| ==> DropShown(after.rulesets, report.freed[i]).Some?)
    && (report.denial.Some? ==> report.denial.value.latestEvent.IsDenial())
  }

  ghost function DomainRecords(ids: seq<DomainId>, domains: Domains): seq<string>
    requires forall i :: 0 <= i < |ids| ==> Shown(domains, ids[i]).Some?
  {
    seq(|ids|, i requires 0 <= i < |ids| => Shown(domains, ids[i]).value)
  }

  ghost function DropRecords(ids: seq<RulesetId>, rulesets: Rulesets): seq<string>
    requires forall i :: 0 <= i < |ids| ==> DropShown(rulesets, ids[i]).Some?
  {
    seq(|ids|, i requires 0 <= i < |ids| => DropShown(rulesets, ids[i]).value)
  }

  function DenialRecords(denial: Option<AggregatedDenial>): seq<string>
    requires denial.Some? ==> denial.value.latestEvent.IsDenial()
  {
    if denial.None? then [] else [FormatDenial(KindOfDenial(denial.value.latestEvent).value, denial.value)]
  }

  predicate NothingToReport(report: Report) {
    report.changed == [] && report.freed == [] && report.denial.None? && !report.countsMoved
  }

  /** One line for each, and the statistics after them unless there is nothing at all. */
  ghost function ReportLines(report: Report, after: State, statistics: string): seq<string>
    requires Printable(report, after)
  {
    DomainRecords(report.changed, after.domains) + DropRecords(report.freed, after.rulesets) +
    DenialRecords(report.denial) + if NothingToReport(report) then [] else [statistics]
  }

  /** There is no line exactly when nothing looks different, nothing was denied and no count moved. */
  lemma SilentIff(report: Report, before: State, after: State, statistics: string)
    requires Explains(report, before, after)
    ensures ReportLines(report, after, statistics) == [] <==>
            && (forall d :: Shown(after.domains, d) == Shown(before.domains, d))
            && (forall r :: DropShown(after.rulesets, r) == DropShown(before.rulesets, r))
            && report.denial.None?
            && !report.countsMoved
  {
    if report.changed != [] { assert report.changed[0] in report.changed; }
    if report.freed != [] { assert report.freed[0] in report.freed; }
  }

  function Selected(ids: seq<DomainId>, which: set<DomainId>): seq<DomainId> {
    if ids == [] then []
    else
      var n := |ids| - 1;
      Selected(ids[..n], which) + if ids[n] in which then [ids[n]] else []
  }

  lemma {:induction false} SelectedMembers(ids: seq<DomainId>, which: set<DomainId>)
    requires Ascending(ids)
    ensures Ascending(Selected(ids, which))
    ensures forall d :: d in Selected(ids, which) <==> d in ids && d in which
  {
    if ids != [] {
      var n := |ids| - 1;
      assert ids == ids[..n] + [ids[n]];
      SelectedMembers(ids[..n], which);
      assert forall d :: d in Selected(ids[..n], which) ==> d in ids[..n] && d < ids[n];
      if ids[n] in which { AscendingExtends(Selected(ids[..n], which), ids[n]); }
    }
  }

  lemma AscendingExtends(ids: seq<DomainId>, d: DomainId)
    requires Ascending(ids) && forall x :: x in ids ==> x < d
    ensures Ascending(ids + [d])
  {
    forall i, j | 0 <= i < j < |ids + [d]| ensures (ids + [d])[i] < (ids + [d])[j] {
      assert (ids + [d])[i] in ids;
    }
  }

  /** The domains that look different. */
  function Different(before: Domains, after: Domains): set<DomainId> {
    set d | d in after && Shown(after, d) != Shown(before, d)
  }

  function Changed(ids: seq<DomainId>, before: Domains, after: Domains): seq<DomainId> {
    Selected(ids, Different(before, after))
  }

  lemma {:induction false} DomainLinesAre(ids: seq<DomainId>, before: Domains, after: Domains)
    ensures var changed := Changed(ids, before, after);
            && (forall i :: 0 <= i < |changed| ==> Shown(after, changed[i]).Some?)
            && DomainLines(ids, before, after) == DomainRecords(changed, after)
  {
    if ids != [] { DomainLinesAre(ids[..|ids| - 1], before, after); }
  }

  /** The affected domains whose line is put out are all the domains that look different. */
  lemma ChangedAreAll(before: Domains, e: Event, ids: seq<DomainId>)
    requires Ascending(ids) && Ids(ids) == Affected(e)
    ensures var after := AppliedToDomains(before, e);
            && Ascending(Changed(ids, before, after))
            && forall d :: d in Changed(ids, before, after) <==> Shown(after, d) != Shown(before, d)
  {
    var after := AppliedToDomains(before, e);
    SelectedMembers(ids, Different(before, after));
    AffectedKnown(before, e);
    forall d ensures d in Changed(ids, before, after) <==> Shown(after, d) != Shown(before, d) {
      assert d in ids <==> d in Ids(ids);
      if d !in Affected(e) { Untouched(before, e, d); }
    }
  }

  function FreedBy(e: Event, before: Rulesets, after: Rulesets): seq<RulesetId> {
    if e.FreeRuleset? && DropLines(e, before, after) != [] then [e.rulesetId] else []
  }

  lemma FreedAreAll(before: Rulesets, e: Event)
    ensures var after := AppliedToRulesets(before, e);
            && (forall r :: r in FreedBy(e, before, after) <==> DropShown(after, r) != DropShown(before, r))
            && (forall i :: 0 <= i < |FreedBy(e, before, after)| ==>
                  DropShown(after, FreedBy(e, before, after)[i]).Some?)
            && DropLines(e, before, after) == DropRecords(FreedBy(e, before, after), after)
  {
    var after := AppliedToRulesets(before, e);
    forall r ensures r in FreedBy(e, before, after) <==> DropShown(after, r) != DropShown(before, r) {
      IdentityFrame(before, e, r);
      var v, w := FinalIdentity(before, r), FinalIdentity(after, r);
      if v.Some? && w.Some? {
        DropRead(v.value);
        DropRead(w.value);
      }
    }
  }

  function ReportOf(ids: seq<DomainId>, before: State, e: Event, entry: Option<AggregatedDenial>, moved: bool): Report {
    Report(Changed(ids, before.domains, AppliedToDomains(before.domains, e)),
           FreedBy(e, before.rulesets, AppliedToRulesets(before.rulesets, e)), entry, moved)
  }

  lemma ReportExplains(ids: seq<DomainId>, before: State, e: Event, entry: Option<AggregatedDenial>, moved: bool)
    requires Ascending(ids) && Ids(ids) == Affected(e)
    requires entry.Some? ==> entry.value.latestEvent.IsDenial()
    ensures Explains(ReportOf(ids, before, e, entry, moved), before, Applied(before, e))
  {
    ChangedAreAll(before.domains, e, ids);
    DomainLinesAre(ids, before.domains, AppliedToDomains(before.domains, e));
    FreedAreAll(before.rulesets, e);
  }

  lemma ConcatFour(a: seq<string>, b: seq<string>, c: seq<string>, d: seq<string>)
    ensures a + (b + (c + d)) == a + b + c + d
    ensures a + (b + (c + [])) == [] <==> a == [] && b == [] && c == []
  {
  }

  /** The lines of one observation are those its report calls for. */
  lemma OutputIsReport(ids: seq<DomainId>, before: State, e: Event, entry: Option<AggregatedDenial>, moved: bool,
                       last: seq<string>, statistics: string)
    requires Ascending(ids) && Ids(ids) == Affected(e)
    requires entry.Some? ==> entry.value.latestEvent.IsDenial()
    requires last == if Output(ids, before, e, DenialRecords(entry), []) == [] && !moved then [] else [statistics]
    ensures var report := ReportOf(ids, before, e, entry, moved);
            && Explains(report, before, Applied(before, e))
            && Output(ids, before, e, DenialRecords(entry), last) == ReportLines(report, Applied(before, e), statistics)
  {
    ReportExplains(ids, before, e, entry, moved);
    DomainLinesAre(ids, before.domains, AppliedToDomains(before.domains, e));
    FreedAreAll(before.rulesets, e);
    ConcatFour(DomainLines(ids, before.domains, AppliedToDomains(before.domains, e)),
               DropLines(e, before.rulesets, AppliedToRulesets(before.rulesets, e)), DenialRecords(entry), last);
  }

  // ----- counting -----

  function LiveIds(domains: Domains): set<DomainId> {
    set d | d in domains && domains[d].lifecycle.Allocated?
  }

  /** Live by the new state where it has been looked at, and by the old one elsewhere. */
  function Mixed(before: Domains, after: Domains, seen: set<DomainId>): set<DomainId> {
    (LiveIds(before) - seen) + (LiveIds(after) * seen)
  }

  lemma MixedStart(before: Domains, after: Domains)
    ensures Mixed(before, after, {}) == LiveIds(before)
  {
  }

  lemma MixedEnd(before: Domains, e: Event)
    ensures Mixed(before, AppliedToDomains(before, e), Affected(e)) == LiveIds(AppliedToDomains(before, e))
  {
    var after := AppliedToDomains(before, e);
    forall d | d !in Affected(e) ensures d in LiveIds(before) <==> d in LiveIds(after) {
      Untouched(before, e, d);
    }
  }

  lemma BlendStep(a: set<DomainId>, b: set<DomainId>, seen: set<DomainId>, d: DomainId)
    requires d !in seen
    ensures |(a - (seen + {d})) + (b * (seen + {d}))| ==
            |(a - seen) + (b * seen)| + (if d in b && d !in a then 1 else 0) - (if d in a && d !in b then 1 else 0)
  {
    var m, m' := (a - seen) + (b * seen), (a - (seen + {d})) + (b * (seen + {d}));
    if d in a && d !in b {
      assert m == m' + {d};
    } else if d in b && d !in a {
      assert m' == m + {d};
    } else {
      assert m' == m;
    }
  }

  lemma MixedStep(before: Domains, after: Domains, seen: set<DomainId>, d: DomainId)
    requires d !in seen
    ensures var was, now := d in LiveIds(before), d in LiveIds(after);
            |Mixed(before, after, seen + {d})| ==
            |Mixed(before, after, seen)| + (if now && !was then 1 else 0) - (if was && !now then 1 else 0)
  {
    BlendStep(LiveIds(before), LiveIds(after), seen, d);
  }

  /** How a count moves when one more domain is looked at; it never passes `top` on the way up. */
  predicate Moves(was: bool, now: bool, count: nat, next: nat, top: nat) {
    && (was && !now ==> count > 0 && next == count - 1)
    && (!was && now ==> next == count + 1 <= top)
    && (was == now ==> next == count)
  }

  /** The counts along a pass over the listed domains. */
  ghost function MixedCounts(before: Domains, after: Domains, ids: seq<DomainId>): (counts: seq<nat>)
    ensures |counts| == |ids| + 1
    ensures forall k :: 0 <= k <= |ids| ==> counts[k] == |Mixed(before, after, Ids(ids[..k]))|
  {
    seq(|ids| + 1, k requires 0 <= k <= |ids| => |Mixed(before, after, Ids(ids[..k]))|)
  }

  /** The pass takes the old count to the new one, one move at a time. */
  ghost predicate Leads(before: Domains, after: Domains, ids: seq<DomainId>, counts: seq<nat>) {
    && |counts| == |ids| + 1
    && counts[0] == |LiveIds(before)| && counts[|ids|] == |LiveIds(after)|
    && forall n :: 0 <= n < |ids| ==>
         ids[n] in after &&
         Moves(ids[n] in LiveIds(before), ids[n] in LiveIds(after), counts[n], counts[n + 1], |LiveIds(after)|)
  }

  /** Only freeing a domain, which affects that domain alone, makes a live domain not live. */
  lemma LiveKept(before: Domains, e: Event, d: DomainId)
    requires !e.FreeDomain? && d in LiveIds(before)
    ensures d in LiveIds(AppliedToDomains(before, e))
  {
  }

  lemma MixedBound(before: Domains, e: Event, seen: set<DomainId>)
    requires !e.FreeDomain?
    ensures |Mixed(before, AppliedToDomains(before, e), seen)| <= |LiveIds(AppliedToDomains(before, e))|
  {
    var after := AppliedToDomains(before, e);
    forall d | d in Mixed(before, after, seen) ensures d in LiveIds(after) {
      if d in LiveIds(before) { LiveKept(before, e, d); }
    }
    SubsetCount(Mixed(before, after, seen), LiveIds(after));
  }

  // ----- statistics of a history -----

  function DenialsIn(h: seq<Event>): seq<Event> {
    if h == [] then [] else DenialsIn(h[..|h| - 1]) + if h[|h| - 1].IsDenial() then [h[|h| - 1]] else []
  }

  predicate OfKind(e: Event, kind: DenialKind) {
    match kind
    case Fs => e.DenyAccessFs?
    case Net => e.DenyAccessNet?
    case Ptrace => e.DenyPtrace?
    case Signal => e.DenyScopeSignal?
    case AbstractUnix => e.DenyScopeAbstractUnixSocket?
  }

  function KindCount(h: seq<Event>, kind: DenialKind): nat {
    if h == [] then 0 else KindCount(h[..|h| - 1], kind) + if OfKind(h[|h| - 1], kind) then 1 else 0
  }

  /** The counters hold the numbers of denials, in all and of each kind, saturated. */
  ghost predicate Counts(stats: Stats, h: seq<Event>) {
    && stats.totalDenials == Saturated(|DenialsIn(h)|)
    && forall kind :: stats.Counter(kind) == Saturated(KindCount(h, kind))
  }

  lemma HistoryGrows(h: seq<Event>, e: Event)
    ensures DenialsIn(h + [e]) == DenialsIn(h) + if e.IsDenial() then [e] else []
    ensures forall kind ::
              KindCount(h + [e], kind) == KindCount(h, kind) + if KindOfDenial(e) == Some(kind) then 1 else 0
  {
    assert (h + [e])[..|h|] == h;
  }

  lemma {:induction false} KindsAddUp(h: seq<Event>)
    ensures KindCount(h, Fs) + KindCount(h, Net) + KindCount(h, Ptrace) + KindCount(h, Signal) +
            KindCount(h, AbstractUnix)
            == |DenialsIn(h)|
  {
    if h != [] { KindsAddUp(h[..|h| - 1]); }
  }
}
