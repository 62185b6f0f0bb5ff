/** The batch mode of lltop: one observation in, the lines it changes out (lltop/src/batch.rs). */
module Batch {
  import opened Events
  import opened State
  import opened Summary
  import opened StateStore
  import opened StateInvariants
  import opened Recency
  import opened Aggregator
  import opened BatchLines
  import opened BatchLog
  import opened DomainIds

  // ----- the affected domains -----

  method AddDenial(domain: DomainId, parent: Option<DomainId>, membership: Option<Membership>)
    returns (ids: seq<DomainId>)
    ensures Ids(ids) ==
            {domain} + OptionSet(parent) +
            if membership.Some? && membership.value.Sandboxed? then {membership.value.id} else {}
  {
    ids := [domain];
    if parent.Some? { ids := ids + [parent.value]; }
    if membership.Some? && membership.value.Sandboxed? { ids := ids + [membership.value.id]; }
  }

  /** Every domain the observation touches, once, in ascending order. */
  method AffectedDomainIds(e: Event) returns (ids: seq<DomainId>)
    ensures Ascending(ids) && Ids(ids) == Mentioned(e) == Affected(e)
  {
    var raw := [];
    if e.CreateDomain? {
      raw := AddDenial(e.domainId, e.parentId, None);
    } else if e.FreeDomain? || e.EnforceDomain? {
      raw := [e.domainId];
    } else if e.DenyAccessFs? || e.DenyAccessNet? {
      raw := AddDenial(e.context.hierarchy.domainId, e.context.hierarchy.parentId, None);
    } else if e.IsDenial() {
      raw := AddDenial(e.context.hierarchy.domainId, e.context.hierarchy.parentId, Some(e.other));
    }
    assert Ids(raw) == Mentioned(e);
    AffectedIsMentioned(e);
    var sorted := Sort(raw);
    SameIds(sorted, raw);
    ids := Dedup(sorted);
  }

  // ----- one observation -----

  class Batch {
    const store: Store
    const denials: DenialAggregator
    /** The greatest value of the domain counter. */
    const counterLimit: nat
    var stats: Stats
    var allocatedDomains: nat

    /** The parts hold what the observations so far leave. */
    ghost predicate Tracked()
      reads `stats, `allocatedDomains, store, denials
    {
      && store.Valid() && denials.Valid()
      && denials.history == DenialsIn(store.history)
      && Counts(stats, store.history)
      && allocatedDomains <= counterLimit
    }

    /** The lines put out so far are a faithful change log of them. */
    ghost predicate Logged(stream: seq<string>)
      reads `stats, `allocatedDomains, store
    {
      && DomainsLogged(stream, store.domains)
      && RulesetsLogged(stream, store.rulesets)
      && StatsLogged(stream, allocatedDomains, |store.domains|, stats)
    }

    /** The counter says what a recount over the state would. */
    ghost predicate Exact()
      reads `allocatedDomains, store
    {
      allocatedDomains == |LiveIds(store.domains)|
    }

    /** It does for as long as the number of allocated domains has fitted it. */
    ghost predicate Counted()
      reads `allocatedDomains, store
    {
      AlwaysFits(counterLimit, store.history) ==> Exact()
    }

    /** An entry goes with a denial, and is what the aggregator now retains for it. */
    ghost predicate Retains(event: Event, entry: Option<AggregatedDenial>)
      reads denials
    {
      && (entry.Some? <==> event.IsDenial())
      && (entry.Some? ==> entry == EntryFor(denials.entries, event) && entry.value.latestEvent == event)
    }

    /** The report says what the observation changed since `before`, when `live` domains were counted. */
    ghost predicate Accounts(report: Report, event: Event, before: State, live: nat)
      reads `allocatedDomains, store, denials
    {
      && Explains(report, before, store.View())
      && Retains(event, report.denial)
      && report.countsMoved == ((allocatedDomains, |store.domains|) != (live, |before.domains|))
    }

    ghost function Statistics(): string
      reads `stats, `allocatedDomains, store
    {
      FormatStats(allocatedDomains, |store.domains|, stats)
    }

    constructor (capacity: nat, sequenceLimit: nat, counterLimit: nat)
      requires 0 < capacity < sequenceLimit
      ensures fresh(store) && fresh(denials) && store.history == [] && Tracked() && Logged([]) && Counted()
      ensures this.counterLimit == counterLimit
    {
      store := new Store();
      denials := new DenialAggregator(capacity, sequenceLimit);
      this.counterLimit := counterLimit;
      stats, allocatedDomains := NoDenials, 0;
    }

    /** What was shown of each domain before the observation. */
    method Snapshot(ids: seq<DomainId>) returns (previous: seq<Known>)
      ensures |previous| == |ids| && forall i :: 0 <= i < |ids| ==> previous[i] == KnownOf(store.domains, ids[i])
    {
      previous := [];
      for n := 0 to |ids|
        invariant |previous| == n && forall i :: 0 <= i < n ==> previous[i] == KnownOf(store.domains, ids[i])
      {
        previous := previous + [KnownOf(store.domains, ids[n])];
      }
    }

    /** Follows one domain from not counted to counted or back. */
    method Recount(previous: Known, current: Known)
      modifies this`allocatedDomains
      ensures var was, now := previous.Known? && previous.live, current.Known? && current.live;
              allocatedDomains ==
              if was && current.Known? && !now then
                (if old(allocatedDomains) == 0 then 0 else old(allocatedDomains) - 1)
              else if !was && now then
                (if old(allocatedDomains) >= counterLimit then counterLimit else old(allocatedDomains) + 1)
              else old(allocatedDomains)
    {
      if previous.Known? && previous.live && current.Known? && !current.live {
        allocatedDomains := if allocatedDomains == 0 then 0 else allocatedDomains - 1;
      } else if (previous.Unknown? || !previous.live) && current.Known? && current.live {
        allocatedDomains := if allocatedDomains >= counterLimit then counterLimit else allocatedDomains + 1;
      }
    }

    /** One domain of the pass over the affected ones. */
    method EmitDomain(previous: Known, id: DomainId, ghost before: Domains) returns (records: seq<string>)
      requires previous == KnownOf(before, id) && (id in before ==> id in store.domains)
      modifies this`allocatedDomains
      ensures records == LineIfChanged(before, store.domains, id)
      ensures var was, now := id in LiveIds(before), id in LiveIds(store.domains);
              allocatedDomains ==
              if was && !now then
                (if old(allocatedDomains) == 0 then 0 else old(allocatedDomains) - 1)
              else if !was && now then
                (if old(allocatedDomains) >= counterLimit then counterLimit else old(allocatedDomains) + 1)
              else old(allocatedDomains)
    {
      var current := KnownOf(store.domains, id);
      Recount(previous, current);
      records := [];
      if current.Known? && (previous.Unknown? || previous.record != current.record) {
        records := [current.record];
      }
    }

    /** The lines of the affected domains, and their effect on the count. */
    method EmitDomains(ids: seq<DomainId>, previous: seq<Known>, ghost before: Domains, ghost counts: seq<nat>)
      returns (records: seq<string>)
      requires |previous| == |ids| && forall i :: 0 <= i < |ids| ==> previous[i] == KnownOf(before, ids[i])
      requires Leads(before, store.domains, ids, counts)
      requires allocatedDomains <= counterLimit
      modifies this`allocatedDomains
      ensures records == DomainLines(ids, before, store.domains)
      ensures allocatedDomains <= counterLimit
      ensures old(allocatedDomains) == |LiveIds(before)| && |LiveIds(store.domains)| <= counterLimit ==>
                allocatedDomains == |LiveIds(store.domains)|
    {
      ghost var exact := allocatedDomains == |LiveIds(before)| && |LiveIds(store.domains)| <= counterLimit;
      records := [];
      for n := 0 to |ids|
        invariant records == DomainLines(ids[..n], before, store.domains)
        invariant allocatedDomains <= counterLimit
        invariant exact ==> allocatedDomains == counts[n]
      {
        DomainLinesNext(ids, n, before, store.domains);
        var lines := EmitDomain(previous[n], ids[n], before);
        records := records + lines;
      }
      assert ids[..|ids|] == ids;
    }

    method CountDenial(kind: DenialKind)
      modifies this`stats
      ensures stats.totalDenials == SaturatingIncrement(old(stats).totalDenials)
      ensures forall k: DenialKind :: stats.Counter(k) ==
                if k == kind then SaturatingIncrement(old(stats).Counter(k)) else old(stats).Counter(k)
    {
      stats := stats.(totalDenials := SaturatingIncrement(stats.totalDenials));
      match kind
      case Fs => stats := stats.(fs := SaturatingIncrement(stats.fs));
      case Net => stats := stats.(net := SaturatingIncrement(stats.net));
      case Ptrace => stats := stats.(ptrace := SaturatingIncrement(stats.ptrace));
      case Signal => stats := stats.(signal := SaturatingIncrement(stats.signal));
      case AbstractUnix => stats := stats.(abstractUnix := SaturatingIncrement(stats.abstractUnix));
    }

    method FormatEntry(kind: DenialKind, entry: AggregatedDenial) returns (record: string)
      requires KindOfDenial(entry.latestEvent) == Some(kind)
      ensures [record] == DenialRecords(Some(entry)) && TopicOf(record) == OtherTopic
    {
      record := FormatDenial(kind, entry);
      DenialTopicOf(kind, entry);
    }

    /** Aggregates and counts a denial, and always has a line for it. */
    method EmitDenial(event: Event, ghost h: seq<Event>)
      returns (records: seq<string>, ghost entry: Option<AggregatedDenial>)
      requires denials.Valid() && denials.history == DenialsIn(h) && Counts(stats, h)
      modifies this`stats, denials
      ensures denials.Valid() && denials.history == DenialsIn(h + [event]) && Counts(stats, h + [event])
      ensures Retains(event, entry) && records == DenialRecords(entry) && AtMostOne(records, OtherTopic)
      ensures entry.None? ==> stats == old(stats)
    {
      HistoryGrows(h, event);
      records, entry := [], None;
      var kind := KindOfDenial(event);
      if kind.Some? {
        var observed := denials.ObserveEntry(event);
        var record := FormatEntry(kind.value, observed.value);
        records, entry := [record], observed;
        ghost var previous := stats;
        CountDenial(kind.value);
        CountsGrow(h, event, previous, stats);
      } else {
        CountsGrow(h, event, stats, stats);
      }
    }

    method EmitDrop(event: Event, previous: Option<RulesetVersion>, ghost before: Rulesets)
      returns (records: seq<string>)
      requires event.FreeRuleset? ==> previous == FinalIdentity(before, event.rulesetId)
      ensures records == DropLines(event, before, store.rulesets)
    {
      records := [];
      if event.FreeRuleset? {
        var current := FinalIdentity(store.rulesets, event.rulesetId);
        if current != previous && current.Some? {
          records := [FormatDrop(current.value)];
        }
      }
    }

    method EmitStats(changed: bool, total: nat) returns (records: seq<string>)
      ensures AtMostOne(records, StatsTopic)
      ensures records == if changed then [FormatStats(allocatedDomains, total, stats)] else []
    {
      records := [];
      if changed {
        StatsTopicOf(allocatedDomains, total, stats);
        records := [FormatStats(allocatedDomains, total, stats)];
      }
    }

    /** The lines of the domains and of the freed ruleset. */
    method EmitState(event: Event, ids: seq<DomainId>, previous: seq<Known>, identity: Option<RulesetVersion>,
                     ghost before: State)
      returns (domainLines: seq<string>, drop: seq<string>)
      requires store.View() == Applied(before, event)
      requires Ascending(ids) && Ids(ids) == Affected(event)
      requires |previous| == |ids| && forall i :: 0 <= i < |ids| ==> previous[i] == KnownOf(before.domains, ids[i])
      requires event.FreeRuleset? ==> identity == FinalIdentity(before.rulesets, event.rulesetId)
      requires allocatedDomains <= counterLimit
      modifies this`allocatedDomains
      ensures domainLines == DomainLines(ids, before.domains, store.domains)
      ensures drop == DropLines(event, before.rulesets, store.rulesets)
      ensures allocatedDomains <= counterLimit
      ensures old(allocatedDomains) == |LiveIds(before.domains)| && |LiveIds(store.domains)| <= counterLimit ==>
                allocatedDomains == |LiveIds(store.domains)|
    {
      ghost var counts := AppliedLeads(before.domains, event, ids);
      domainLines := EmitDomains(ids, previous, before.domains, counts);
      drop := EmitDrop(event, identity, before.rulesets);
    }

    /** Applies the observation; the lines it changes, in three groups. */
    method Gather(event: Event)
      returns (ids: seq<DomainId>, domainLines: seq<string>, drop: seq<string>, denial: seq<string>,
               ghost entry: Option<AggregatedDenial>)
      requires Tracked()
      modifies this`stats, this`allocatedDomains, store, denials
      ensures Tracked() && store.history == old(store.history) + [event] &&
              store.View() == Applied(old(store.View()), event)
      ensures old(allocatedDomains) == |LiveIds(old(store.domains))| && |LiveIds(store.domains)| <= counterLimit ==>
                allocatedDomains == |LiveIds(store.domains)|
      ensures Ascending(ids) && Ids(ids) == Affected(event)
      ensures domainLines == DomainLines(ids, old(store.domains), store.domains)
      ensures drop == DropLines(event, old(store.rulesets), store.rulesets)
      ensures Retains(event, entry) && denial == DenialRecords(entry) && AtMostOne(denial, OtherTopic)
      ensures entry.None? ==> stats == old(stats)
    {
      ids := AffectedDomainIds(event);
      var previous := Snapshot(ids);
      var identity := if event.FreeRuleset? then FinalIdentity(store.rulesets, event.rulesetId) else None;
      ghost var before, h := store.View(), store.history;
      store.Apply(event);
      denial, entry := EmitDenial(event, h);
      domainLines, drop := EmitState(event, ids, previous, identity, before);
    }

    /** All the lines, the statistics last if anything changed. */
    method Compose(event: Event)
      returns (ghost ids: seq<DomainId>, ghost entry: Option<AggregatedDenial>, ghost last: seq<string>,
               records: seq<string>)
      requires Tracked()
      modifies this`stats, this`allocatedDomains, store, denials
      ensures Tracked() && store.history == old(store.history) + [event] &&
              store.View() == Applied(old(store.View()), event)
      ensures old(allocatedDomains) == |LiveIds(old(store.domains))| && |LiveIds(store.domains)| <= counterLimit ==>
                allocatedDomains == |LiveIds(store.domains)|
      ensures Ascending(ids) && Ids(ids) == Affected(event)
      ensures Retains(event, entry) && AtMostOne(DenialRecords(entry), OtherTopic) && AtMostOne(last, StatsTopic)
      ensures records == Output(ids, old(store.View()), event, DenialRecords(entry), last)
      ensures var moved := (allocatedDomains, |store.domains|) != old((allocatedDomains, |store.domains|));
              last == if Output(ids, old(store.View()), event, DenialRecords(entry), []) == [] && !moved then []
                      else [Statistics()]
      ensures last == [] ==> stats == old(stats)
    {
      var counts := (allocatedDomains, |store.domains|);
      var ids', domainLines, drop, denial;
      ids', domainLines, drop, denial, entry := Gather(event);
      var changed := domainLines != [] || drop != [] || denial != [] || counts != (allocatedDomains, |store.domains|);
      var last' := EmitStats(changed, |store.domains|);
      records := domainLines + (drop + (denial + last'));
      ids, last := ids', last';
    }

    /** The lines, with what logging them needs. */
    method Announce(event: Event)
      returns (ghost ids: seq<DomainId>, ghost last: seq<string>, records: seq<string>, ghost report: Report)
      requires Tracked()
      modifies this`stats, this`allocatedDomains, store, denials
      ensures Tracked() && store.history == old(store.history) + [event] &&
              store.View() == Applied(old(store.View()), event)
      ensures OwnIds(store.domains)
      ensures old(Exact()) && |LiveIds(store.domains)| <= counterLimit ==> Exact()
      ensures Ascending(ids) && Ids(ids) == Affected(event)
      ensures Accounts(report, event, old(store.View()), old(allocatedDomains))
      ensures AtMostOne(DenialRecords(report.denial), OtherTopic) && AtMostOne(last, StatsTopic)
      ensures records == Output(ids, old(store.View()), event, DenialRecords(report.denial), last)
      ensures records == ReportLines(report, store.View(), Statistics())
      ensures || last == [Statistics()]
              || (last == [] && !report.countsMoved && stats == old(stats))
    {
      ghost var before, live := store.View(), allocatedDomains;
      ghost var entry;
      ids, entry, last, records := Compose(event);
      OwnIdsAlways(store.history);
      ghost var moved := (allocatedDomains, |store.domains|) != (live, |before.domains|);
      OutputIsReport(ids, before, event, entry, moved, last, Statistics());
      report := ReportOf(ids, before, event, entry, moved);
    }

    method Advance(event: Event, ghost stream: seq<string>) returns (records: seq<string>, ghost report: Report)
      requires Tracked() && Logged(stream)
      modifies `stats, `allocatedDomains, store, denials
      ensures Tracked() && Logged(stream + records)
      ensures store.history == old(store.history) + [event]
      ensures Accounts(report, event, old(store.View()), old(allocatedDomains))
      ensures records == ReportLines(report, store.View(), Statistics())
      ensures old(Exact()) && |LiveIds(store.domains)| <= counterLimit ==> Exact()
    {
      ghost var before, counters, live := store.View(), stats, allocatedDomains;
      assert StatsLogged(stream, live, |before.domains|, counters);
      assert DomainsLogged(stream, before.domains) && RulesetsLogged(stream, before.rulesets);
      ghost var ids, last;
      ids, last, records, report := Announce(event);
      assert last == [] ==> StatsLogged(stream, allocatedDomains, |store.domains|, stats);
      OutputLogs(stream, ids, before, event, DenialRecords(report.denial), last, allocatedDomains, |store.domains|,
                 stats);
    }

    /** Applies one observation and returns the lines it changes: one for each domain that looks
        different, in ascending order, one for a ruleset freed, one for a denial, and the
        statistics after them; none at all exactly when nothing changed. `stream` is everything
        put out before: after any run all the lines together are a faithful change log, and the
        counters are exact. */
    method Process(event: Event, ghost stream: seq<string>) returns (records: seq<string>, ghost report: Report)
      requires Tracked() && Logged(stream) && Counted()
      modifies `stats, `allocatedDomains, store, denials
      ensures Tracked() && Logged(stream + records) && Counted()
      ensures store.history == old(store.history) + [event]
      ensures Accounts(report, event, old(store.View()), old(allocatedDomains))
      ensures records == ReportLines(report, store.View(), Statistics())
      ensures records == [] <==>
              && (forall d :: Shown(store.domains, d) == Shown(old(store.domains), d))
              && (forall r :: DropShown(store.rulesets, r) == DropShown(old(store.rulesets), r))
              && !event.IsDenial()
              && (allocatedDomains, |store.domains|) == old((allocatedDomains, |store.domains|))
    {
      ghost var before := store.View();
      AlwaysFitsExtends(counterLimit, store.history, event);
      records, report := Advance(event, stream);
      SilentIff(report, before, store.View(), Statistics());
    }
  }

  /** The number of allocated domains was within the limit after every observation. */
  ghost predicate AlwaysFits(limit: nat, h: seq<Event>) {
    |LiveIds(Run(h).domains)| <= limit && (h != [] ==> AlwaysFits(limit, h[..|h| - 1]))
  }

  lemma AlwaysFitsExtends(limit: nat, h: seq<Event>, e: Event)
    ensures AlwaysFits(limit, h + [e]) <==> AlwaysFits(limit, h) && |LiveIds(Run(h + [e]).domains)| <= limit
  {
    assert (h + [e])[..|h|] == h;
  }

  lemma OwnIdsAlways(h: seq<Event>)
    ensures OwnIds(Run(h).domains)
  {
    RunConsistent(h);
  }

  /** An observation moves the count as a pass over the domains it affects does. */
  lemma AppliedLeads(before: Domains, e: Event, ids: seq<DomainId>) returns (counts: seq<nat>)
    requires Ascending(ids) && Ids(ids) == Affected(e)
    ensures Leads(before, AppliedToDomains(before, e), ids, counts)
  {
    var after := AppliedToDomains(before, e);
    counts := MixedCounts(before, after, ids);
    assert Ids(ids[..0]) == {};
    assert ids[..|ids|] == ids;
    MixedStart(before, after);
    MixedEnd(before, e);
    AffectedKnown(before, e);
    forall n | 0 <= n < |ids|
      ensures ids[n] in after &&
              Moves(ids[n] in LiveIds(before), ids[n] in LiveIds(after), counts[n], counts[n + 1], |LiveIds(after)|)
    {
      NextId(ids, n);
      CountStep(before, e, Ids(ids[..n]), ids[n]);
    }
  }

  lemma NextId(ids: seq<DomainId>, n: nat)
    requires Ascending(ids) && n < |ids|
    ensures ids[n] in Ids(ids) && ids[n] !in Ids(ids[..n])
    ensures Ids(ids[..n + 1]) == Ids(ids[..n]) + {ids[n]}
  {
    assert ids[..n + 1] == ids[..n] + [ids[n]];
  }

  lemma DomainLinesNext(ids: seq<DomainId>, n: nat, before: Domains, after: Domains)
    requires n < |ids|
    ensures DomainLines(ids[..n + 1], before, after) ==
            DomainLines(ids[..n], before, after) + LineIfChanged(before, after, ids[n])
  {
    assert ids[..n + 1][..n] == ids[..n];
  }

  lemma CountsGrow(h: seq<Event>, e: Event, before: Stats, after: Stats)
    requires Counts(before, h)
    requires if e.IsDenial() then
               && after.totalDenials == SaturatingIncrement(before.totalDenials)
               && forall k: DenialKind :: after.Counter(k) ==
                    if Some(k) == KindOfDenial(e) then SaturatingIncrement(before.Counter(k)) else before.Counter(k)
             else after == before
    ensures Counts(after, h + [e])
  {
    HistoryGrows(h, e);
  }

  /** One domain moved between the two ways of counting. */
  lemma CountStep(before: Domains, e: Event, seen: set<DomainId>, d: DomainId)
    requires d in Affected(e) && d !in seen
    ensures var after := AppliedToDomains(before, e);
            Moves(d in LiveIds(before), d in LiveIds(after), |Mixed(before, after, seen)|,
                  |Mixed(before, after, seen + {d})|, |LiveIds(after)|)
  {
    var after := AppliedToDomains(before, e);
    MixedStep(before, after, seen, d);
    if !e.FreeDomain? { MixedBound(before, e, seen + {d}); }
  }
}
