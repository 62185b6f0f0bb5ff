/** The bounded denial aggregator: a map of entries stamped with ingestion
    sequence numbers, which are compacted when the counter reaches its limit. */
module Aggregator {
  import opened Events
  import opened Recency
  import opened Identity

  datatype AggregatedDenial = AggregatedDenial(
    key: DenialKey,
    occurrenceCount: nat,
    firstTimestamp: Timestamp,
    latestTimestamp: Timestamp,
    sameExec: bool,
    logged: bool,
    latestEvent: Event,
    lastObservedSequence: nat)

  predicate Matches(d: AggregatedDenial, t: Tally) {
    && d.key == t.key
    && d.occurrenceCount == t.count
    && d.firstTimestamp == t.firstTimestamp
    && d.latestEvent == t.latest
    && KeyOf(d.latestEvent) == Some(d.key)
    && d.latestTimestamp == d.latestEvent.timestamp
    && d.sameExec == d.latestEvent.context.sameExec
    && d.logged == d.latestEvent.context.logged
  }

  type Entries = map<DenialKey, AggregatedDenial>

  /** The map holds the tallies of the list, with sequence numbers in list order. */
  ghost predicate Realizes(entries: Entries, list: seq<Tally>) {
    && entries.Keys == Members(Keys(list))
    && (forall i :: 0 <= i < |list| ==> list[i].key in entries && Matches(entries[list[i].key], list[i]))
    && (forall i, j :: 0 <= i < j < |list| ==>
          entries[list[i].key].lastObservedSequence < entries[list[j].key].lastObservedSequence)
  }

  ghost predicate Stamped(entries: Entries, sequence: nat) {
    forall k :: k in entries ==> entries[k].lastObservedSequence <= sequence
  }

  lemma HasIffKey(entries: Entries, list: seq<Tally>, k: DenialKey)
    requires Realizes(entries, list)
    ensures k in entries <==> Has(list, k)
  {
    if k in entries {
      assert k in Keys(list);
      var i :| 0 <= i < |Keys(list)| && Keys(list)[i] == k;
      assert list[i].key == k;
    }
    if Has(list, k) {
      var i :| 0 <= i < |list| && list[i].key == k;
      assert Keys(list)[i] == k;
    }
  }

  lemma RealizesCount(entries: Entries, list: seq<Tally>)
    requires Realizes(entries, list)
    ensures |entries| == |list|
  {
    assert Distinct(Keys(list));
    DistinctCount(Keys(list));
    assert |entries.Keys| == |entries|;
  }

  lemma {:induction false} DroppingCuts(list: seq<Tally>, k: DenialKey, p: nat)
    requires p < |list| && list[p].key == k
    requires forall i :: 0 <= i < |list| && i != p ==> list[i].key != k
    ensures Dropping(list, k) == list[..p] + list[p + 1..]
  {
    if p == 0 {
      DroppingAbsent(list[1..], k);
    } else {
      DroppingCuts(list[1..], k, p - 1);
      assert list[..p] == [list[0]] + list[1..][..p - 1];
      assert list[p + 1..] == list[1..][p..];
    }
  }

  lemma {:induction false} DroppingAbsent(list: seq<Tally>, k: DenialKey)
    requires forall i :: 0 <= i < |list| ==> list[i].key != k
    ensures Dropping(list, k) == list
  {
    if list != [] { DroppingAbsent(list[1..], k); }
  }

  lemma {:induction false} FindAt(list: seq<Tally>, p: nat)
    requires p < |list|
    requires forall i :: 0 <= i < p ==> list[i].key != list[p].key
    ensures Has(list, list[p].key) && Find(list, list[p].key) == list[p]
  {
    assert list[p].key == list[p].key;
    if p > 0 {
      FindAt(list[1..], p - 1);
    }
  }

  /** An entry of greatest sequence number realizes an appended tally. */
  lemma RealizesAppend(entries: Entries, list: seq<Tally>, d: AggregatedDenial, t: Tally)
    requires Realizes(entries, list)
    requires t.key !in entries && Matches(d, t)
    requires forall k :: k in entries ==> entries[k].lastObservedSequence < d.lastObservedSequence
    ensures Realizes(entries[t.key := d], list + [t])
  {
    var list', entries' := list + [t], entries[t.key := d];
    assert Keys(list') == Keys(list) + [t.key];
    assert Members(Keys(list')) == Members(Keys(list)) + {t.key};
    forall i | 0 <= i < |list| ensures list[i].key in entries { assert Keys(list)[i] in Keys(list); }
  }

  lemma SomeMember(s: seq<DenialKey>)
    ensures s != [] ==> Members(s) != {}
  {
    if s != [] { assert s[0] in Members(s); }
  }

  lemma MembersTail(keys: seq<DenialKey>, n: nat)
    requires Distinct(keys) && n < |keys|
    ensures Members(keys[n + 1..]) == Members(keys[n..]) - {keys[n]}
  {
    assert keys[n..] == [keys[n]] + keys[n + 1..];
  }

  /** Among the tallies from `n` on, the least sequence number is at `n`. */
  lemma NextOldest(entries: Entries, list: seq<Tally>, n: nat, k: DenialKey)
    requires Realizes(entries, list) && n <= |list|
    requires k in Members(Keys(list)[n..])
    requires forall c :: c in Members(Keys(list)[n..]) ==>
               c in entries && k in entries && entries[k].lastObservedSequence <= entries[c].lastObservedSequence
    ensures n < |list| && k == Keys(list)[n]
    ensures Members(Keys(list)[n + 1..]) == Members(Keys(list)[n..]) - {k}
  {
    var tail := Keys(list)[n..];
    var i :| 0 <= i < |tail| && tail[i] == k;
    assert tail[0] in Members(tail);
    assert tail[0] == list[n].key && k == list[n + i].key;
    assert i == 0;
    assert Distinct(Keys(list));
    MembersTail(Keys(list), n);
  }

  function Cut<T>(s: seq<T>, p: nat): (r: seq<T>)
    requires p < |s|
    ensures |r| == |s| - 1
    ensures forall i :: 0 <= i < |r| ==> r[i] == s[if i < p then i else i + 1]
  {
    s[..p] + s[p + 1..]
  }

  lemma CutMembers(s: seq<DenialKey>, p: nat)
    requires Distinct(s) && p < |s|
    ensures Members(Cut(s, p)) == Members(s) - {s[p]}
  {
    forall k | k in s && k != s[p] ensures k in Cut(s, p) {
      var i :| 0 <= i < |s| && s[i] == k;
      assert Cut(s, p)[if i < p then i else i - 1] == k;
    }
  }

  /** Removing an entry realizes the list without it. */
  lemma CutKeys(list: seq<Tally>, p: nat)
    requires p < |list|
    ensures Keys(Cut(list, p)) == Cut(Keys(list), p)
  {
  }

  lemma CutTallies(entries: Entries, list: seq<Tally>, p: nat)
    requires Realizes(entries, list) && p < |list|
    ensures var cut, rest := Cut(list, p), entries - {list[p].key};
            && (forall i :: 0 <= i < |cut| ==> cut[i].key in rest && Matches(rest[cut[i].key], cut[i]))
            && (forall i, j :: 0 <= i < j < |cut| ==>
                  rest[cut[i].key].lastObservedSequence < rest[cut[j].key].lastObservedSequence)
  {
  }

  lemma RealizesCut(entries: Entries, list: seq<Tally>, p: nat)
    requires Realizes(entries, list)
    requires p < |list|
    ensures Realizes(entries - {list[p].key}, Cut(list, p))
  {
    assert Distinct(Keys(list));
    CutMembers(Keys(list), p);
    CutKeys(list, p);
    CutTallies(entries, list, p);
  }

  ghost predicate Renumbered(before: Entries, after: Entries, order: seq<DenialKey>) {
    && before.Keys == after.Keys == Members(order)
    && forall i :: 0 <= i < |order| ==>
         order[i] in before && order[i] in after &&
         after[order[i]] == before[order[i]].(lastObservedSequence := i + 1)
  }

  lemma RenumberedRealizes(before: Entries, after: Entries, list: seq<Tally>)
    requires Realizes(before, list)
    requires Renumbered(before, after, Keys(list))
    ensures Realizes(after, list)
    ensures Stamped(after, |list|)
  {
    forall i | 0 <= i < |list|
      ensures list[i].key in after && after[list[i].key] == before[list[i].key].(lastObservedSequence := i + 1)
    {
      assert Keys(list)[i] == list[i].key;
    }
    forall k | k in after ensures after[k].lastObservedSequence <= |list| {
      HasIffKey(before, list, k);
    }
  }

  function SaturatingSuccessor(n: nat, limit: nat): nat {
    if n < limit then n + 1 else limit
  }

  datatype BuildError = InvalidCapacity | Reservation

  class DenialAggregator {
    const capacity: nat
    /** The greatest sequence number, `u128::MAX` in the program. */
    const sequenceLimit: nat
    var entries: Entries
    var ingestionSequence: nat
    ghost var history: seq<Event>

    ghost predicate Valid()
      reads this
    {
      && 0 < capacity < sequenceLimit
      && ingestionSequence <= sequenceLimit
      && Realizes(entries, Aggregate(history, capacity))
      && Stamped(entries, ingestionSequence)
    }

    constructor (capacity: nat, sequenceLimit: nat)
      requires 0 < capacity < sequenceLimit
      ensures Valid() && history == [] && entries == map[]
      ensures this.capacity == capacity && this.sequenceLimit == sequenceLimit
    {
      this.capacity, this.sequenceLimit := capacity, sequenceLimit;
      entries, ingestionSequence, history := map[], 0, [];
    }

    /** The builder: a zero capacity is refused, and storage may be. */
    static method Build(capacity: nat, sequenceLimit: nat, reserved: bool)
      returns (built: Option<DenialAggregator>, error: Option<BuildError>)
      requires capacity < sequenceLimit
      ensures built.Some? <==> capacity != 0 && reserved
      ensures built.Some? ==> fresh(built.value) && built.value.Valid() && built.value.history == [] &&
                              built.value.capacity == capacity
      ensures error == if capacity == 0 then Some(InvalidCapacity) else if !reserved then Some(Reservation) else None
    {
      if capacity == 0 {
        return None, Some(InvalidCapacity);
      }
      if !reserved {
        return None, Some(Reservation);
      }
      var aggregator := new DenialAggregator(capacity, sequenceLimit);
      return Some(aggregator), None;
    }

    /** `min_by_key` over some of the entries. */
    method LeastRecent(candidates: set<DenialKey>) returns (least: DenialKey)
      requires candidates != {} && candidates <= entries.Keys
      ensures least in candidates
      ensures forall k :: k in candidates ==> entries[least].lastObservedSequence <= entries[k].lastObservedSequence
    {
      least :| least in candidates;
      var rest := candidates - {least};
      while rest != {}
        invariant rest <= candidates && least in candidates
        invariant forall k :: k in candidates - rest ==>
                  entries[least].lastObservedSequence <= entries[k].lastObservedSequence
      {
        var k :| k in rest;
        if entries[k].lastObservedSequence < entries[least].lastObservedSequence {
          least := k;
        }
        rest := rest - {k};
      }
    }

    /** The keys sorted by sequence number. */
    method ByRecency(ghost list: seq<Tally>) returns (order: seq<DenialKey>)
      requires Realizes(entries, list)
      ensures order == Keys(list)
    {
      order := [];
      var rest := entries.Keys;
      RealizesCount(entries, list);
      ghost var keys := Keys(list);
      assert keys[0..] == keys;
      while rest != {}
        invariant |order| <= |keys| && order == keys[..|order|]
        invariant rest == Members(keys[|order|..])
        invariant rest <= entries.Keys
        decreases rest
      {
        var k := LeastRecent(rest);
        ghost var n := |order|;
        NextOldest(entries, list, n, k);
        assert keys[..n + 1] == keys[..n] + [keys[n]];
        order := order + [k];
        rest := rest - {k};
      }
      SomeMember(keys[|order|..]);
    }

    method Renumber(order: seq<DenialKey>)
      requires Distinct(order) && entries.Keys == Members(order)
      requires |order| <= sequenceLimit
      modifies this`entries, this`ingestionSequence
      ensures Renumbered(old(entries), entries, order)
      ensures ingestionSequence == |order|
    {
      var sequence := 0;
      assert forall i :: 0 <= i < |order| ==> order[i] in Members(order);
      for n := 0 to |order|
        invariant sequence == n
        invariant entries.Keys == old(entries).Keys
        invariant forall i :: 0 <= i < |order| ==> order[i] in entries
        invariant forall i :: 0 <= i < n ==> entries[order[i]] == old(entries)[order[i]].(lastObservedSequence := i + 1)
        invariant forall i :: n <= i < |order| ==> entries[order[i]] == old(entries)[order[i]]
      {
        sequence := SaturatingSuccessor(sequence, sequenceLimit);
        entries := entries[order[n] := entries[order[n]].(lastObservedSequence := sequence)];
      }
      ingestionSequence := sequence;
    }

    /** Renumbers the entries from one, keeping their recency order. */
    method Compact()
      requires Valid()
      modifies this`entries, this`ingestionSequence
      ensures Valid()
      ensures Renumbered(old(entries), entries, Keys(Aggregate(history, capacity)))
      ensures ingestionSequence < sequenceLimit
    {
      ghost var list := Aggregate(history, capacity);
      AggregateBounded(history, capacity);
      var order := ByRecency(list);
      Renumber(order);
      RenumberedRealizes(old(entries), entries, list);
    }

    method NextIngestionSequence() returns (sequence: nat)
      requires Valid()
      modifies this`entries, this`ingestionSequence
      ensures Valid()
      ensures sequence == ingestionSequence
      ensures entries.Keys == old(entries).Keys
      ensures forall k :: k in entries ==> entries[k].lastObservedSequence < sequence
      ensures forall k :: k in entries ==>
                entries[k] == old(entries)[k].(lastObservedSequence := entries[k].lastObservedSequence)
    {
      ghost var list := Aggregate(history, capacity);
      if ingestionSequence == sequenceLimit {
        Compact();
        forall k | k in entries
          ensures k in old(entries) &&
                  entries[k] == old(entries)[k].(lastObservedSequence := entries[k].lastObservedSequence)
        {
          HasIffKey(entries, list, k);
          var i :| 0 <= i < |list| && list[i].key == k;
          assert Keys(list)[i] == k;
        }
      }
      ingestionSequence := SaturatingSuccessor(ingestionSequence, sequenceLimit);
      sequence := ingestionSequence;
    }

    /** A further observation of a retained key. */
    method Refresh(event: Event, sequence: nat) returns (hit: AggregatedDenial)
      requires KeyOf(event).Some? && KeyOf(event).value in entries
      requires Realizes(entries, Aggregate(history, capacity))
      requires forall k :: k in entries ==> entries[k].lastObservedSequence < sequence
      modifies this`entries
      ensures Realizes(entries, Observe(Aggregate(history, capacity), event, capacity))
      ensures Stamped(entries, sequence)
      ensures KeyOf(event).value in entries && hit == entries[KeyOf(event).value] && hit.latestEvent == event
    {
      var key := KeyOf(event).value;
      hit := entries[key];
      hit := hit.(occurrenceCount := SaturatingIncrement(hit.occurrenceCount));
      hit := hit.(latestTimestamp := event.timestamp);
      hit := hit.(sameExec := event.context.sameExec);
      hit := hit.(logged := event.context.logged);
      hit := hit.(latestEvent := event);
      hit := hit.(lastObservedSequence := sequence);
      HitRealizes(entries, Aggregate(history, capacity), event, hit, capacity);
      entries := entries[key := hit];
    }

    /** The first observation of a key that is not retained. */
    method Insert(event: Event, sequence: nat) returns (added: AggregatedDenial)
      requires KeyOf(event).Some? && KeyOf(event).value !in entries
      requires capacity > 0 && Realizes(entries, Aggregate(history, capacity))
      requires forall k :: k in entries ==> entries[k].lastObservedSequence < sequence
      modifies this`entries
      ensures Realizes(entries, Observe(Aggregate(history, capacity), event, capacity))
      ensures Stamped(entries, sequence)
      ensures KeyOf(event).value in entries && added == entries[KeyOf(event).value] && added.latestEvent == event
    {
      ghost var list := Aggregate(history, capacity);
      var key := KeyOf(event).value;
      added := AggregatedDenial(key, 1, event.timestamp, event.timestamp,
                                event.context.sameExec, event.context.logged, event, sequence);
      MissRealizes(entries, list, event, added, capacity);
      if |entries| >= capacity {
        var least := LeastRecent(entries.Keys);
        OldestIsFirst(entries, list, least);
        entries := entries - {least};
      }
      entries := entries[key := added];
    }

    /** Observes one event, realizing the list after it. */
    method Absorb(event: Event) returns (entry: Option<AggregatedDenial>)
      requires Valid()
      modifies this`entries, this`ingestionSequence, this`history
      ensures Valid()
      ensures history == old(history) + [event]
      ensures entry.Some? <==> event.IsDenial()
      ensures entry.Some? ==>
                && KeyOf(event).value in entries
                && entry.value == entries[KeyOf(event).value]
                && entry.value.latestEvent == event
    {
      KeyIffDenial(event);
      AggregateExtends(history, event, capacity);
      var key := KeyOf(event);
      if key.None? {
        entry := None;
      } else {
        var sequence := NextIngestionSequence();
        var affected;
        if key.value in entries {
          affected := Refresh(event, sequence);
        } else {
          affected := Insert(event, sequence);
        }
        entry := Some(affected);
      }
      history := history + [event];
    }

    /** Observes one event; a denial always returns its retained entry, brought up to date. */
    method ObserveEntry(event: Event) returns (entry: Option<AggregatedDenial>)
      requires Valid()
      modifies this`entries, this`ingestionSequence, this`history
      ensures Valid()
      ensures history == old(history) + [event]
      ensures entry.Some? <==> event.IsDenial()
      ensures entry.Some? ==> entry == EntryFor(entries, event) && UpToDate(history, capacity, entry.value, event)
    {
      entry := Absorb(event);
      if event.IsDenial() { NewestEntry(entries, history, capacity, event); }
    }
  }

  /** The entry counts the denials like `x` up to the latest, which is `x` itself. */
  ghost predicate UpToDate(h: seq<Event>, capacity: nat, d: AggregatedDenial, x: Event) {
    d.latestEvent == x && exists i, j :: j == |h| - 1 && EntryRecords(h, capacity, d, x, i, j)
  }

  /** The entry that an observed denial leaves. */
  lemma NewestEntry(entries: Entries, h: seq<Event>, capacity: nat, x: Event)
    requires capacity > 0 && Realizes(entries, Aggregate(h, capacity))
    requires h != [] && h[|h| - 1] == x && x.IsDenial() && EntryFor(entries, x).Some?
    ensures UpToDate(h, capacity, EntryFor(entries, x).value, x)
  {
    var i, j := EntryMeaning(entries, h, capacity, x);
    KeysAgree(x, x);
    assert j == |h| - 1;
  }

  /** The entry of least sequence number is the head of the list. */
  lemma OldestIsFirst(entries: Entries, list: seq<Tally>, least: DenialKey)
    requires Realizes(entries, list)
    requires least in entries
    requires forall k :: k in entries ==> entries[least].lastObservedSequence <= entries[k].lastObservedSequence
    ensures list != [] && least == list[0].key
  {
    HasIffKey(entries, list, least);
    var i :| 0 <= i < |list| && list[i].key == least;
    assert list[0].key in entries;
  }

  /** Adding an entry, after evicting the head of a full list, realizes the extended list. */
  lemma MissRealizes(entries: Entries, list: seq<Tally>, e: Event, added: AggregatedDenial, capacity: nat)
    requires Realizes(entries, list) && capacity > 0
    requires KeyOf(e).Some? && KeyOf(e).value !in entries
    requires forall k :: k in entries ==> entries[k].lastObservedSequence < added.lastObservedSequence
    requires Matches(added, Tally(KeyOf(e).value, 1, e.timestamp, e))
    ensures var room := if |entries| >= capacity && list != [] then entries - {list[0].key} else entries;
            Realizes(room[KeyOf(e).value := added], Observe(list, e, capacity))
  {
    var k := KeyOf(e).value;
    HasIffKey(entries, list, k);
    RealizesCount(entries, list);
    if |entries| >= capacity {
      RealizesCut(entries, list, 0);
      assert Cut(list, 0) == list[1..];
      RealizesAppend(entries - {list[0].key}, list[1..], added, Tally(k, 1, e.timestamp, e));
    } else {
      RealizesAppend(entries, list, added, Tally(k, 1, e.timestamp, e));
    }
  }

  /** Where a listed key stands, and the list without it. */
  lemma ListedAt(entries: Entries, list: seq<Tally>, k: DenialKey) returns (p: nat)
    requires Realizes(entries, list) && k in entries
    ensures p < |list| && list[p].key == k && Has(list, k)
    ensures Find(list, k) == list[p] && Dropping(list, k) == Cut(list, p)
  {
    HasIffKey(entries, list, k);
    p :| 0 <= p < |list| && list[p].key == k;
    forall i | 0 <= i < |list| && i != p ensures list[i].key != k { }
    FindAt(list, p);
    DroppingCuts(list, k, p);
  }

  /** Refreshing an entry with a greater sequence number realizes the refreshed list. */
  lemma HitRealizes(entries: Entries, list: seq<Tally>, e: Event, hit: AggregatedDenial, capacity: nat)
    requires Realizes(entries, list)
    requires KeyOf(e).Some? && KeyOf(e).value in entries
    requires forall k :: k in entries ==> entries[k].lastObservedSequence < hit.lastObservedSequence
    requires var old' := entries[KeyOf(e).value];
             hit == AggregatedDenial(old'.key, SaturatingIncrement(old'.occurrenceCount), old'.firstTimestamp,
                                     e.timestamp, e.context.sameExec, e.context.logged, e, hit.lastObservedSequence)
    ensures Realizes(entries[KeyOf(e).value := hit], Observe(list, e, capacity))
  {
    var k := KeyOf(e).value;
    var p := ListedAt(entries, list, k);
    RealizesCut(entries, list, p);
    var t := list[p].(count := SaturatingIncrement(list[p].count), latest := e);
    RealizesAppend(entries - {k}, Cut(list, p), hit, t);
    assert (entries - {k})[k := hit] == entries[k := hit];
  }

  /** After any history the map holds an entry for exactly the identities with fewer than
      `capacity` others observed since, one for each, with the saturated number of its denials
      since its last insertion and the facts of the first and the last of them. */
  lemma EntriesMeaning(entries: Entries, h: seq<Event>, capacity: nat)
    requires capacity > 0 && Realizes(entries, Aggregate(h, capacity))
    ensures |entries| <= capacity
    ensures forall x: Event :: x.IsDenial() ==> (EntryFor(entries, x).Some? <==> Recent(h, capacity, x))
    ensures forall x: Event :: EntryFor(entries, x).Some? ==>
              exists i, j :: EntryRecords(h, capacity, EntryFor(entries, x).value, x, i, j)
  {
    var list := Aggregate(h, capacity);
    RealizesCount(entries, list);
    AggregateBounded(h, capacity);
    forall x: Event | x.IsDenial() ensures EntryFor(entries, x).Some? <==> Recent(h, capacity, x) {
      RecentIffRetained(h, capacity, x);
      HasIffKey(entries, list, KeyOf(x).value);
      RetainedIffListed(h, capacity, KeyOf(x).value);
    }
    forall x: Event | EntryFor(entries, x).Some?
      ensures exists i, j :: EntryRecords(h, capacity, EntryFor(entries, x).value, x, i, j)
    {
      var i, j := EntryMeaning(entries, h, capacity, x);
    }
  }

  /** The entry of denials like `x`. */
  function EntryFor(entries: Entries, x: Event): Option<AggregatedDenial> {
    if KeyOf(x).Some? && KeyOf(x).value in entries then Some(entries[KeyOf(x).value]) else None
  }

  lemma EntryMeaning(entries: Entries, h: seq<Event>, capacity: nat, x: Event) returns (i: nat, j: nat)
    requires capacity > 0 && Realizes(entries, Aggregate(h, capacity))
    requires EntryFor(entries, x).Some?
    ensures EntryRecords(h, capacity, EntryFor(entries, x).value, x, i, j)
  {
    var list, k := Aggregate(h, capacity), KeyOf(x).value;
    KeyIffDenial(x);
    HasIffKey(entries, list, k);
    var p :| 0 <= p < |list| && list[p].key == k;
    i, j := TalliesRecord(h, capacity, list[p]);
    SpansOfKey(h, capacity, x, i, j);
    CountLikeIsOccurrences(h[i..], x);
  }

  ghost predicate EntryRecords(h: seq<Event>, capacity: nat, d: AggregatedDenial, x: Event, i: nat, j: nat) {
    && Spans(h, capacity, x, i, j)
    && Identifies(d.key, h[j])
    && d.occurrenceCount == Saturated(CountLike(h[i..], x))
    && d.firstTimestamp == h[i].timestamp
    && d.latestEvent == h[j]
    && d.latestTimestamp == h[j].timestamp
    && d.sameExec == h[j].context.sameExec && d.logged == h[j].context.logged
  }
}
