/** The specification of bounded denial aggregation: a plain list of tallies,
    least recently observed first, and what that list means in terms of the
    observed history. */
module Recency {
  import opened Events

  const U64_MAX: nat := 0xffff_ffff_ffff_ffff

  datatype DenialKey =
    | FilesystemKey(domainId: DomainId, blockersType: nat, blockersAccess: AccessMask, device: nat, inode: nat)
    | NetworkKey(domainId: DomainId, blockersType: nat, blockersAccess: AccessMask, sourcePort: nat,
        destinationPort: nat)
    | PtraceKey(domainId: DomainId, other: Membership, otherPid: ProcessId, otherComm: CapturedBytes)
    | SignalKey(domainId: DomainId, other: Membership, otherPid: ProcessId, otherComm: CapturedBytes)
    | AbstractUnixSocketKey(domainId: DomainId, other: Membership, abstractName: CapturedBytes)

  function KeyOf(e: Event): Option<DenialKey> {
    match e
    case DenyAccessFs(_, c, blockersType, access, device, inode, _) =>
      Some(FilesystemKey(c.hierarchy.domainId, blockersType, access, device, inode))
    case DenyAccessNet(_, c, blockersType, access, source, destination) =>
      Some(NetworkKey(c.hierarchy.domainId, blockersType, access, source, destination))
    case DenyPtrace(_, c, other, pid, comm) => Some(PtraceKey(c.hierarchy.domainId, other, pid, comm))
    case DenyScopeSignal(_, c, other, pid, comm) => Some(SignalKey(c.hierarchy.domainId, other, pid, comm))
    case DenyScopeAbstractUnixSocket(_, c, other, _, name) =>
      Some(AbstractUnixSocketKey(c.hierarchy.domainId, other, name))
    case _ => None
  }

  /** The key has the denial's kind and names its facts. */
  predicate Identifies(k: DenialKey, e: Event)
    requires e.IsDenial()
  {
    && k.domainId == e.context.hierarchy.domainId
    && match k
       case FilesystemKey(_, blockersType, access, device, inode) =>
         e.DenyAccessFs? && e.blockersType == blockersType && e.blockersAccess == access &&
         e.device == device && e.inode == inode
       case NetworkKey(_, blockersType, access, source, destination) =>
         e.DenyAccessNet? && e.blockersType == blockersType && e.blockersAccess == access &&
         e.sourcePort == source && e.destinationPort == destination
       case PtraceKey(_, other, pid, comm) =>
         e.DenyPtrace? && e.other == other && e.otherPid == pid && e.otherComm == comm
       case SignalKey(_, other, pid, comm) =>
         e.DenyScopeSignal? && e.other == other && e.otherPid == pid && e.otherComm == comm
       case AbstractUnixSocketKey(_, other, name) =>
         e.DenyScopeAbstractUnixSocket? && e.other == other && e.abstractName == name
  }

  lemma KeyIffDenial(e: Event)
    ensures KeyOf(e).Some? <==> e.IsDenial()
    ensures e.IsDenial() ==> forall k :: Identifies(k, e) <==> KeyOf(e) == Some(k)
  {
  }

  /** One retained key: how often and by what it was observed since its insertion. */
  datatype Tally = Tally(key: DenialKey, count: nat, firstTimestamp: Timestamp, latest: Event)

  function SaturatingIncrement(n: nat): nat {
    if n < U64_MAX then n + 1 else n
  }

  predicate Has(list: seq<Tally>, k: DenialKey) {
    exists i :: 0 <= i < |list| && list[i].key == k
  }

  function Find(list: seq<Tally>, k: DenialKey): (t: Tally)
    requires Has(list, k)
    ensures t in list && t.key == k
  {
    if list[0].key == k then list[0] else Find(list[1..], k)
  }

  function Dropping(list: seq<Tally>, k: DenialKey): seq<Tally> {
    if list == [] then []
    else if list[0].key == k then Dropping(list[1..], k)
    else [list[0]] + Dropping(list[1..], k)
  }

  /** One observation on the list of at most `capacity` tallies. */
  function Observe(list: seq<Tally>, e: Event, capacity: nat): seq<Tally> {
    var key := KeyOf(e);
    if key.None? then list
    else if Has(list, key.value) then
      var t := Find(list, key.value);
      Dropping(list, key.value) + [t.(count := SaturatingIncrement(t.count), latest := e)]
    else
      (if |list| >= capacity && list != [] then list[1..] else list) + [Tally(key.value, 1, e.timestamp, e)]
  }

  function Aggregate(h: seq<Event>, capacity: nat): seq<Tally> {
    if h == [] then []
    else Observe(Aggregate(h[..|h| - 1], capacity), h[|h| - 1], capacity)
  }

  lemma AggregateExtends(h: seq<Event>, e: Event, capacity: nat)
    ensures Aggregate(h + [e], capacity) == Observe(Aggregate(h, capacity), e, capacity)
  {
    assert (h + [e])[..|h|] == h;
  }

  // ----- keys of a list -----

  function Keys(list: seq<Tally>): (r: seq<DenialKey>)
    ensures |r| == |list|
    ensures forall i :: 0 <= i < |r| ==> r[i] == list[i].key
  {
    seq(|list|, i requires 0 <= i < |list| => list[i].key)
  }

  ghost predicate Distinct<T(!new)>(s: seq<T>) {
    forall i, j :: 0 <= i < j < |s| ==> s[i] != s[j]
  }

  function Excluding(s: seq<DenialKey>, k: DenialKey): seq<DenialKey> {
    if s == [] then []
    else if s[0] == k then Excluding(s[1..], k)
    else [s[0]] + Excluding(s[1..], k)
  }

  lemma {:induction false} ExcludingAbsent(s: seq<DenialKey>, k: DenialKey)
    requires k !in s
    ensures Excluding(s, k) == s
  {
    if s != [] { ExcludingAbsent(s[1..], k); }
  }

  lemma {:induction false} ExcludingConcat(a: seq<DenialKey>, b: seq<DenialKey>, k: DenialKey)
    ensures Excluding(a + b, k) == Excluding(a, k) + Excluding(b, k)
  {
    if a == [] {
      assert a + b == b;
    } else {
      assert (a + b)[1..] == a[1..] + b;
      ExcludingConcat(a[1..], b, k);
    }
  }

  /** In a list without repetition, excluding a present key cuts it out. */
  lemma ExcludingAround(a: seq<DenialKey>, k: DenialKey, b: seq<DenialKey>)
    requires k !in a && k !in b
    ensures Excluding(a + ([k] + b), k) == a + b
  {
    ExcludingAbsent(a, k);
    ExcludingAbsent(b, k);
    assert ([k] + b)[1..] == b;
    ExcludingConcat(a, [k] + b, k);
  }

  lemma DistinctAround(s: seq<DenialKey>, p: nat)
    requires Distinct(s) && p < |s|
    ensures s[p] !in s[..p] && s[p] !in s[p + 1..]
    ensures s == s[..p] + ([s[p]] + s[p + 1..])
  {
  }

  lemma ExcludingCuts(s: seq<DenialKey>, p: nat)
    requires Distinct(s) && p < |s|
    ensures Excluding(s, s[p]) == s[..p] + s[p + 1..]
  {
    DistinctAround(s, p);
    ExcludingAround(s[..p], s[p], s[p + 1..]);
  }

  lemma {:induction false} DroppingKeys(list: seq<Tally>, k: DenialKey)
    ensures Keys(Dropping(list, k)) == Excluding(Keys(list), k)
  {
    if list != [] {
      DroppingKeys(list[1..], k);
      assert Keys(list)[1..] == Keys(list[1..]);
    }
  }

  /** Every key ever observed, least recently observed first. */
  function RecencyOrder(h: seq<Event>): seq<DenialKey> {
    if h == [] then []
    else
      var earlier, key := RecencyOrder(h[..|h| - 1]), KeyOf(h[|h| - 1]);
      if key.None? then earlier else Excluding(earlier, key.value) + [key.value]
  }

  ghost function KeysIn(h: seq<Event>): set<DenialKey> {
    set e | e in h && KeyOf(e).Some? :: KeyOf(e).value
  }

  lemma KeysInExtends(h: seq<Event>, e: Event)
    ensures KeysIn(h + [e]) == KeysIn(h) + OptionSet(KeyOf(e))
  {
  }

  /** Moving a key to the end keeps keys distinct and adds only that key. */
  lemma MovedKeys(s: seq<DenialKey>, k: DenialKey)
    requires Distinct(s)
    ensures Distinct(Excluding(s, k) + [k])
    ensures forall x :: x in Excluding(s, k) + [k] <==> x in s || x == k
  {
    if k in s {
      var p :| 0 <= p < |s| && s[p] == k;
      ExcludingCuts(s, p);
      CutAndMoved(s, p);
    } else {
      ExcludingAbsent(s, k);
    }
  }

  lemma CutAndMoved(s: seq<DenialKey>, p: nat)
    requires Distinct(s) && p < |s|
    ensures Distinct(s[..p] + s[p + 1..] + [s[p]])
    ensures forall x :: x in s[..p] + s[p + 1..] + [s[p]] <==> x in s
  {
    assert s == s[..p] + [s[p]] + s[p + 1..];
  }

  lemma {:induction false} RecencyOrderDistinct(h: seq<Event>)
    ensures Distinct(RecencyOrder(h))
    ensures forall k :: k in RecencyOrder(h) <==> k in KeysIn(h)
  {
    if h != [] {
      var n := |h| - 1;
      RecencyOrderDistinct(h[..n]);
      assert h == h[..n] + [h[n]];
      KeysInExtends(h[..n], h[n]);
      if KeyOf(h[n]).Some? { MovedKeys(RecencyOrder(h[..n]), KeyOf(h[n]).value); }
    }
  }

  /** The last occurrence of a key, and what was observed since: exactly the
      keys after it in the recency order. */
  ghost predicate LastSeenAt(h: seq<Event>, k: DenialKey, i: nat) {
    && i < |h|
    && KeyOf(h[i]) == Some(k)
    && forall j :: i < j < |h| ==> KeyOf(h[j]) != Some(k)
  }

  ghost function Members(s: seq<DenialKey>): set<DenialKey> {
    set k | k in s
  }

  /** Moving a key to the end: where the other keys were before, and what then follows them. */
  lemma MovedToEnd(s: seq<DenialKey>, k: DenialKey, p: nat) returns (q: nat)
    requires Distinct(s)
    requires p < |Excluding(s, k)|
    ensures q < |s| && s[q] == Excluding(s, k)[p] && s[q] != k
    ensures Members((Excluding(s, k) + [k])[p + 1..]) == Members(s[q + 1..]) + {k}
  {
    var moved := Excluding(s, k) + [k];
    q := p;
    if k in s {
      var c :| 0 <= c < |s| && s[c] == k;
      ExcludingCuts(s, c);
      if p < c {
        assert moved[p + 1..] == s[p + 1..c] + s[c + 1..] + [k];
        assert s[p + 1..] == s[p + 1..c] + [k] + s[c + 1..];
      } else {
        q := p + 1;
        assert moved[p + 1..] == s[q + 1..] + [k];
      }
    } else {
      ExcludingAbsent(s, k);
      assert moved[p + 1..] == s[p + 1..] + [k];
    }
  }

  lemma {:induction false} SinceLastSeen(h: seq<Event>, p: nat) returns (i: nat)
    requires p < |RecencyOrder(h)|
    ensures LastSeenAt(h, RecencyOrder(h)[p], i)
    ensures KeysIn(h[i + 1..]) == Members(RecencyOrder(h)[p + 1..])
  {
    var n := |h| - 1;
    var earlier, key := RecencyOrder(h[..n]), KeyOf(h[n]);
    if key.Some? && p == |RecencyOrder(h)| - 1 {
      i := n;
    } else {
      var q := p;
      if key.Some? {
        RecencyOrderDistinct(h[..n]);
        q := MovedToEnd(earlier, key.value, p);
      }
      i := SinceLastSeen(h[..n], q);
      assert h[i + 1..] == h[..n][i + 1..] + [h[n]];
      KeysInExtends(h[..n][i + 1..], h[n]);
    }
  }

  lemma {:induction false} DistinctCount(s: seq<DenialKey>)
    requires Distinct(s)
    ensures |Members(s)| == |s|
  {
    if s != [] {
      DistinctCount(s[1..]);
      assert Members(s) == {s[0]} + Members(s[1..]);
    }
  }

  function LastOf(s: seq<DenialKey>, n: nat): seq<DenialKey> {
    if |s| <= n then s else s[|s| - n..]
  }

  /** Moving the element at `p` to the end, seen through the last `n` places. */
  lemma MovedWindow(s: seq<DenialKey>, p: nat, n: nat)
    requires p < |s| && n > 0
    ensures var moved := s[..p] + s[p + 1..] + [s[p]];
            if |s| <= n then LastOf(moved, n) == moved
            else if |s| - n <= p then LastOf(moved, n) == s[|s| - n..p] + s[p + 1..] + [s[p]]
            else LastOf(moved, n) == s[|s| - n + 1..] + [s[p]]
  {
    var moved, cut := s[..p] + s[p + 1..] + [s[p]], |s| - n;
    if 0 < cut <= p { WindowSlice(s, p, cut); }
  }

  lemma ExcludingCutsTail(s: seq<DenialKey>, p: nat, cut: nat)
    requires Distinct(s) && cut <= p < |s|
    ensures s[p] in s[cut..] && Excluding(s[cut..], s[p]) == s[cut..p] + s[p + 1..]
  {
    var t := s[cut..];
    assert t[p - cut] == s[p];
    ExcludingCuts(t, p - cut);
    WindowSlice(s, p, cut);
  }

  /** A key of the window moves to its end. */
  lemma WindowHit(s: seq<DenialKey>, p: nat, n: nat)
    requires Distinct(s) && n > 0
    requires p < |s| && |s| - n <= p
    ensures s[p] in LastOf(s, n)
    ensures LastOf(Excluding(s, s[p]) + [s[p]], n) == Excluding(LastOf(s, n), s[p]) + [s[p]]
  {
    var k, cut := s[p], if |s| <= n then 0 else |s| - n;
    MovedWindow(s, p, n);
    ExcludingCuts(s, p);
    ExcludingCutsTail(s, p, cut);
    assert LastOf(s, n) == s[cut..];
    assert cut == 0 ==> s[cut..p] == s[..p];
  }

  lemma WindowSlice(s: seq<DenialKey>, p: nat, cut: nat)
    requires cut <= p < |s|
    ensures s[cut..][..p - cut] == s[cut..p] && s[cut..][p - cut + 1..] == s[p + 1..]
    ensures (s[..p] + s[p + 1..] + [s[p]])[cut..] == s[cut..p] + s[p + 1..] + [s[p]]
  {
  }

  /** A key from before the window enters at its end and pushes one out. */
  lemma WindowReturn(s: seq<DenialKey>, p: nat, n: nat)
    requires Distinct(s) && n > 0
    requires p < |s| - n
    ensures s[p] !in LastOf(s, n)
    ensures LastOf(Excluding(s, s[p]) + [s[p]], n) == LastOf(s, n)[1..] + [s[p]]
  {
    MovedWindow(s, p, n);
    ExcludingCuts(s, p);
    assert LastOf(s, n)[1..] == s[|s| - n + 1..];
  }

  lemma WindowNew(s: seq<DenialKey>, k: DenialKey, n: nat)
    requires k !in s && n > 0
    ensures LastOf(Excluding(s, k) + [k], n) == (if |s| >= n then LastOf(s, n)[1..] else s) + [k]
  {
    ExcludingAbsent(s, k);
  }

  lemma LastOfExcluding(s: seq<DenialKey>, k: DenialKey, n: nat)
    requires Distinct(s) && n > 0
    ensures LastOf(Excluding(s, k) + [k], n) ==
            if k in LastOf(s, n) then Excluding(LastOf(s, n), k) + [k]
            else (if |s| >= n then LastOf(s, n)[1..] else s) + [k]
  {
    if k in s {
      var p :| 0 <= p < |s| && s[p] == k;
      if |s| - n <= p { WindowHit(s, p, n); } else { WindowReturn(s, p, n); }
    } else {
      WindowNew(s, k, n);
    }
  }

  lemma KeyIsListed(list: seq<Tally>, k: DenialKey)
    ensures Has(list, k) <==> k in Keys(list)
  {
    if Has(list, k) {
      var i :| 0 <= i < |list| && list[i].key == k;
      assert Keys(list)[i] == k;
    }
    if k in Keys(list) { ListedKey(list, k); }
  }

  lemma ObserveKeys(list: seq<Tally>, e: Event, capacity: nat)
    requires capacity > 0 && KeyOf(e).Some?
    ensures var k := KeyOf(e).value;
            Keys(Observe(list, e, capacity)) ==
            if k in Keys(list) then Excluding(Keys(list), k) + [k]
            else (if |list| >= capacity then Keys(list)[1..] else Keys(list)) + [k]
  {
    var k := KeyOf(e).value;
    KeyIsListed(list, k);
    DroppingKeys(list, k);
  }

  /** The bounded list holds the last `capacity` keys of the recency order. */
  lemma {:induction false} AggregateIsSuffix(h: seq<Event>, capacity: nat)
    requires capacity > 0
    ensures Keys(Aggregate(h, capacity)) == LastOf(RecencyOrder(h), capacity)
  {
    if h != [] {
      var n := |h| - 1;
      AggregateIsSuffix(h[..n], capacity);
      if KeyOf(h[n]).Some? {
        RecencyOrderDistinct(h[..n]);
        LastOfExcluding(RecencyOrder(h[..n]), KeyOf(h[n]).value, capacity);
        ObserveKeys(Aggregate(h[..n], capacity), h[n], capacity);
      }
    }
  }

  // ----- which keys are retained -----

  /** Fewer than `capacity` distinct keys were observed since some observation of `k`. */
  ghost predicate Retained(h: seq<Event>, capacity: nat, k: DenialKey) {
    exists i :: 0 <= i < |h| && KeyOf(h[i]) == Some(k) && |KeysIn(h[i + 1..])| < capacity
  }

  lemma SubsetCount<T>(a: set<T>, b: set<T>)
    requires a <= b
    ensures |a| <= |b|
  {
    if a != {} {
      var x :| x in a;
      SubsetCount(a - {x}, b - {x});
    }
  }

  lemma ListedIsRetained(h: seq<Event>, capacity: nat, k: DenialKey)
    requires capacity > 0
    requires Has(Aggregate(h, capacity), k)
    ensures Retained(h, capacity, k)
  {
    var order, list := RecencyOrder(h), Aggregate(h, capacity);
    AggregateIsSuffix(h, capacity);
    RecencyOrderDistinct(h);
    var c :| 0 <= c < |list| && list[c].key == k;
    assert Keys(list)[c] == k;
    var p := WithinIsLate(order, capacity, c);
    var i := SinceLastSeen(h, p);
    DistinctCount(order[p + 1..]);
  }

  /** Few keys follow one among the last. */
  lemma WithinIsLate(order: seq<DenialKey>, n: nat, c: nat) returns (p: nat)
    requires n > 0 && Distinct(order) && c < |LastOf(order, n)|
    ensures p < |order| && order[p] == LastOf(order, n)[c]
    ensures Distinct(order[p + 1..]) && |order[p + 1..]| < n
  {
    p := |order| - |LastOf(order, n)| + c;
  }

  lemma KeysInShrinks(h: seq<Event>, j: nat, i: nat)
    requires j <= i < |h|
    ensures |KeysIn(h[i + 1..])| <= |KeysIn(h[j + 1..])|
  {
    assert h[i + 1..] == h[j + 1..][i - j..];
    SubsetCount(KeysIn(h[i + 1..]), KeysIn(h[j + 1..]));
  }

  lemma LateIsWithin(order: seq<DenialKey>, p: nat, n: nat)
    requires p < |order| && |order[p + 1..]| < n
    ensures order[p] in LastOf(order, n)
  {
    var cut := if |order| <= n then 0 else |order| - n;
    assert LastOf(order, n)[p - cut] == order[p];
  }

  lemma ListedKey(list: seq<Tally>, k: DenialKey)
    requires k in Keys(list)
    ensures Has(list, k)
  {
    var i :| 0 <= i < |list| && Keys(list)[i] == k;
    assert list[i].key == k;
  }

  lemma RetainedIsRecent(h: seq<Event>, capacity: nat, k: DenialKey)
    requires Retained(h, capacity, k)
    ensures k in LastOf(RecencyOrder(h), capacity)
  {
    var order := RecencyOrder(h);
    RecencyOrderDistinct(h);
    var j :| 0 <= j < |h| && KeyOf(h[j]) == Some(k) && |KeysIn(h[j + 1..])| < capacity;
    assert h[j] in h;
    assert k in KeysIn(h);
    var p :| 0 <= p < |order| && order[p] == k;
    var i := SinceLastSeen(h, p);
    KeysInShrinks(h, j, i);
    DistinctCount(order[p + 1..]);
    LateIsWithin(order, p, capacity);
  }

  lemma RetainedIsListed(h: seq<Event>, capacity: nat, k: DenialKey)
    requires capacity > 0
    requires Retained(h, capacity, k)
    ensures Has(Aggregate(h, capacity), k)
  {
    RetainedIsRecent(h, capacity, k);
    AggregateIsSuffix(h, capacity);
    ListedKey(Aggregate(h, capacity), k);
  }

  lemma RetainedIffListed(h: seq<Event>, capacity: nat, k: DenialKey)
    requires capacity > 0
    ensures Retained(h, capacity, k) <==> Has(Aggregate(h, capacity), k)
  {
    if Has(Aggregate(h, capacity), k) { ListedIsRetained(h, capacity, k); }
    if Retained(h, capacity, k) { RetainedIsListed(h, capacity, k); }
  }

  // ----- what a tally records -----

  /** `h[i]` is the observation that put `k` in the list, where it stayed since. */
  ghost predicate InsertedAt(h: seq<Event>, capacity: nat, k: DenialKey, i: nat) {
    && i < |h|
    && KeyOf(h[i]) == Some(k)
    && !Retained(h[..i], capacity, k)
    && forall j :: i < j <= |h| ==> Retained(h[..j], capacity, k)
  }

  function Occurrences(h: seq<Event>, k: DenialKey): nat {
    if h == [] then 0
    else Occurrences(h[..|h| - 1], k) + (if KeyOf(h[|h| - 1]) == Some(k) then 1 else 0)
  }

  function Saturated(n: nat): nat {
    if n <= U64_MAX then n else U64_MAX
  }

  /** The tally counts the observations since the insertion, saturated, and
      carries the facts of the first and the last of them. */
  ghost predicate Records(h: seq<Event>, capacity: nat, t: Tally, i: nat, j: nat) {
    && InsertedAt(h, capacity, t.key, i)
    && LastSeenAt(h, t.key, j)
    && t.count == Saturated(Occurrences(h[i..], t.key))
    && t.firstTimestamp == h[i].timestamp
    && t.latest == h[j]
  }

  lemma InsertedAtExtends(h: seq<Event>, e: Event, capacity: nat, k: DenialKey, i: nat)
    requires InsertedAt(h, capacity, k, i)
    requires Retained(h + [e], capacity, k)
    ensures InsertedAt(h + [e], capacity, k, i)
  {
    var h' := h + [e];
    assert h'[..i] == h[..i];
    forall j | i < j <= |h'| ensures Retained(h'[..j], capacity, k) {
      if j <= |h| { assert h'[..j] == h[..j]; } else { assert h'[..j] == h'; }
    }
  }

  lemma {:induction false} DroppingKeeps(list: seq<Tally>, k: DenialKey, t: Tally)
    ensures t in Dropping(list, k) <==> t in list && t.key != k
  {
    if list != [] {
      DroppingKeeps(list[1..], k, t);
      assert list == [list[0]] + list[1..];
    }
  }

  /** Where each tally of the list after an observation comes from. */
  lemma TallySource(list: seq<Tally>, e: Event, capacity: nat, t: Tally)
    requires t in Observe(list, e, capacity)
    ensures KeyOf(e) != Some(t.key) ==> t in list
    ensures KeyOf(e) == Some(t.key) ==>
              if Has(list, t.key) then
                t == Find(list, t.key).(count := SaturatingIncrement(Find(list, t.key).count), latest := e)
              else t == Tally(t.key, 1, e.timestamp, e)
  {
    var key := KeyOf(e);
    if key.Some? && Has(list, key.value) {
      DroppingKeeps(list, key.value, t);
    }
    if key.Some? && !Has(list, key.value) && t in list {
      var i :| 0 <= i < |list| && list[i] == t;
      assert t.key != key.value;
    }
  }

  /** A fresh tally records its single observation. */
  lemma FreshTallyRecords(before: seq<Event>, e: Event, capacity: nat, k: DenialKey)
    requires KeyOf(e) == Some(k)
    requires !Retained(before, capacity, k) && Retained(before + [e], capacity, k)
    ensures Records(before + [e], capacity, Tally(k, 1, e.timestamp, e), |before|, |before|)
  {
    var h := before + [e];
    var n := |before|;
    assert h[..n] == before && h[..n + 1] == h;
    assert h[n..] == [e] && [e][..0] == [];
    assert Occurrences([e], k) == 1;
  }

  /** A retained tally keeps its record, counting a further observation of its key. */
  lemma KeptTallyRecords(before: seq<Event>, e: Event, capacity: nat, t: Tally, i: nat, j: nat)
    requires Records(before, capacity, t, i, j)
    requires Retained(before + [e], capacity, t.key)
    ensures if KeyOf(e) == Some(t.key)
            then Records(before + [e], capacity, t.(count := SaturatingIncrement(t.count), latest := e), i, |before|)
            else Records(before + [e], capacity, t, i, j)
  {
    var h := before + [e];
    InsertedAtExtends(before, e, capacity, t.key, i);
    assert h[i..] == before[i..] + [e];
    assert (before[i..] + [e])[..|before| - i] == before[i..];
  }

  lemma {:induction false} TalliesRecord(h: seq<Event>, capacity: nat, t: Tally) returns (i: nat, j: nat)
    requires capacity > 0
    requires t in Aggregate(h, capacity)
    ensures Records(h, capacity, t, i, j)
  {
    var n := |h| - 1;
    var before, e := h[..n], h[n];
    assert h == before + [e];
    var list := Aggregate(before, capacity);
    TallySource(list, e, capacity, t);
    RetainedIffListed(h, capacity, t.key);
    RetainedIffListed(before, capacity, t.key);
    if KeyOf(e) == Some(t.key) && !Has(list, t.key) {
      FreshTallyRecords(before, e, capacity, t.key);
      i, j := n, n;
    } else if KeyOf(e) == Some(t.key) {
      var t0 := Find(list, t.key);
      i, j := TalliesRecord(before, capacity, t0);
      KeptTallyRecords(before, e, capacity, t0, i, j);
      j := n;
    } else {
      i, j := TalliesRecord(before, capacity, t);
      KeptTallyRecords(before, e, capacity, t, i, j);
    }
  }

  lemma AggregateBounded(h: seq<Event>, capacity: nat)
    requires capacity > 0
    ensures Distinct(Keys(Aggregate(h, capacity))) && |Aggregate(h, capacity)| <= capacity
  {
    AggregateIsSuffix(h, capacity);
    RecencyOrderDistinct(h);
  }

  /** The list after any history: exactly the retained keys, each with its record. */
  lemma AggregateMeaning(h: seq<Event>, capacity: nat)
    requires capacity > 0
    ensures forall k :: Has(Aggregate(h, capacity), k) <==> Retained(h, capacity, k)
    ensures forall t :: t in Aggregate(h, capacity) ==> exists i, j :: Records(h, capacity, t, i, j)
    ensures Distinct(Keys(Aggregate(h, capacity))) && |Aggregate(h, capacity)| <= capacity
  {
    forall k ensures Has(Aggregate(h, capacity), k) <==> Retained(h, capacity, k) {
      RetainedIffListed(h, capacity, k);
    }
    forall t | t in Aggregate(h, capacity) ensures exists i, j :: Records(h, capacity, t, i, j) {
      var i, j := TalliesRecord(h, capacity, t);
    }
    AggregateBounded(h, capacity);
  }
}
