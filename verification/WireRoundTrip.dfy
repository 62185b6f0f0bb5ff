/** Every well-formed event survives being stored into a record and decoded,
    whatever the record held before; and every rejection has a genuine cause. */
module WireRoundTrip {
  import opened Events
  import opened Captured
  import opened Numbers
  import opened Wire
  import opened WireLayout

  predicate InRange(s: Store, size: nat) {
    s.offset + |s.bytes| <= size
  }

  function Put(data: seq<Byte>, s: Store): (r: seq<Byte>)
    requires InRange(s, |data|)
    ensures |r| == |data| && Holds(r, s)
  {
    data[..s.offset] + s.bytes + data[s.offset + |s.bytes|..]
  }

  /** The stores applied in order. */
  function Overlay(data: seq<Byte>, stores: seq<Store>): (r: seq<Byte>)
    requires forall i :: 0 <= i < |stores| ==> InRange(stores[i], |data|)
    ensures |r| == |data|
  {
    if stores == [] then data
    else Put(Overlay(data, stores[..|stores| - 1]), stores[|stores| - 1])
  }

  predicate Apart(a: Store, b: Store) {
    a.offset + |a.bytes| <= b.offset || b.offset + |b.bytes| <= a.offset
  }

  predicate AllApart(stores: seq<Store>) {
    forall i, j :: 0 <= i < j < |stores| ==> Apart(stores[i], stores[j])
  }

  lemma PutKeeps(data: seq<Byte>, s: Store, other: Store)
    requires InRange(s, |data|) && Holds(data, other) && Apart(other, s)
    ensures Holds(Put(data, s), other)
  {
    var r := Put(data, s);
    var low, high := other.offset, other.offset + |other.bytes|;
    forall k | low <= k < high ensures r[k] == data[k] {
    }
    assert r[low..high] == data[low..high];
  }

  lemma {:induction false} OverlayHolds(data: seq<Byte>, stores: seq<Store>)
    requires forall i :: 0 <= i < |stores| ==> InRange(stores[i], |data|)
    requires AllApart(stores)
    ensures HoldsAll(Overlay(data, stores), stores)
  {
    if stores != [] {
      var n := |stores| - 1;
      var before := Overlay(data, stores[..n]);
      OverlayHolds(data, stores[..n]);
      forall i | 0 <= i < n ensures Holds(Put(before, stores[n]), stores[i]) {
        assert stores[..n][i] == stores[i];
        PutKeeps(before, stores[n], stores[i]);
      }
    }
  }

  // ----- the stores of one record -----

  function Header(order: ByteOrder, e: Event): seq<Store> {
    [Number(order, 0, e.timestamp, 8), Store(8, [KindOf(e)])]
  }

  function Stores(order: ByteOrder, e: Event): seq<Store> {
    Header(order, e) + Payload(order, e)
  }

  /** Each store ends before the next begins. */
  predicate Ascending(stores: seq<Store>) {
    forall i :: 0 < i < |stores| ==> stores[i - 1].offset + |stores[i - 1].bytes| <= stores[i].offset
  }

  /** Stores within the record's union. */
  predicate InUnion(stores: seq<Store>) {
    forall i :: 0 <= i < |stores| ==> stores[i].offset >= 16 && InRange(stores[i], RECORD_SIZE)
  }

  lemma {:induction false} AscendingEnds(stores: seq<Store>, i: nat, j: nat)
    requires Ascending(stores) && i < j < |stores|
    ensures stores[i].offset + |stores[i].bytes| <= stores[j].offset
  {
    assert stores[j - 1].offset + |stores[j - 1].bytes| <= stores[j].offset;
    if i < j - 1 { AscendingEnds(stores, i, j - 1); }
  }

  lemma AscendingApart(stores: seq<Store>)
    requires Ascending(stores)
    ensures AllApart(stores)
  {
    forall i, j | 0 <= i < j < |stores| ensures Apart(stores[i], stores[j]) { AscendingEnds(stores, i, j); }
  }

  lemma ConcatApart(a: seq<Store>, b: seq<Store>)
    requires AllApart(a) && AllApart(b)
    requires forall i, j :: 0 <= i < |a| && 0 <= j < |b| ==> Apart(a[i], b[j])
    ensures AllApart(a + b)
  {
    var s := a + b;
    forall i, j | 0 <= i < j < |s| ensures Apart(s[i], s[j]) {
      if j >= |a| && i >= |a| { assert Apart(b[i - |a|], b[j - |a|]); }
    }
  }

  /** One store ends before the other begins. */
  predicate Precedes(a: Store, b: Store) {
    a.offset + |a.bytes| <= b.offset
  }

  /** Ascending stores lie in the union when the first and the last do. */
  lemma AscendingInUnion(s: seq<Store>)
    requires Ascending(s) && s != [] && s[0].offset >= 16 && InRange(s[|s| - 1], RECORD_SIZE)
    ensures InUnion(s)
  {
    var n := |s| - 1;
    forall i | 0 <= i < |s| ensures s[i].offset >= 16 && InRange(s[i], RECORD_SIZE) {
      if i > 0 { AscendingEnds(s, 0, i); }
      if i < n { AscendingEnds(s, i, n); }
    }
  }

  lemma Ascending5(s: seq<Store>)
    requires |s| == 5 && Precedes(s[0], s[1]) && Precedes(s[1], s[2]) && Precedes(s[2], s[3]) && Precedes(s[3], s[4])
    ensures Ascending(s)
  {
  }

  lemma Ascending6(s: seq<Store>)
    requires |s| == 6 && Ascending(s[..5]) && Precedes(s[4], s[5])
    ensures Ascending(s)
  {
    assert forall i :: 0 <= i < 5 ==> s[i] == s[..5][i];
  }

  lemma Ascending7(s: seq<Store>)
    requires |s| == 7 && Ascending(s[..6]) && Precedes(s[5], s[6])
    ensures Ascending(s)
  {
    assert forall i :: 0 <= i < 6 ==> s[i] == s[..6][i];
  }

  /** The gaps that the common denial header leaves in the union. */
  predicate InGap(s: Store) {
    || (52 <= s.offset && s.offset + |s.bytes| <= 56)
    || (64 <= s.offset && s.offset + |s.bytes| <= 72)
    || s.offset >= 74
  }

  lemma DenialHeaderFits(order: ByteOrder, c: DenialContext)
    requires ValidContext(c)
    ensures Ascending(DenialHeader(order, c)) && InUnion(DenialHeader(order, c))
  {
  }

  lemma DenialHeaderGaps(order: ByteOrder, c: DenialContext, s: Store)
    requires ValidContext(c) && InGap(s)
    ensures forall i :: 0 <= i < |DenialHeader(order, c)| ==> Apart(DenialHeader(order, c)[i], s)
  {
    DenialHeaderFits(order, c);
    var h := DenialHeader(order, c);
    assert |h| == 7 && h[4].offset == 56 && h[5].offset == 72 && h[6].offset == 73;
    forall i | 0 <= i < |h| ensures Apart(h[i], s) {
      if i < 3 { AscendingEnds(h, i, 3); }
    }
  }

  predicate TailFits(tail: seq<Store>) {
    Ascending(tail) && InUnion(tail) && forall i :: 0 <= i < |tail| ==> InGap(tail[i])
  }

  lemma TailFits3(s: seq<Store>)
    requires |s| == 3 && Precedes(s[0], s[1]) && Precedes(s[1], s[2])
    requires s[0].offset >= 74 && InRange(s[2], RECORD_SIZE)
    ensures TailFits(s)
  {
  }

  lemma TailFits4(s: seq<Store>)
    requires |s| == 4 && Precedes(s[0], s[1]) && Precedes(s[1], s[2]) && Precedes(s[2], s[3])
    requires InGap(s[0]) && InGap(s[1]) && s[0].offset >= 16 && s[2].offset >= 74 && InRange(s[3], RECORD_SIZE)
    ensures TailFits(s)
  {
  }

  lemma TailFits6(s: seq<Store>)
    requires |s| == 6 && Precedes(s[0], s[1]) && Precedes(s[1], s[2]) && Precedes(s[2], s[3])
    requires Precedes(s[3], s[4]) && Precedes(s[4], s[5])
    requires InGap(s[0]) && InGap(s[1]) && s[0].offset >= 16 && s[2].offset >= 74 && InRange(s[5], RECORD_SIZE)
    ensures TailFits(s)
  {
  }

  lemma FilesystemTailFits(order: ByteOrder, e: Event)
    requires e.DenyAccessFs? && WellFormed(e)
    ensures TailFits(DenialTail(order, e))
  {
    TailFits6(DenialTail(order, e));
  }

  lemma NetworkTailFits(order: ByteOrder, e: Event)
    requires e.DenyAccessNet? && WellFormed(e)
    ensures TailFits(DenialTail(order, e))
  {
    TailFits4(DenialTail(order, e));
  }

  lemma TaskTailFits(order: ByteOrder, e: Event)
    requires (e.DenyPtrace? || e.DenyScopeSignal?) && WellFormed(e)
    ensures TailFits(DenialTail(order, e))
  {
    TailFits3(DenialTail(order, e));
  }

  lemma AbstractTailFits(order: ByteOrder, e: Event)
    requires e.DenyScopeAbstractUnixSocket? && WellFormed(e)
    ensures TailFits(DenialTail(order, e))
  {
    TailFits4(DenialTail(order, e));
  }

  lemma DenialTailFits(order: ByteOrder, e: Event)
    requires e.IsDenial() && WellFormed(e)
    ensures TailFits(DenialTail(order, e))
  {
    if e.DenyAccessFs? { FilesystemTailFits(order, e); }
    else if e.DenyAccessNet? { NetworkTailFits(order, e); }
    else if e.DenyScopeAbstractUnixSocket? { AbstractTailFits(order, e); }
    else { TaskTailFits(order, e); }
  }

  lemma PayloadFits(order: ByteOrder, e: Event)
    requires WellFormed(e)
    ensures AllApart(Payload(order, e)) && InUnion(Payload(order, e))
  {
    if e.IsDenial() {
      var header, tail := DenialHeader(order, e.context), DenialTail(order, e);
      DenialHeaderFits(order, e.context);
      DenialTailFits(order, e);
      AscendingApart(header);
      AscendingApart(tail);
      forall j | 0 <= j < |tail| ensures forall i :: 0 <= i < |header| ==> Apart(header[i], tail[j]) {
        DenialHeaderGaps(order, e.context, tail[j]);
      }
      ConcatApart(header, tail);
    } else {
      if e.NamesRuleset() { RulesetPayloadFits(order, e); } else { DomainPayloadFits(order, e); }
      AscendingApart(Payload(order, e));
    }
  }

  lemma PathRulePayloadFits(order: ByteOrder, e: Event)
    requires WellFormed(e) && e.AddRulePathBeneath?
    ensures Ascending(Payload(order, e)) && InUnion(Payload(order, e))
  {
    var s := Payload(order, e);
    Ascending5(s[..5]);
    assert s[..6][..5] == s[..5];
    Ascending6(s[..6]);
    Ascending7(s);
    AscendingInUnion(s);
  }

  lemma PortRulePayloadFits(order: ByteOrder, e: Event)
    requires WellFormed(e) && e.AddRuleNetPort?
    ensures Ascending(Payload(order, e)) && InUnion(Payload(order, e))
  {
  }

  lemma DomainCreationPayloadFits(order: ByteOrder, e: Event)
    requires WellFormed(e) && e.CreateDomain?
    ensures Ascending(Payload(order, e)) && InUnion(Payload(order, e))
  {
    var s := Payload(order, e);
    Ascending5(s[..5]);
    Ascending6(s);
    AscendingInUnion(s);
  }

  lemma RulesetLifecyclePayloadFits(order: ByteOrder, e: Event)
    requires WellFormed(e) && (e.CreateRuleset? || e.FreeRuleset?)
    ensures Ascending(Payload(order, e)) && InUnion(Payload(order, e))
  {
  }

  lemma RulesetPayloadFits(order: ByteOrder, e: Event)
    requires WellFormed(e) && e.NamesRuleset()
    ensures Ascending(Payload(order, e)) && InUnion(Payload(order, e))
  {
    if e.AddRulePathBeneath? { PathRulePayloadFits(order, e); }
    else if e.AddRuleNetPort? { PortRulePayloadFits(order, e); }
    else if e.CreateDomain? { DomainCreationPayloadFits(order, e); }
    else { RulesetLifecyclePayloadFits(order, e); }
  }

  lemma DomainPayloadFits(order: ByteOrder, e: Event)
    requires WellFormed(e) && (e.FreeDomain? || e.EnforceDomain?)
    ensures Ascending(Payload(order, e)) && InUnion(Payload(order, e))
  {
  }

  lemma StoresFit(order: ByteOrder, e: Event)
    requires WellFormed(e)
    ensures AllApart(Stores(order, e))
    ensures forall i :: 0 <= i < |Stores(order, e)| ==> InRange(Stores(order, e)[i], RECORD_SIZE)
  {
    PayloadFits(order, e);
    ConcatApart(Header(order, e), Payload(order, e));
  }

  /** What a handler leaves in a record. */
  function Record(order: ByteOrder, base: seq<Byte>, e: Event): (r: seq<Byte>)
    requires |base| == RECORD_SIZE && WellFormed(e)
    ensures |r| == RECORD_SIZE
  {
    StoresFit(order, e);
    Overlay(base, Stores(order, e))
  }

  lemma RoundTrip(order: ByteOrder, base: seq<Byte>, e: Event)
    requires |base| == RECORD_SIZE && WellFormed(e)
    ensures Decode(order, Record(order, base, e)) == Ok(e)
  {
    StoresFit(order, e);
    var data := Record(order, base, e);
    OverlayHolds(base, Stores(order, e));
    HoldsAllConcat(data, Header(order, e), Payload(order, e));
    assert Holds(data, Header(order, e)[0]) && Holds(data, Header(order, e)[1]);
    assert data[8] == data[8..9][0];
    DecodeIffLaidOut(order, data, e);
  }
}
