/** Which denials are aggregated together, stated on the events themselves, and what the
    retained entries are in those terms. */
module Identity {
  import opened Events
  import opened Recency

  /** Two denials of one domain of the same kind, alike in everything but when they happened,
      what they carried along and, for a socket, which process the peer was. */
  predicate SameIdentity(a: Event, b: Event) {
    && a.IsDenial() && b.IsDenial()
    && a.context.hierarchy.domainId == b.context.hierarchy.domainId
    && match a
       case DenyAccessFs(_, _, blockersType, access, device, inode, _) =>
         b.DenyAccessFs? && b.blockersType == blockersType && b.blockersAccess == access &&
         b.device == device && b.inode == inode
       case DenyAccessNet(_, _, blockersType, access, source, destination) =>
         b.DenyAccessNet? && b.blockersType == blockersType && b.blockersAccess == access &&
         b.sourcePort == source && b.destinationPort == destination
       case DenyPtrace(_, _, other, pid, comm) =>
         b.DenyPtrace? && b.other == other && b.otherPid == pid && b.otherComm == comm
       case DenyScopeSignal(_, _, other, pid, comm) =>
         b.DenyScopeSignal? && b.other == other && b.otherPid == pid && b.otherComm == comm
       case DenyScopeAbstractUnixSocket(_, _, other, _, name) =>
         b.DenyScopeAbstractUnixSocket? && b.other == other && b.abstractName == name
       case _ => false
  }

  /** Denials have equal keys if and only if they have the same identity. */
  lemma KeysAgree(a: Event, b: Event)
    requires a.IsDenial() && b.IsDenial()
    ensures KeyOf(a) == KeyOf(b) <==> SameIdentity(a, b)
  {
  }

  lemma HasKey(e: Event, x: Event)
    requires x.IsDenial()
    ensures KeyOf(x).Some? && (KeyOf(e) == KeyOf(x) <==> SameIdentity(e, x))
  {
    KeyIffDenial(e);
    KeyIffDenial(x);
    if e.IsDenial() { KeysAgree(e, x); }
  }

  // ----- how many identities -----

  /** Every denial has the identity of one of the events listed. */
  ghost predicate Represented(h: seq<Event>, sample: seq<Event>) {
    forall e :: e in h && e.IsDenial() ==> exists r :: r in sample && SameIdentity(r, e)
  }

  /** Fewer than `n` identities. */
  ghost predicate FewIdentities(h: seq<Event>, n: nat) {
    exists sample: seq<Event> :: |sample| < n && Represented(h, sample)
  }

  /** One event for each key. */
  lemma {:induction false} Representatives(h: seq<Event>) returns (sample: seq<Event>)
    ensures |sample| == |KeysIn(h)| && Represented(h, sample)
  {
    sample := [];
    if h == [] {
      assert KeysIn(h) == {};
    } else {
      var n := |h| - 1;
      var before, e := h[..n], h[n];
      sample := Representatives(before);
      assert h == before + [e];
      KeysInExtends(before, e);
      KeyIffDenial(e);
      if e.IsDenial() && KeyOf(e).value in KeysIn(before) {
        AlreadyRepresented(before, sample, e);
        assert KeysIn(h) == KeysIn(before);
        RepresentedExtends(before, sample, e, []);
      } else if e.IsDenial() {
        KeysAgree(e, e);
        assert e in sample + [e];
        RepresentedExtends(before, sample, e, [e]);
        sample := sample + [e];
        assert KeysIn(h) == KeysIn(before) + {KeyOf(e).value};
      } else {
        assert KeysIn(h) == KeysIn(before);
        RepresentedExtends(before, sample, e, []);
      }
    }
  }

  lemma RepresentedExtends(h: seq<Event>, sample: seq<Event>, e: Event, more: seq<Event>)
    requires Represented(h, sample)
    requires e.IsDenial() ==> exists r :: r in sample + more && SameIdentity(r, e)
    ensures Represented(h + [e], sample + more)
    ensures more == [] ==> Represented(h + [e], sample)
  {
    forall x | x in h + [e] && x.IsDenial() ensures exists r :: r in sample + more && SameIdentity(r, x) {
      if x in h {
        var r :| r in sample && SameIdentity(r, x);
        assert r in sample + more;
      }
    }
    if more == [] { assert sample + more == sample; }
  }

  lemma AlreadyRepresented(h: seq<Event>, sample: seq<Event>, e: Event)
    requires e.IsDenial() && KeyOf(e).Some? && KeyOf(e).value in KeysIn(h) && Represented(h, sample)
    ensures exists r :: r in sample + [] && SameIdentity(r, e)
  {
    assert sample + [] == sample;
    var x :| x in h && KeyOf(x) == KeyOf(e);
    KeyIffDenial(x);
    KeysAgree(x, e);
    var r :| r in sample && SameIdentity(r, x);
    assert SameIdentity(r, e);
  }

  lemma {:induction false} KeysOfFew(sample: seq<Event>)
    ensures |KeysIn(sample)| <= |sample|
  {
    if sample != [] {
      var n := |sample| - 1;
      assert sample == sample[..n] + [sample[n]];
      KeysInExtends(sample[..n], sample[n]);
      KeysOfFew(sample[..n]);
    }
  }

  /** Counting identities is counting keys. */
  lemma FewIffKeys(h: seq<Event>, n: nat)
    ensures FewIdentities(h, n) <==> |KeysIn(h)| < n
  {
    if |KeysIn(h)| < n { var _ := Representatives(h); }
    if FewIdentities(h, n) {
      var sample :| |sample| < n && Represented(h, sample);
      forall k | k in KeysIn(h) ensures k in KeysIn(sample) {
        var e :| e in h && KeyOf(e) == Some(k);
        KeyIffDenial(e);
        var r :| r in sample && SameIdentity(r, e);
        KeysAgree(r, e);
      }
      SubsetCount(KeysIn(h), KeysIn(sample));
      KeysOfFew(sample);
    }
  }

  // ----- the retained identities -----

  /** Fewer than `capacity` identities were observed since some denial like `x`. */
  ghost predicate Recent(h: seq<Event>, capacity: nat, x: Event) {
    exists i :: 0 <= i < |h| && SameIdentity(h[i], x) && FewIdentities(h[i + 1..], capacity)
  }

  lemma RecentIffRetained(h: seq<Event>, capacity: nat, x: Event)
    requires x.IsDenial()
    ensures KeyOf(x).Some? && (Recent(h, capacity, x) <==> Retained(h, capacity, KeyOf(x).value))
  {
    KeyIffDenial(x);
    forall i | 0 <= i < |h|
      ensures SameIdentity(h[i], x) <==> KeyOf(h[i]) == KeyOf(x)
      ensures FewIdentities(h[i + 1..], capacity) <==> |KeysIn(h[i + 1..])| < capacity
    {
      HasKey(h[i], x);
      FewIffKeys(h[i + 1..], capacity);
    }
  }

  /** The number of denials like `x`. */
  function CountLike(h: seq<Event>, x: Event): nat {
    if h == [] then 0 else CountLike(h[..|h| - 1], x) + if SameIdentity(h[|h| - 1], x) then 1 else 0
  }

  lemma {:induction false} CountLikeIsOccurrences(h: seq<Event>, x: Event)
    requires x.IsDenial()
    ensures KeyOf(x).Some? && CountLike(h, x) == Occurrences(h, KeyOf(x).value)
  {
    KeyIffDenial(x);
    if h != [] {
      CountLikeIsOccurrences(h[..|h| - 1], x);
      HasKey(h[|h| - 1], x);
    }
  }

  /** `h[i]` was the denial like `x` that put an entry in, which stayed since; `h[j]` was the last. */
  ghost predicate Spans(h: seq<Event>, capacity: nat, x: Event, i: nat, j: nat) {
    && i < |h| && SameIdentity(h[i], x)
    && !Recent(h[..i], capacity, x)
    && (forall n :: i < n <= |h| ==> Recent(h[..n], capacity, x))
    && j < |h| && SameIdentity(h[j], x)
    && (forall n :: j < n < |h| ==> !SameIdentity(h[n], x))
  }

  lemma SpansOfKey(h: seq<Event>, capacity: nat, x: Event, i: nat, j: nat)
    requires x.IsDenial() && KeyOf(x).Some?
    requires InsertedAt(h, capacity, KeyOf(x).value, i) && LastSeenAt(h, KeyOf(x).value, j)
    ensures Spans(h, capacity, x, i, j)
  {
    HasKey(h[i], x);
    HasKey(h[j], x);
    RecentIffRetained(h[..i], capacity, x);
    forall n | i < n <= |h| ensures Recent(h[..n], capacity, x) { RecentIffRetained(h[..n], capacity, x); }
    forall n | j < n < |h| ensures !SameIdentity(h[n], x) { HasKey(h[n], x); }
  }
}
