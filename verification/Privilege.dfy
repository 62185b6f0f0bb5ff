/** Giving up privileges around collector setup (src/privilege.rs). Every system
    call may fail; a call that fails changes nothing. */
module Privilege {
  import opened Events

  datatype ErrorKind = NotSingleThreaded | MissingSetupCapability | AlreadyFinalized | Inspect | Transition | Verify

  datatype Outcome<+T> = Done(value: T) | Failed(kind: ErrorKind)

  type Capability = nat
  const CAP_SETPCAP: Capability := 8
  const CAP_PERFMON: Capability := 38
  const CAP_BPF: Capability := 39
  const SETUP_CAPABILITIES: set<Capability> := {CAP_BPF, CAP_PERFMON}
  /** The widest set that is inspected. */
  const KNOWN_CAPABILITIES: nat := 64

  datatype CapabilitySets = CapabilitySets(effective: set<Capability>, permitted: set<Capability>,
      inheritable: set<Capability>)

  const NO_CAPABILITIES := CapabilitySets({}, {}, {})
  const SETUP := CapabilitySets(SETUP_CAPABILITIES, SETUP_CAPABILITIES, {})

  /** The credentials of the calling thread. */
  datatype Credentials = Credentials(
    noNewPrivs: bool, sets: CapabilitySets, ambient: set<Capability>, bounding: set<Capability>)

  /** Nothing that can be inspected is left: the sets are read as words of 64 bits. */
  predicate Cleared(s: set<Capability>) {
    forall c :: c in s ==> c >= 64
  }

  predicate Reduced(c: Credentials, sets: CapabilitySets) {
    c.noNewPrivs && c.sets == sets && Cleared(c.ambient) && Cleared(c.bounding)
  }

  predicate HasLess(now: Credentials, before: Credentials) {
    && (before.noNewPrivs ==> now.noNewPrivs)
    && now.sets.effective <= before.sets.permitted && now.sets.permitted <= before.sets.permitted
    && now.sets.inheritable <= before.sets.inheritable
    && now.ambient <= before.ambient && now.bounding <= before.bounding
  }

  // ----- the calls made -----

  /** One call and how it went; a listing of the tasks shows how many there are, or fails. */
  datatype Call =
    | Listing(tasks: Option<nat>)
    | Inspection(ok: bool)
    | BoundingInspection(ok: bool)
    | Locking(ok: bool)
    | AmbientClearing(ok: bool)
    | BoundingRemoval(capability: Capability, ok: bool)
    | SetChange(requested: CapabilitySets, ok: bool)

  /** Calls that change the credentials. */
  predicate Changes(c: Call) {
    c.Locking? || c.AmbientClearing? || c.BoundingRemoval? || c.SetChange?
  }

  /** Calls of a pass over the bounding set. */
  predicate InPass(c: Call) {
    c.BoundingInspection? || c.BoundingRemoval?
  }

  /** The error that a call leads to. */
  function Fault(c: Call): Option<ErrorKind> {
    match c
    case Listing(None) => Some(Inspect)
    case Listing(Some(n)) => if n == 1 then None else Some(NotSingleThreaded)
    case Inspection(ok) => if ok then None else Some(Inspect)
    case BoundingInspection(ok) => if ok then None else Some(Inspect)
    case Locking(ok) => if ok then None else Some(Transition)
    case AmbientClearing(ok) => if ok then None else Some(Transition)
    case BoundingRemoval(_, ok) => if ok then None else Some(Transition)
    case SetChange(_, ok) => if ok then None else Some(Transition)
  }

  /** The error of an outcome that a call, rather than what it showed, is to blame for. */
  function CallFault<T>(r: Outcome<T>): Option<ErrorKind> {
    if r.Failed? && (r.kind.NotSingleThreaded? || r.kind.Inspect? || r.kind.Transition?) then Some(r.kind) else None
  }

  /** Call `i` belongs to a step that came directly after a listing of exactly one task. */
  predicate Guarded(calls: seq<Call>, i: nat)
    requires i < |calls|
  {
    && i > 0
    && (|| calls[i - 1] == Listing(Some(1))
        || (InPass(calls[i]) && InPass(calls[i - 1]) && Guarded(calls, i - 1)))
  }

  /** From `from` on, every change of the credentials belongs to such a step. */
  ghost predicate AllGuarded(calls: seq<Call>, from: nat) {
    forall i :: from <= i < |calls| && Changes(calls[i]) ==> Guarded(calls, i)
  }

  /** The calls after `before` are guarded, and nothing follows the first that fails, which
      decides the error. */
  ghost predicate Careful(before: seq<Call>, calls: seq<Call>, fault: Option<ErrorKind>) {
    && before <= calls
    && AllGuarded(calls, |before|)
    && (forall i :: |before| <= i < |calls| - 1 ==> Fault(calls[i]).None?)
    && fault == if calls == before then None else Fault(calls[|calls| - 1])
  }

  lemma {:induction false} GuardedPrefix(calls: seq<Call>, more: seq<Call>, i: nat)
    requires calls <= more && i < |calls|
    ensures Guarded(more, i) <==> Guarded(calls, i)
  {
    if i > 0 { GuardedPrefix(calls, more, i - 1); }
  }

  lemma AllGuardedJoin(calls: seq<Call>, more: seq<Call>, from: nat)
    requires AllGuarded(calls, from) && calls <= more && AllGuarded(more, |calls|)
    ensures AllGuarded(more, from)
  {
    forall i | from <= i < |more| && Changes(more[i]) ensures Guarded(more, i) {
      if i < |calls| { GuardedPrefix(calls, more, i); }
    }
  }

  /** What was done carefully twice over is done carefully. */
  lemma CarefulJoin(before: seq<Call>, calls: seq<Call>, more: seq<Call>, fault: Option<ErrorKind>)
    requires Careful(before, calls, None) && Careful(calls, more, fault)
    ensures Careful(before, more, fault)
  {
    AllGuardedJoin(calls, more, |before|);
    forall i | |before| <= i < |more| - 1 ensures Fault(more[i]).None? {
      if i < |calls| { assert more[i] == calls[i]; }
    }
  }

  /** One more call; a change must come directly after a listing of one task. */
  lemma CarefulCall(before: seq<Call>, calls: seq<Call>, c: Call)
    requires Careful(before, calls, None)
    requires Changes(c) ==> calls != [] && calls[|calls| - 1] == Listing(Some(1))
    ensures Careful(before, calls + [c], Fault(c))
  {
    AllGuardedJoin(calls, calls + [c], |before|);
  }

  /** A pass over the bounding set directly after such a listing. */
  lemma {:induction false} PassGuarded(calls: seq<Call>, from: nat, i: nat)
    requires 0 < from <= i < |calls| && calls[from - 1] == Listing(Some(1))
    requires forall k :: from <= k < |calls| ==> InPass(calls[k])
    ensures Guarded(calls, i)
  {
    if i > from { PassGuarded(calls, from, i - 1); }
  }

  lemma CarefulPass(before: seq<Call>, calls: seq<Call>, more: seq<Call>, fault: Option<ErrorKind>)
    requires Careful(before, calls, None) && Pass(calls, more, fault)
    requires calls != [] && calls[|calls| - 1] == Listing(Some(1))
    ensures Careful(before, more, fault)
  {
    forall i | |calls| <= i < |more| && Changes(more[i]) ensures Guarded(more, i) {
      PassGuarded(more, |calls|, i);
    }
    CarefulJoin(before, calls, more, fault);
  }

  /** Only calls of a pass, of which none but the last may have failed. */
  ghost predicate Pass(before: seq<Call>, calls: seq<Call>, fault: Option<ErrorKind>) {
    && before <= calls
    && (forall i :: |before| <= i < |calls| ==> InPass(calls[i]))
    && (forall i :: |before| <= i < |calls| - 1 ==> Fault(calls[i]).None?)
    && fault == if calls == before then None else Fault(calls[|calls| - 1])
  }

  /** No change at all; none but the last may have failed. */
  ghost predicate ReadsOnly(before: seq<Call>, calls: seq<Call>, fault: Option<ErrorKind>) {
    && before <= calls
    && (forall i :: |before| <= i < |calls| ==> !Changes(calls[i]))
    && (forall i :: |before| <= i < |calls| - 1 ==> Fault(calls[i]).None?)
    && fault == if calls == before then None else Fault(calls[|calls| - 1])
  }

  lemma ReadsCall(before: seq<Call>, calls: seq<Call>, c: Call)
    requires ReadsOnly(before, calls, None) && !Changes(c)
    ensures ReadsOnly(before, calls + [c], Fault(c))
  {
  }

  lemma CarefulReads(before: seq<Call>, calls: seq<Call>, more: seq<Call>, fault: Option<ErrorKind>)
    requires Careful(before, calls, None) && ReadsOnly(calls, more, fault)
    ensures Careful(before, more, fault)
  {
    CarefulJoin(before, calls, more, fault);
  }

  lemma PassCall(before: seq<Call>, calls: seq<Call>, c: Call)
    requires Pass(before, calls, None) && InPass(c)
    ensures Pass(before, calls + [c], Fault(c))
  {
  }

  // ----- the kernel -----

  /** The calling thread's credentials behind the system calls. What the rest of the world does is
      fixed beforehand, call by call: whether the call fails for reasons of its own, and how many
      tasks a listing would show. */
  class Kernel {
    var noNewPrivs: bool
    var sets: CapabilitySets
    var ambient: set<Capability>
    var bounding: set<Capability>
    /** Every call so far. */
    var calls: seq<Call>
    /** Capabilities are numbered from zero up to this. */
    const supported: nat
    const fails: nat -> bool
    const tasks: nat -> nat

    constructor (credentials: Credentials, supported: nat, fails: nat -> bool, tasks: nat -> nat)
      ensures View() == credentials && calls == []
      ensures this.supported == supported && this.fails == fails && this.tasks == tasks
    {
      noNewPrivs, sets := credentials.noNewPrivs, credentials.sets;
      ambient, bounding := credentials.ambient, credentials.bounding;
      calls := [];
      this.supported, this.fails, this.tasks := supported, fails, tasks;
    }

    function View(): Credentials
      reads `noNewPrivs, `sets, `ambient, `bounding
    {
      Credentials(noNewPrivs, sets, ambient, bounding)
    }

    ghost predicate Valid()
      reads `sets, `ambient, `bounding
    {
      && (forall c :: c in bounding ==> c < supported)
      && (forall c :: c in ambient ==> c < supported)
      && sets.effective <= sets.permitted
    }

    /** The entries of the process's task directory. */
    method ListTasks() returns (r: Outcome<nat>)
      modifies `calls
      ensures r == if fails(|old(calls)|) then Failed(Inspect) else Done(tasks(|old(calls)|))
      ensures calls == old(calls) + [Listing(if r.Done? then Some(r.value) else None)]
    {
      r := if fails(|calls|) then Failed(Inspect) else Done(tasks(|calls|));
      calls := calls + [Listing(if r.Done? then Some(r.value) else None)];
    }

    method NoNewPrivs() returns (r: Outcome<bool>)
      modifies `calls
      ensures r == if fails(|old(calls)|) then Failed(Inspect) else Done(noNewPrivs)
      ensures calls == old(calls) + [Inspection(r.Done?)]
    {
      r := if fails(|calls|) then Failed(Inspect) else Done(noNewPrivs);
      calls := calls + [Inspection(r.Done?)];
    }

    method SetNoNewPrivs() returns (r: Outcome<()>)
      requires Valid()
      modifies `calls, `noNewPrivs
      ensures Valid()
      ensures r == if fails(|old(calls)|) then Failed(Transition) else Done(())
      ensures View() == if r.Done? then old(View()).(noNewPrivs := true) else old(View())
      ensures calls == old(calls) + [Locking(r.Done?)]
    {
      r := if fails(|calls|) then Failed(Transition) else Done(());
      calls := calls + [Locking(r.Done?)];
      if r.Done? { noNewPrivs := true; }
    }

    method Capabilities() returns (r: Outcome<CapabilitySets>)
      modifies `calls
      ensures r == if fails(|old(calls)|) then Failed(Inspect) else Done(sets)
      ensures calls == old(calls) + [Inspection(r.Done?)]
    {
      r := if fails(|calls|) then Failed(Inspect) else Done(sets);
      calls := calls + [Inspection(r.Done?)];
    }

    /** Capabilities can be given up, not gained; ambient ones go with them. */
    method SetCapabilities(requested: CapabilitySets) returns (r: Outcome<()>)
      requires Valid()
      modifies `calls, `sets, `ambient
      ensures Valid() && (requested.inheritable <= old(sets).inheritable ==> HasLess(View(), old(View())))
      ensures r.Done? <==>
              && !fails(|old(calls)|)
              && requested.effective <= requested.permitted <= old(sets).permitted
              && requested.inheritable <= old(sets).inheritable + old(sets).permitted
      ensures r.Done? ==> sets == requested && ambient <= old(ambient)
      ensures r.Failed? ==> View() == old(View()) && r.kind == Transition
      ensures calls == old(calls) + [SetChange(requested, r.Done?)]
    {
      var refused := fails(|calls|) || !(requested.permitted <= sets.permitted) ||
                     !(requested.effective <= requested.permitted) ||
                     !(requested.inheritable <= sets.inheritable + sets.permitted);
      calls := calls + [SetChange(requested, !refused)];
      if refused { return Failed(Transition); }
      ambient := ambient * requested.permitted * requested.inheritable;
      sets := requested;
      r := Done(());
    }

    method ClearAmbient() returns (r: Outcome<()>)
      requires Valid()
      modifies `calls, `ambient
      ensures Valid()
      ensures r == if fails(|old(calls)|) then Failed(Transition) else Done(())
      ensures View() == if r.Done? then old(View()).(ambient := {}) else old(View())
      ensures calls == old(calls) + [AmbientClearing(r.Done?)]
    {
      r := if fails(|calls|) then Failed(Transition) else Done(());
      calls := calls + [AmbientClearing(r.Done?)];
      if r.Done? { ambient := {}; }
    }

    method AmbientContains(c: Capability) returns (r: Outcome<bool>)
      modifies `calls
      ensures r == if fails(|old(calls)|) then Failed(Inspect) else Done(c in ambient)
      ensures calls == old(calls) + [Inspection(r.Done?)]
    {
      r := if fails(|calls|) then Failed(Inspect) else Done(c in ambient);
      calls := calls + [Inspection(r.Done?)];
    }

    /** Whether the bounding set holds a capability, and nothing for one the kernel does not know. */
    method BoundingContains(c: Capability) returns (known: bool, r: Outcome<bool>)
      modifies `calls
      ensures known <==> c < supported
      ensures r == if known && fails(|old(calls)|) then Failed(Inspect) else Done(c in bounding)
      ensures calls == old(calls) + [BoundingInspection(r.Done?)]
    {
      known := c < supported;
      r := if known && fails(|calls|) then Failed(Inspect) else Done(c in bounding);
      calls := calls + [BoundingInspection(r.Done?)];
    }

    /** Needs the authority to change capability sets. */
    method RemoveBounding(c: Capability) returns (r: Outcome<()>)
      requires Valid()
      modifies `calls, `bounding
      ensures Valid()
      ensures r.Done? <==> !fails(|old(calls)|) && CAP_SETPCAP in sets.effective
      ensures r.Failed? ==> r.kind == Transition
      ensures View() == if r.Done? then old(View()).(bounding := old(bounding) - {c}) else old(View())
      ensures calls == old(calls) + [BoundingRemoval(c, r.Done?)]
    {
      r := if fails(|calls|) || CAP_SETPCAP !in sets.effective then Failed(Transition) else Done(());
      calls := calls + [BoundingRemoval(c, r.Done?)];
      if r.Done? { bounding := bounding - {c}; }
    }
  }

  /** Succeeds exactly when there is one task, and makes no other call. */
  method CheckSingleThreaded(kernel: Kernel) returns (r: Outcome<()>)
    modifies kernel`calls
    ensures |kernel.calls| == |old(kernel.calls)| + 1 && old(kernel.calls) <= kernel.calls
    ensures var last := kernel.calls[|old(kernel.calls)|];
            last.Listing? && CallFault(r) == Fault(last) && (r.Done? <==> last == Listing(Some(1)))
  {
    var listed := kernel.ListTasks();
    if listed.Failed? { return Failed(listed.kind); }
    r := if listed.value == 1 then Done(()) else Failed(NotSingleThreaded);
  }

  // ----- passes over the supported capabilities -----

  /** One inspection of a pass. */
  method InspectBounding(kernel: Kernel, c: Capability, ghost before: seq<Call>)
    returns (known: bool, r: Outcome<bool>)
    modifies kernel`calls
    ensures known <==> c < kernel.supported
    ensures r.Failed? ==> r.kind == Inspect
    ensures r.Done? ==> r.value == (c in kernel.bounding)
    ensures Pass(before, old(kernel.calls), None) ==> Pass(before, kernel.calls, CallFault(r))
    ensures ReadsOnly(before, old(kernel.calls), None) ==> ReadsOnly(before, kernel.calls, CallFault(r))
  {
    ghost var calls := kernel.calls;
    known, r := kernel.BoundingContains(c);
    if Pass(before, calls, None) { PassCall(before, calls, BoundingInspection(r.Done?)); }
    if ReadsOnly(before, calls, None) { ReadsCall(before, calls, BoundingInspection(r.Done?)); }
  }

  method RemovePresent(kernel: Kernel, c: Capability, ghost before: seq<Call>) returns (r: Outcome<()>)
    requires kernel.Valid() && Pass(before, kernel.calls, None)
    modifies kernel`calls, kernel`bounding
    ensures kernel.Valid() && kernel.bounding <= old(kernel.bounding)
    ensures r.Done? ==> kernel.bounding == old(kernel.bounding) - {c}
    ensures r.Failed? ==> kernel.bounding == old(kernel.bounding) && (r.kind == Inspect || r.kind == Transition)
    ensures c !in old(kernel.bounding) || CAP_SETPCAP !in kernel.sets.effective ==>
              kernel.bounding == old(kernel.bounding)
    ensures Pass(before, kernel.calls, CallFault(r))
  {
    var known, present := InspectBounding(kernel, c, before);
    if present.Failed? { return Failed(present.kind); }
    r := Done(());
    if known && present.value {
      ghost var calls := kernel.calls;
      r := kernel.RemoveBounding(c);
      PassCall(before, calls, BoundingRemoval(c, r.Done?));
    }
  }

  method ClearBounding(kernel: Kernel) returns (r: Outcome<()>)
    requires kernel.Valid()
    modifies kernel`calls, kernel`bounding
    ensures kernel.Valid()
    ensures kernel.bounding <= old(kernel.bounding)
    ensures r.Done? ==> Cleared(kernel.bounding)
    ensures r.Failed? ==> r.kind == Inspect || r.kind == Transition
    ensures Cleared(old(kernel.bounding)) || CAP_SETPCAP !in kernel.sets.effective ==>
            kernel.bounding == old(kernel.bounding)
    ensures Pass(old(kernel.calls), kernel.calls, CallFault(r))
  {
    ghost var before := kernel.calls;
    var c := 0;
    while c < KNOWN_CAPABILITIES
      invariant kernel.Valid()
      invariant kernel.bounding <= old(kernel.bounding)
      invariant forall b :: b in kernel.bounding ==> b >= c
      invariant Cleared(old(kernel.bounding)) || CAP_SETPCAP !in kernel.sets.effective ==>
                kernel.bounding == old(kernel.bounding)
      invariant c <= KNOWN_CAPABILITIES
      invariant Pass(before, kernel.calls, None)
    {
      var known, present := InspectBounding(kernel, c, before);
      if present.Failed? { return Failed(present.kind); }
      if !known { break; }
      r := RemovePresent(kernel, c, before);
      if r.Failed? { return; }
      c := c + 1;
    }
    r := Done(());
  }

  /** Whether one supported capability is in the ambient or in the bounding set. */
  method VerifyAbsent(kernel: Kernel, c: Capability, ghost before: seq<Call>) returns (r: Outcome<()>)
    requires kernel.Valid() && ReadsOnly(before, kernel.calls, None) && c < kernel.supported
    modifies kernel`calls
    ensures r.Done? ==> c !in kernel.ambient && c !in kernel.bounding
    ensures r == Failed(Verify) ==> c in kernel.ambient || c in kernel.bounding
    ensures r.Failed? ==> r.kind == Verify || r.kind == Inspect
    ensures ReadsOnly(before, kernel.calls, CallFault(r))
  {
    ghost var calls := kernel.calls;
    var ambient := kernel.AmbientContains(c);
    ReadsCall(before, calls, Inspection(ambient.Done?));
    if ambient.Failed? { return Failed(ambient.kind); }
    if ambient.value { return Failed(Verify); }
    var known, present := InspectBounding(kernel, c, before);
    if present.Failed? { return Failed(present.kind); }
    r := if known && present.value then Failed(Verify) else Done(());
  }

  /** No supported capability is left in the ambient or in the bounding set. */
  method VerifyCleared(kernel: Kernel) returns (r: Outcome<()>)
    requires kernel.Valid()
    modifies kernel`calls
    ensures r.Done? ==> Cleared(kernel.ambient) && Cleared(kernel.bounding)
    ensures r == Failed(Verify) ==> !(Cleared(kernel.ambient) && Cleared(kernel.bounding))
    ensures r.Failed? ==> r.kind == Verify || r.kind == Inspect
    ensures ReadsOnly(old(kernel.calls), kernel.calls, CallFault(r))
  {
    ghost var before := kernel.calls;
    var c := 0;
    while c < KNOWN_CAPABILITIES
      invariant forall b :: b in kernel.bounding ==> b >= c
      invariant forall b :: b in kernel.ambient ==> b >= c
      invariant c <= KNOWN_CAPABILITIES
      invariant ReadsOnly(before, kernel.calls, None)
    {
      var known, present := InspectBounding(kernel, c, before);
      if present.Failed? { return Failed(present.kind); }
      if !known { break; }
      r := VerifyAbsent(kernel, c, before);
      if r.Failed? { return; }
      c := c + 1;
    }
    r := Done(());
  }

  method VerifyReduced(kernel: Kernel, expected: CapabilitySets) returns (r: Outcome<()>)
    requires kernel.Valid()
    modifies kernel`calls
    ensures r.Done? ==> Reduced(kernel.View(), expected)
    ensures r == Failed(Verify) ==> !Reduced(kernel.View(), expected)
    ensures r.Failed? ==> r.kind == Verify || r.kind == Inspect
    ensures ReadsOnly(old(kernel.calls), kernel.calls, CallFault(r))
  {
    var locked := kernel.NoNewPrivs();
    if locked.Failed? { return Failed(locked.kind); }
    if !locked.value { return Failed(Verify); }
    var current := kernel.Capabilities();
    if current.Failed? { return Failed(current.kind); }
    if current.value != expected { return Failed(Verify); }
    r := VerifyCleared(kernel);
  }

  /** Whether minimization has what it needs, before anything is changed. */
  predicate CanMinimize(c: Credentials) {
    SETUP_CAPABILITIES <= c.sets.permitted && (Cleared(c.bounding) || CAP_SETPCAP in c.sets.effective)
  }

  method BoundingNonempty(kernel: Kernel) returns (r: Outcome<bool>)
    requires kernel.Valid()
    modifies kernel`calls
    ensures r.Done? ==> (r.value <==> !Cleared(kernel.bounding))
    ensures r.Failed? ==> r.kind == Inspect
    ensures ReadsOnly(old(kernel.calls), kernel.calls, CallFault(r))
  {
    ghost var before := kernel.calls;
    var nonempty, c := false, 0;
    while c < KNOWN_CAPABILITIES
      invariant nonempty <==> exists b :: b in kernel.bounding && b < c
      invariant c <= KNOWN_CAPABILITIES
      invariant ReadsOnly(before, kernel.calls, None)
    {
      var known, present := InspectBounding(kernel, c, before);
      if present.Failed? { return Failed(present.kind); }
      if !known { break; }
      known, present := InspectBounding(kernel, c, before);
      if present.Failed? { return Failed(present.kind); }
      nonempty := nonempty || (known && present.value);
      c := c + 1;
    }
    r := Done(nonempty);
  }

  lemma ReadsJoin(before: seq<Call>, calls: seq<Call>, more: seq<Call>, fault: Option<ErrorKind>)
    requires ReadsOnly(before, calls, None) && ReadsOnly(calls, more, fault)
    ensures ReadsOnly(before, more, fault)
  {
  }

  method PreflightMinimization(kernel: Kernel) returns (r: Outcome<()>)
    requires kernel.Valid()
    modifies kernel`calls
    ensures r.Done? ==> CanMinimize(kernel.View())
    ensures r == Failed(MissingSetupCapability) ==> !CanMinimize(kernel.View())
    ensures ReadsOnly(old(kernel.calls), kernel.calls, CallFault(r)) && StartsAlone(old(kernel.calls), kernel.calls)
  {
    ghost var before := kernel.calls;
    var alone := CheckSingleThreaded(kernel);
    if alone.Failed? { return alone; }
    var current := kernel.Capabilities();
    if current.Failed? { return Failed(current.kind); }
    if !(SETUP_CAPABILITIES <= current.value.permitted) { return Failed(MissingSetupCapability); }
    ghost var calls := kernel.calls;
    var nonempty := BoundingNonempty(kernel);
    ReadsJoin(before, calls, kernel.calls, CallFault(nonempty));
    if nonempty.Failed? { return Failed(nonempty.kind); }
    if nonempty.value && CAP_SETPCAP !in current.value.effective { return Failed(MissingSetupCapability); }
    r := Done(());
  }

  /** The first call of all is a listing of the tasks. */
  predicate StartsAlone(before: seq<Call>, calls: seq<Call>) {
    before <= calls && |before| < |calls| && calls[|before|].Listing?
  }

  // ----- finishing -----

  datatype Policy = Minimized | Preserved | VerificationPending | Finished
  datatype Mode = Explicit | Cleanup

  /** What each policy says about the thread that holds it. */
  predicate Describes(policy: Policy, c: Credentials) {
    match policy
    case Minimized => Reduced(c, SETUP)
    case Preserved => true
    case VerificationPending => Reduced(c, NO_CAPABILITIES)
    case Finished => Reduced(c, NO_CAPABILITIES)
  }

  /** The check before each step that changes the credentials. */
  method CheckBefore(kernel: Kernel, ghost before: seq<Call>) returns (r: Outcome<()>)
    requires Careful(before, kernel.calls, None)
    modifies kernel`calls
    ensures Careful(before, kernel.calls, CallFault(r)) && StartsAlone(old(kernel.calls), kernel.calls)
    ensures r.Failed? ==> r.kind == NotSingleThreaded || r.kind == Inspect
    ensures r.Done? ==> kernel.calls == old(kernel.calls) + [Listing(Some(1))]
  {
    r := CheckSingleThreaded(kernel);
    assert kernel.calls == old(kernel.calls) + [kernel.calls[|old(kernel.calls)|]];
    CarefulCall(before, old(kernel.calls), kernel.calls[|old(kernel.calls)|]);
  }

  method ClearAmbientAlone(kernel: Kernel, ghost before: seq<Call>) returns (r: Outcome<()>)
    requires kernel.Valid() && Careful(before, kernel.calls, None)
    modifies kernel`calls, kernel`ambient
    ensures kernel.Valid() && kernel.ambient == if r.Done? then {} else old(kernel.ambient)
    ensures r.Failed? ==> r.kind == NotSingleThreaded || r.kind == Inspect || r.kind == Transition
    ensures Careful(before, kernel.calls, CallFault(r)) && StartsAlone(old(kernel.calls), kernel.calls)
  {
    r := CheckBefore(kernel, before);
    if r.Failed? { return; }
    ghost var calls := kernel.calls;
    r := kernel.ClearAmbient();
    CarefulCall(before, calls, AmbientClearing(r.Done?));
  }

  method ClearBoundingAlone(kernel: Kernel, ghost before: seq<Call>) returns (r: Outcome<()>)
    requires kernel.Valid() && Careful(before, kernel.calls, None)
    modifies kernel`calls, kernel`bounding
    ensures kernel.Valid() && kernel.bounding <= old(kernel.bounding)
    ensures r.Done? ==> Cleared(kernel.bounding)
    ensures r.Failed? ==> r.kind == NotSingleThreaded || r.kind == Inspect || r.kind == Transition
    ensures Cleared(old(kernel.bounding)) ==> kernel.bounding == old(kernel.bounding)
    ensures Careful(before, kernel.calls, CallFault(r)) && old(kernel.calls) <= kernel.calls
  {
    r := CheckBefore(kernel, before);
    if r.Failed? { return; }
    ghost var calls := kernel.calls;
    r := ClearBounding(kernel);
    CarefulPass(before, calls, kernel.calls, CallFault(r));
  }

  method SetCapabilitiesAlone(kernel: Kernel, sets: CapabilitySets, ghost before: seq<Call>) returns (r: Outcome<()>)
    requires kernel.Valid() && Careful(before, kernel.calls, None) && sets.inheritable == {}
    modifies kernel`calls, kernel`sets, kernel`ambient
    ensures kernel.Valid() && HasLess(kernel.View(), old(kernel.View()))
    ensures r.Done? ==> kernel.sets == sets
    ensures r.Failed? ==> kernel.View() == old(kernel.View())
    ensures r.Failed? ==> r.kind == NotSingleThreaded || r.kind == Inspect || r.kind == Transition
    ensures Careful(before, kernel.calls, CallFault(r)) && old(kernel.calls) <= kernel.calls
  {
    r := CheckBefore(kernel, before);
    if r.Failed? { return; }
    ghost var calls := kernel.calls;
    r := kernel.SetCapabilities(sets);
    CarefulCall(before, calls, SetChange(sets, r.Done?));
  }

  /** The steps from a minimized policy up to the removal of the last capabilities. */
  method RemoveAll(kernel: Kernel) returns (r: Outcome<()>)
    requires kernel.Valid()
    modifies kernel`calls, kernel`ambient, kernel`bounding, kernel`sets
    ensures kernel.Valid() && HasLess(kernel.View(), old(kernel.View()))
    ensures r.Done? ==> kernel.sets == NO_CAPABILITIES && Cleared(kernel.ambient) && Cleared(kernel.bounding)
    ensures r.Failed? ==> kernel.sets == old(kernel.sets)
    ensures r.Failed? ==> r.kind == NotSingleThreaded || r.kind == Inspect || r.kind == Transition
    ensures Cleared(old(kernel.bounding)) ==> kernel.bounding == old(kernel.bounding)
    ensures Careful(old(kernel.calls), kernel.calls, CallFault(r)) && StartsAlone(old(kernel.calls), kernel.calls)
  {
    ghost var before := kernel.calls;
    r := ClearAmbientAlone(kernel, before);
    if r.Failed? { return; }
    r := ClearBoundingAlone(kernel, before);
    if r.Failed? { return; }
    r := SetCapabilitiesAlone(kernel, NO_CAPABILITIES, before);
  }

  method FinishPolicy(kernel: Kernel, policy: Policy, mode: Mode) returns (next: Policy, r: Outcome<()>)
    requires kernel.Valid()
    modifies kernel`calls, kernel`ambient, kernel`bounding, kernel`sets
    ensures kernel.Valid() && HasLess(kernel.View(), old(kernel.View()))
    ensures policy.Preserved? || policy.Finished? ==>
              r.Done? && next == policy && kernel.View() == old(kernel.View()) && kernel.calls == old(kernel.calls)
    ensures policy.VerificationPending? ==> kernel.View() == old(kernel.View())
    ensures policy.VerificationPending? && mode.Explicit? ==> r == Failed(AlreadyFinalized)
    ensures r.Done? && !policy.Preserved? ==> next.Finished?
    ensures r.Done? && (policy.Minimized? || policy.VerificationPending?) ==> Reduced(kernel.View(), NO_CAPABILITIES)
    ensures r.Failed? ==>
            next.VerificationPending? || (policy.Minimized? && next.Minimized? && kernel.sets == old(kernel.sets))
    ensures r.Failed? && r.kind == NotSingleThreaded ==> policy.Minimized? && next.Minimized?
    ensures r.Failed? && r.kind == AlreadyFinalized ==> policy.VerificationPending?
    ensures Describes(policy, old(kernel.View())) ==> Describes(next, kernel.View())
    ensures Cleared(old(kernel.bounding)) ==> kernel.bounding == old(kernel.bounding)
    ensures Careful(old(kernel.calls), kernel.calls, CallFault(r))
    ensures policy.Minimized? ==> StartsAlone(old(kernel.calls), kernel.calls)
  {
    next, r := policy, Done(());
    ghost var before := kernel.calls;
    if policy.Preserved? || policy.Finished? { return; }
    if policy.VerificationPending? {
      if mode.Explicit? { return policy, Failed(AlreadyFinalized); }
      r := VerifyReduced(kernel, NO_CAPABILITIES);
      CarefulReads(before, before, kernel.calls, CallFault(r));
      if r.Failed? { return; }
      return Finished, Done(());
    }
    r := RemoveAll(kernel);
    if r.Failed? { return; }
    next := VerificationPending;
    ghost var calls := kernel.calls;
    r := VerifyReduced(kernel, NO_CAPABILITIES);
    CarefulReads(before, calls, kernel.calls, CallFault(r));
    if r.Failed? { return; }
    next := Finished;
  }

  /** The process, which aborts rather than run with authority it cannot account for. */
  class Process {
    var aborted: bool

    constructor ()
      ensures !aborted
    {
      aborted := false;
    }
  }

  /** Dropping a policy, or the guard of a minimization that did not complete. */
  method DropPolicy(process: Process, kernel: Kernel, policy: Policy) returns (ghost r: Outcome<()>)
    requires kernel.Valid() && !process.aborted
    modifies process, kernel`calls, kernel`ambient, kernel`bounding, kernel`sets
    ensures kernel.Valid() && HasLess(kernel.View(), old(kernel.View()))
    ensures policy.Preserved? ==> !process.aborted && kernel.View() == old(kernel.View())
    ensures policy.Minimized? || policy.VerificationPending? ==>
            process.aborted || Reduced(kernel.View(), NO_CAPABILITIES)
    ensures policy.Finished? ==> !process.aborted && kernel.View() == old(kernel.View())
    ensures Cleared(old(kernel.bounding)) ==> kernel.bounding == old(kernel.bounding)
    ensures process.aborted <==> r.Failed?
    ensures Careful(old(kernel.calls), kernel.calls, CallFault(r))
  {
    var _, outcome := FinishPolicy(kernel, policy, Cleanup);
    if outcome.Failed? { process.aborted := true; }
    r := outcome;
  }

  /** The transitions after `no_new_privs` is set, while the cleanup guard is armed. */
  method MinimizeLocked(kernel: Kernel, ghost before: seq<Call>) returns (r: Outcome<()>)
    requires kernel.Valid() && Careful(before, kernel.calls, None)
    modifies kernel`calls, kernel`ambient, kernel`bounding, kernel`sets
    ensures kernel.Valid() && HasLess(kernel.View(), old(kernel.View()))
    ensures r.Done? ==> Reduced(kernel.View(), SETUP)
    ensures r.Failed? ==> r.kind != MissingSetupCapability
    ensures Careful(before, kernel.calls, CallFault(r)) && old(kernel.calls) <= kernel.calls
  {
    r := ClearAmbientAlone(kernel, before);
    if r.Failed? { return; }
    r := ClearBoundingAlone(kernel, before);
    if r.Failed? { return; }
    r := SetCapabilitiesAlone(kernel, SETUP, before);
    if r.Failed? { return; }
    ghost var calls := kernel.calls;
    r := VerifyReduced(kernel, SETUP);
    CarefulReads(before, calls, kernel.calls, CallFault(r));
  }

  /** Up to the moment when `no_new_privs` is set. */
  method Lock(kernel: Kernel) returns (r: Outcome<()>)
    requires kernel.Valid()
    modifies kernel`calls, kernel`noNewPrivs
    ensures kernel.Valid()
    ensures kernel.View() == if r.Done? then old(kernel.View()).(noNewPrivs := true) else old(kernel.View())
    ensures r.Done? ==> Locking(true) in kernel.calls
    ensures r.Done? ==> CanMinimize(old(kernel.View()))
    ensures r == Failed(MissingSetupCapability) ==> !CanMinimize(old(kernel.View()))
    ensures Careful(old(kernel.calls), kernel.calls, CallFault(r)) && StartsAlone(old(kernel.calls), kernel.calls)
  {
    ghost var before := kernel.calls;
    r := PreflightMinimization(kernel);
    CarefulReads(before, before, kernel.calls, CallFault(r));
    if r.Failed? { return; }
    r := CheckBefore(kernel, before);
    if r.Failed? { return; }
    ghost var calls := kernel.calls;
    r := kernel.SetNoNewPrivs();
    CarefulCall(before, calls, Locking(r.Done?));
  }

  /** Minimizes, or fails having changed nothing, or fails with nothing left, or aborts. `tried`
      is the calls up to the failure; what comes after them is the cleanup. */
  method Minimize(process: Process, kernel: Kernel) returns (r: Outcome<Policy>, ghost tried: seq<Call>)
    requires kernel.Valid() && !process.aborted
    modifies process, kernel
    ensures kernel.Valid() && HasLess(kernel.View(), old(kernel.View()))
    ensures r.Done? ==> !process.aborted && r.value.Minimized? && Describes(Minimized, kernel.View())
    ensures r.Done? ==> CanMinimize(old(kernel.View()))
    ensures r.Failed? ==>
              || (!process.aborted && kernel.View() == old(kernel.View()))
              || process.aborted
              || Reduced(kernel.View(), NO_CAPABILITIES)
    ensures r == Failed(MissingSetupCapability) ==>
              !process.aborted && kernel.View() == old(kernel.View()) && !CanMinimize(kernel.View())
    ensures !CanMinimize(old(kernel.View())) ==> r.Failed? && !process.aborted && kernel.View() == old(kernel.View())
    ensures Careful(old(kernel.calls), tried, CallFault(r)) && StartsAlone(old(kernel.calls), tried)
    ensures exists cleanup :: Careful(tried, kernel.calls, cleanup) && (cleanup.Some? ==> process.aborted)
    ensures tried != kernel.calls ==> r.Failed? && Locking(true) in tried
  {
    var step := Lock(kernel);
    tried := kernel.calls;
    assert Careful(tried, tried, None);
    if step.Failed? { return Failed(step.kind), tried; }
    step := MinimizeLocked(kernel, old(kernel.calls));
    tried := kernel.calls;
    assert Careful(tried, tried, None);
    if step.Failed? {
      ghost var cleanup := DropPolicy(process, kernel, Minimized);
      return Failed(step.kind), tried;
    }
    r := Done(Minimized);
  }

  // ----- a privilege value over its whole life -----

  class Privileges {
    var policy: Policy

    constructor Preserve()
      ensures policy.Preserved?
    {
      policy := Preserved;
    }

    constructor FromMinimized()
      ensures policy.Minimized?
    {
      policy := Minimized;
    }

    method EnsureCanPrepare() returns (r: Outcome<()>)
      ensures r == if policy.VerificationPending? || policy.Finished? then Failed(AlreadyFinalized) else Done(())
    {
      if policy.VerificationPending? || policy.Finished? { return Failed(AlreadyFinalized); }
      r := Done(());
    }

    /** One collector preparation: the program is set up with the policy's authority, then the authority goes. */
    method Prepare(kernel: Kernel, setupSucceeds: bool) returns (ok: bool, ghost fault: Option<ErrorKind>)
      requires kernel.Valid() && Describes(policy, kernel.View())
      modifies this, kernel`calls, kernel`ambient, kernel`bounding, kernel`sets
      ensures kernel.Valid() && Describes(policy, kernel.View()) && HasLess(kernel.View(), old(kernel.View()))
      ensures old(policy).VerificationPending? || old(policy).Finished? ==>
                !ok && policy == old(policy) && kernel.View() == old(kernel.View())
      ensures !setupSucceeds ==> !ok && policy == old(policy) && kernel.View() == old(kernel.View())
      ensures ok ==> policy.Preserved? || policy.Finished?
      ensures policy.Preserved? <==> old(policy).Preserved?
      ensures policy.Preserved? ==> kernel.View() == old(kernel.View())
      ensures !policy.Preserved? ==> kernel.bounding == old(kernel.bounding)
      ensures Careful(old(kernel.calls), kernel.calls, fault) && (fault.Some? ==> !ok)
      ensures fault == Some(NotSingleThreaded) ==> policy.Minimized?
    {
      fault := None;
      var allowed := EnsureCanPrepare();
      if allowed.Failed? || !setupSucceeds { return false, None; }
      var next, r := FinishPolicy(kernel, policy, Explicit);
      policy := next;
      ok, fault := r.Done?, CallFault(r);
    }
  }

  /** However many preparations are tried and however each of them fails, a process that minimized
      ends aborted or with nothing left, prepares at most one collector, and never needs the
      authority it gave up first: no bounding capability is removed after minimization. Every
      change of the credentials comes directly after the process was found to have one task. */
  method Lifetime(process: Process, kernel: Kernel, attempts: seq<bool>)
    returns (minimized: bool, prepared: nat, ghost settled: Credentials)
    requires kernel.Valid() && !process.aborted
    modifies process, kernel
    ensures kernel.Valid() && HasLess(kernel.View(), old(kernel.View()))
    ensures process.aborted || Reduced(kernel.View(), NO_CAPABILITIES) ||
            (!minimized && kernel.View() == old(kernel.View()))
    ensures prepared <= 1 && (prepared == 1 ==> minimized && !process.aborted && true in attempts)
    ensures minimized ==> Describes(Minimized, settled) && kernel.bounding == settled.bounding
    ensures old(kernel.calls) <= kernel.calls && AllGuarded(kernel.calls, |old(kernel.calls)|)
  {
    prepared := 0;
    ghost var before := kernel.calls;
    ghost var tried;
    var r;
    r, tried := Minimize(process, kernel);
    AllGuardedJoin(tried, kernel.calls, |before|);
    settled := kernel.View();
    minimized := r.Done?;
    if !minimized { return; }
    var privileges := new Privileges.FromMinimized();
    var i := 0;
    while i < |attempts|
      invariant 0 <= i <= |attempts|
      invariant !process.aborted && kernel.Valid() && HasLess(kernel.View(), old(kernel.View()))
      invariant Describes(privileges.policy, kernel.View()) && !privileges.policy.Preserved?
      invariant kernel.bounding == settled.bounding
      invariant prepared <= 1 && (prepared == 1 ==> privileges.policy.Finished? && true in attempts)
      invariant before <= kernel.calls && AllGuarded(kernel.calls, |before|)
    {
      ghost var calls := kernel.calls;
      ghost var fault;
      var ok;
      ok, fault := privileges.Prepare(kernel, attempts[i]);
      AllGuardedJoin(calls, kernel.calls, |before|);
      if ok {
        assert attempts[i];
        prepared := prepared + 1;
      }
      i := i + 1;
    }
    ghost var calls := kernel.calls;
    ghost var dropped := DropPolicy(process, kernel, privileges.policy);
    AllGuardedJoin(calls, kernel.calls, |before|);
  }
}
