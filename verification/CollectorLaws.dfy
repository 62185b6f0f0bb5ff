/** What the collector does at each send and each receive, told from the log alone: when a
    sample is dropped, what a receive returns, what stops after a close, and what each
    terminal error was caused by. */
module CollectorLaws {
  import opened Events
  import opened Collector
  import opened CollectorProofs

  // ----- how many entries are waiting -----

  /** Entries taken off the queue: one for each delivery returned, and one whose notice came first. */
  function Taken(outcomes: seq<Outcome>): nat {
    var received := FromDeliveries(outcomes);
    |Items(received)| + if EndsWithNotice(received) then 1 else 0
  }

  /** Entries accepted and not yet taken. */
  function Waiting(log: Log): int {
    |AcceptedOf(log.attempts)| - Taken(log.outcomes)
  }

  lemma {:induction false} ItemsConcat(a: seq<Outcome>, b: seq<Outcome>)
    ensures Items(a + b) == Items(a) + Items(b)
  {
    if b == [] {
      assert a + b == a;
    } else {
      var n := |b| - 1;
      assert (a + b)[..|a| + n] == a + b[..n];
      ItemsConcat(a, b[..n]);
    }
  }

  lemma ItemsOfEntry(e: Entry)
    ensures Items(EntryOutcomes(e)) == [e.delivery]
  {
    assert [Item(e.delivery)][..0] == [];
    assert [Notice, Item(e.delivery)][..1] == [Notice] && [Notice][..0] == [];
  }

  lemma {:induction false} ItemsOfQueue(queue: seq<Entry>)
    ensures |Items(QueueOutcomes(queue))| == |queue|
  {
    if queue != [] {
      ItemsOfEntry(queue[0]);
      ItemsConcat(EntryOutcomes(queue[0]), QueueOutcomes(queue[1..]));
      ItemsOfQueue(queue[1..]);
    }
  }

  lemma WaitingIsQueue(s: System)
    requires DeliveryAccount(s) && PendingKnown(s)
    ensures Waiting(s.log) == |s.queue|
  {
    var received := FromDeliveries(s.log.outcomes);
    ExpectedCounts(s.log.attempts);
    ItemsConcat(received, InFlight(s.pending, s.queue));
    ItemsConcat(PendingOutcomes(s.pending), QueueOutcomes(s.queue));
    ItemsOfQueue(s.queue);
    if s.pending.Some? { assert [Item(s.pending.value)][..0] == []; }
  }

  lemma CapacityStep(s: System, a: Action)
    requires Enabled(s, a)
    ensures Step(s, a).capacity == s.capacity
  {
  }

  lemma {:induction false} RunCounts(from: System, actions: seq<Action>, to: System)
    requires Inv(from) && Reaches(from, actions, to)
    ensures Inv(to) && to.capacity == from.capacity
    decreases |actions|
  {
    if actions != [] {
      StepKeeps(from, actions[0]);
      CapacityStep(from, actions[0]);
      RunCounts(Step(from, actions[0]), actions[1..], to);
    }
  }

  // ----- sending -----

  /** A sample offered while somebody can receive is dropped if and only if as many entries as
      the queue was made for are waiting; otherwise it is queued last, with the notice owed. */
  lemma DroppedIffFull(capacity: nat, actions: seq<Action>, s: System)
    requires capacity > 0 && Reaches(Initial(capacity), actions, s)
    requires s.worker.Sending? && !s.handle.Dead?
    ensures 0 <= Waiting(s.log) <= capacity
    ensures var d, s' := s.worker.delivery, Step(s, Send);
            if Waiting(s.log) == capacity then
              s'.log.attempts == s.log.attempts + [Dropped(d)] && s'.queue == s.queue
            else
              && s'.log.attempts == s.log.attempts + [Accepted(d)]
              && s'.queue == s.queue + [Entry(d, EndsDropped(s.log.attempts))]
  {
    InitialInv(capacity);
    RunCounts(Initial(capacity), actions, s);
    WaitingIsQueue(s);
  }

  /** Every drop comes after at least `capacity` samples. */
  predicate DropsLate(s: System) {
    forall i :: 0 <= i < |s.log.attempts| && s.log.attempts[i].Dropped? ==> i >= s.capacity
  }

  lemma {:induction false} AcceptedAreAttempts(attempts: seq<Attempt>)
    ensures |AcceptedOf(attempts)| <= |attempts|
  {
    if attempts != [] { AcceptedAreAttempts(attempts[..|attempts| - 1]); }
  }

  lemma SendDropsLate(s: System)
    requires DropsLate(s) && s.worker.Sending? && |s.queue| <= |s.log.attempts|
    ensures DropsLate(Step(s, Send))
  {
  }

  lemma AttemptsKept(s: System, a: Action)
    requires Enabled(s, a) && !a.Send?
    ensures Step(s, a).log.attempts == s.log.attempts && Step(s, a).capacity == s.capacity
  {
    if Quiet(a) { QuietFrame(s, a); }
    else if Receives(a) { ReceiveFrame(s, a); }
    else { ReportFrame(s, a); }
  }

  lemma DropsLateStep(s: System, a: Action)
    requires DeliveryAccount(s) && PendingKnown(s) && DropsLate(s) && Enabled(s, a)
    ensures DropsLate(Step(s, a))
  {
    if a.Send? {
      WaitingIsQueue(s);
      AcceptedAreAttempts(s.log.attempts);
      SendDropsLate(s);
    } else {
      AttemptsKept(s, a);
    }
  }

  lemma {:induction false} RunDropsLate(from: System, actions: seq<Action>, to: System)
    requires Inv(from) && DropsLate(from) && Reaches(from, actions, to)
    ensures DropsLate(to)
    decreases |actions|
  {
    if actions != [] {
      StepKeeps(from, actions[0]);
      DropsLateStep(from, actions[0]);
      RunDropsLate(Step(from, actions[0]), actions[1..], to);
    }
  }

  /** A run that offers no more samples than the queue holds loses none, however late they are read. */
  lemma NoLossWithinCapacity(capacity: nat, actions: seq<Action>, s: System)
    requires capacity > 0 && Reaches(Initial(capacity), actions, s)
    requires |s.log.attempts| <= capacity
    ensures forall i :: 0 <= i < |s.log.attempts| ==> s.log.attempts[i].Accepted?
  {
    InitialInv(capacity);
    RunCounts(Initial(capacity), actions, s);
    RunDropsLate(Initial(capacity), actions, s);
  }

  // ----- receiving -----

  /** A receive returns the next outcome called for, and finds nothing exactly when all of them
      have been returned. */
  lemma ReceivesNext(s: System)
    requires Reachable(s) && Enabled(s, ReadDeliveries)
    ensures var got, s' := |FromDeliveries(s.log.outcomes)|, Step(s, ReadDeliveries);
            if got < |Expected(s.log.attempts)| then
              s'.log.outcomes == s.log.outcomes + [Expected(s.log.attempts)[got]] && s'.consumer.Idle?
            else s'.log.outcomes == s.log.outcomes && s'.consumer == AtTerminal(|s.log.attempts|)
  {
    ReachableInv(s);
    InFlightHead(s.pending, s.queue);
    var received := FromDeliveries(s.log.outcomes);
    var o := DeliveryOutcome(s.pending, s.queue);
    if o.Some? {
      var rest := InFlight(NextPending(s.pending, s.queue), NextQueue(s.pending, s.queue));
      assert (received + ([o.value] + rest))[|received|] == o.value;
    }
  }

  /** After that it returns the next terminal error sent; the stop exactly when there is none left
      and the worker is gone; and otherwise that nothing is ready. */
  lemma ReceivesTerminal(s: System)
    requires Reachable(s) && Enabled(s, ReadTerminal)
    ensures var got := |FromTerminal(s.log.outcomes)|;
            Step(s, ReadTerminal).log.outcomes ==
            s.log.outcomes +
            [if got < |s.log.sent| then Failed(s.log.sent[got]) else if s.worker.Gone? then Stopped else NotReady]
  {
    ReachableInv(s);
    var received := FromTerminal(s.log.outcomes);
    if s.terminal != [] { assert (received + s.terminal)[|received|] == s.terminal[0]; }
  }

  // ----- closing -----

  /** Samples offered, and the one that is about to be. */
  function Offering(s: System): nat {
    |s.log.attempts| + if s.worker.Sending? then 1 else 0
  }

  lemma OfferingStep(s: System, a: Action)
    requires Control(s) && !s.handle.Alive? && Enabled(s, a)
    ensures !Step(s, a).handle.Alive? && Offering(Step(s, a)) <= Offering(s)
  {
    if Quiet(a) { QuietFrame(s, a); }
  }

  /** Once the collector is closed, at most the sample that was being sent is still offered. */
  lemma {:induction false} ClosedTakesNoMore(from: System, actions: seq<Action>, to: System)
    requires Inv(from) && !from.handle.Alive? && Reaches(from, actions, to)
    ensures !to.handle.Alive? && Offering(to) <= Offering(from)
    decreases |actions|
  {
    if actions != [] {
      StepKeeps(from, actions[0]);
      OfferingStep(from, actions[0]);
      ClosedTakesNoMore(Step(from, actions[0]), actions[1..], to);
    }
  }

  /** Closed, not inside a poll and not on the way to report a failed one. */
  predicate WindingDown(s: System) {
    && !s.handle.Alive? && PollFailure !in s.log.sent
    && !s.worker.Polling? && !s.worker.Sending? && !s.worker.LossBeforeFailure? && !s.worker.ReportingFailure?
  }

  lemma WindingStep(s: System, a: Action)
    requires Control(s) && WindingDown(s) && Enabled(s, a)
    ensures WindingDown(Step(s, a))
  {
    if Reports(a) {
      SentMembers(s, QueueFull);
      SentMembers(s, WorkerPanic);
    } else {
      assert Step(s, a).log.sent == s.log.sent;
    }
  }

  /** Once it is closed, a worker begins no further poll, and does not report one that failed. */
  lemma {:induction false} ClosedPollsNoMore(from: System, actions: seq<Action>, to: System)
    requires Inv(from) && WindingDown(from) && Reaches(from, actions, to)
    ensures WindingDown(to)
    decreases |actions|
  {
    if actions != [] {
      StepKeeps(from, actions[0]);
      WindingStep(from, actions[0]);
      ClosedPollsNoMore(Step(from, actions[0]), actions[1..], to);
    }
  }

  // ----- what terminal errors are caused by -----

  /** Which failures have happened: a panic that a callback's guard caught, one that left the
      worker function, and a poll that failed. */
  datatype Seen = Seen(caught: bool, uncaught: bool, failed: bool)

  const NothingSeen := Seen(false, false, false)

  function After(seen: Seen, a: Action): Seen {
    Seen(seen.caught || a.PanicInCallback?, seen.uncaught || a.PanicOutsideCallback?,
         seen.failed || a == ReturnFromPoll(false))
  }

  predicate Left(w: Worker) {
    w.Leaving? || w.Unwinding? || w.Dropping? || w.Gone?
  }

  predicate ReportsPanic(w: Worker) {
    w.LossBeforePanic? || w.ReportingPanic?
  }

  predicate ReportsFailure(w: Worker) {
    w == Polled(false) || w.FailedPoll? || w.LossBeforeFailure? || w.ReportingFailure?
  }

  /** A caught panic waits in the mailbox until the poll returns, and is then on its way. */
  predicate CaughtAccount(s: System, seen: Seen) {
    && (s.callbackPanic || ReportsPanic(s.worker) ==> seen.caught)
    && (seen.caught ==>
          || (s.callbackPanic && (s.worker == Polling(true) || s.worker == Polled(false)))
          || ReportsPanic(s.worker)
          || s.worker.Unwinding?
          || (Left(s.worker) && WorkerPanic in s.log.sent))
    && (seen.caught ==> PollFailure !in s.log.sent)
  }

  predicate CauseAccount(s: System, seen: Seen) {
    && CaughtAccount(s, seen)
    && (WorkerPanic in s.log.sent ==> (seen.caught || seen.uncaught) && Left(s.worker))
    && (s.worker.Unwinding? ==> seen.uncaught)
    && (seen.uncaught ==> s.worker.Unwinding? || s.worker.Dropping? || s.worker.Gone?)
    && (seen.uncaught && !s.worker.Unwinding? ==> WorkerPanic in s.log.sent)
    && (PollFailure in s.log.sent ==> seen.failed && Left(s.worker))
    && (ReportsFailure(s.worker) && s.worker != Polled(false) ==> seen.failed)
    && (s.worker == Polled(false) ==> seen.failed)
  }

  /** Steps that send no terminal error and are no failure. */
  lemma QuietCauses(s: System, a: Action, seen: Seen)
    requires CauseAccount(s, seen) && Enabled(s, a)
    requires !Reports(a) && !a.PanicInCallback? && !a.PanicOutsideCallback? && !a.ReturnFromPoll?
    ensures CauseAccount(Step(s, a), seen)
  {
    assert Step(s, a).log.sent == s.log.sent;
  }

  lemma FailureCauses(s: System, a: Action, seen: Seen)
    requires CauseAccount(s, seen) && Enabled(s, a)
    requires a.PanicInCallback? || a.PanicOutsideCallback? || a.ReturnFromPoll?
    ensures CauseAccount(Step(s, a), After(seen, a))
  {
    assert Step(s, a).log.sent == s.log.sent;
  }

  lemma SentMembers(s: System, t: Terminal)
    ensures forall x :: x in SendTerminal(s, t).log.sent <==> x in s.log.sent || x == t
    ensures SendTerminal(s, t).callbackPanic == s.callbackPanic
  {
  }

  lemma LossCauses(s: System, a: Action, seen: Seen)
    requires CauseAccount(s, seen) && Enabled(s, a) && (a.ReportLossBeforePanic? || a.ReportLossBeforeFailure?)
    ensures CauseAccount(Step(s, a), seen)
  {
    SentMembers(s, QueueFull);
  }

  lemma PanicCauses(s: System, a: Action, seen: Seen)
    requires CauseAccount(s, seen) && Enabled(s, a) && (a.ReportPanic? || a.ReportUncaught?)
    ensures CauseAccount(Step(s, a), seen)
  {
    SentMembers(s, WorkerPanic);
  }

  lemma PollCauses(s: System, seen: Seen)
    requires CauseAccount(s, seen) && s.worker.ReportingFailure?
    ensures CauseAccount(Step(s, ReportFailure), seen)
  {
    SentMembers(s, PollFailure);
  }

  lemma ReportCauses(s: System, a: Action, seen: Seen)
    requires CauseAccount(s, seen) && Enabled(s, a) && Reports(a)
    ensures CauseAccount(Step(s, a), seen)
  {
    if a.ReportLossBeforePanic? || a.ReportLossBeforeFailure? { LossCauses(s, a, seen); }
    else if a.ReportFailure? { PollCauses(s, seen); }
    else { PanicCauses(s, a, seen); }
  }

  lemma CauseStep(s: System, a: Action, seen: Seen)
    requires CauseAccount(s, seen) && Enabled(s, a)
    ensures CauseAccount(Step(s, a), After(seen, a))
  {
    if Reports(a) {
      ReportCauses(s, a, seen);
    } else if a.PanicInCallback? || a.PanicOutsideCallback? || a.ReturnFromPoll? {
      FailureCauses(s, a, seen);
    } else {
      QuietCauses(s, a, seen);
    }
  }

  lemma {:induction false} RunCauses(from: System, actions: seq<Action>, to: System, before: Seen) returns (seen: Seen)
    requires CauseAccount(from, before) && Reaches(from, actions, to)
    ensures CauseAccount(to, seen)
    ensures seen.caught <==> before.caught || PanicInCallback in actions
    ensures seen.uncaught <==> before.uncaught || PanicOutsideCallback in actions
    ensures seen.failed <==> before.failed || ReturnFromPoll(false) in actions
    decreases |actions|
  {
    if actions == [] {
      seen := before;
    } else {
      assert actions == [actions[0]] + actions[1..];
      CauseStep(from, actions[0], before);
      seen := RunCauses(Step(from, actions[0]), actions[1..], to, After(before, actions[0]));
    }
  }

  /** A panic is reported only if there was one, and always by a worker that has ended; a poll
      failure only if a poll failed, and never once a callback has panicked. */
  lemma ReportsHaveCauses(capacity: nat, actions: seq<Action>, s: System)
    requires capacity > 0 && Reaches(Initial(capacity), actions, s)
    ensures WorkerPanic in s.log.sent ==> PanicInCallback in actions || PanicOutsideCallback in actions
    ensures s.worker.Gone? && (PanicInCallback in actions || PanicOutsideCallback in actions) ==>
              WorkerPanic in s.log.sent
    ensures PollFailure in s.log.sent ==> ReturnFromPoll(false) in actions && PanicInCallback !in actions
  {
    var seen := RunCauses(Initial(capacity), actions, s, NothingSeen);
  }
}
