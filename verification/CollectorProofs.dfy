/** What holds of every run of the delivery protocol. */
module CollectorProofs {
  import opened Events
  import opened Sequences
  import opened Collector

  // ----- every step keeps the invariant -----

  /** Steps that report on the terminal channel. */
  predicate Reports(a: Action) {
    a.ReportLossBeforePanic? || a.ReportPanic? || a.ReportLossBeforeFailure? || a.ReportFailure? || a.ReportUncaught?
  }

  predicate Receives(a: Action) {
    a.ReadDeliveries? || a.ReadTerminal?
  }

  /** Steps that only move a thread or set a flag. */
  predicate Quiet(a: Action) {
    !a.Send? && !Reports(a) && !Receives(a) && !a.PanicOutsideCallback?
  }

  /** The two states agree on the delivery queue and everything seen through it. */
  predicate SameDeliveries(s: System, s': System) {
    && s'.queue == s.queue && s'.pending == s.pending && s'.capacity == s.capacity
    && s'.log.attempts == s.log.attempts && s'.log.outcomes == s.log.outcomes
    && s'.consumer == s.consumer
  }

  predicate SameTerminal(s: System, s': System) {
    s'.terminal == s.terminal && s'.log.sent == s.log.sent && s'.log.refused == s.log.refused
  }

  lemma QuietFrame(s: System, a: Action)
    requires Enabled(s, a) && Quiet(a)
    ensures SameDeliveries(s, Step(s, a)) && SameTerminal(s, Step(s, a))
    ensures Step(s, a).outputFullPending == s.outputFullPending && Step(s, a).log == s.log
    ensures s.handle.Dead? ==> Step(s, a).handle.Dead?
  {
  }

  lemma SendTerminalFrame(s: System, t: Terminal)
    ensures SameDeliveries(s, SendTerminal(s, t))
    ensures SendTerminal(s, t).running == s.running && SendTerminal(s, t).handle == s.handle
  {
  }

  lemma ReportFrame(s: System, a: Action)
    requires Enabled(s, a) && (Reports(a) || a.PanicOutsideCallback?)
    ensures SameDeliveries(s, Step(s, a))
    ensures Step(s, a).running == s.running && Step(s, a).handle == s.handle
    ensures a.PanicOutsideCallback? ==> SameTerminal(s, Step(s, a))
  {
    SendTerminalFrame(s, QueueFull);
    SendTerminalFrame(s, WorkerPanic);
    SendTerminalFrame(s, PollFailure);
  }

  // ----- control -----

  lemma QuietKeepsControl(s: System, a: Action)
    requires Control(s) && Enabled(s, a) && Quiet(a)
    ensures Control(Step(s, a))
  {
    QuietFrame(s, a);
  }

  lemma LossReportKeepsControl(s: System, a: Action)
    requires Control(s) && Enabled(s, a) && (a.ReportLossBeforePanic? || a.ReportLossBeforeFailure?)
    ensures Control(Step(s, a))
  {
  }

  lemma PanicReportKeepsControl(s: System)
    requires Control(s) && Enabled(s, ReportPanic)
    ensures Control(Step(s, ReportPanic))
  {
  }

  lemma FailureReportKeepsControl(s: System)
    requires Control(s) && Enabled(s, ReportFailure)
    ensures Control(Step(s, ReportFailure))
  {
  }

  /** The last report of a worker that panicked outside the callback. */
  lemma UncaughtScript(s: System)
    requires Script(s) && s.worker.Unwinding?
    ensures Finished(s.(log := s.log.(sent := s.log.sent + [WorkerPanic])))
  {
    var owed := OwedNotice(s.log.attempts);
    Regrouped(owed, [WorkerPanic], [WorkerPanic]);
    Regrouped(owed, [PollFailure], [WorkerPanic]);
    assert [WorkerPanic] + [WorkerPanic] == [WorkerPanic, WorkerPanic];
    assert [PollFailure] + [WorkerPanic] == [PollFailure, WorkerPanic];
  }

  lemma UncaughtReportKeepsControl(s: System)
    requires Control(s) && Enabled(s, ReportUncaught)
    ensures Control(Step(s, ReportUncaught))
  {
    UncaughtScript(s);
    assert Step(s, ReportUncaught).log.sent == s.log.sent + [WorkerPanic];
  }

  lemma CrashKeepsControl(s: System)
    requires Control(s) && Enabled(s, PanicOutsideCallback)
    ensures Control(Step(s, PanicOutsideCallback))
  {
  }

  lemma ReportKeepsControl(s: System, a: Action)
    requires Control(s) && Enabled(s, a) && (Reports(a) || a.PanicOutsideCallback?)
    ensures Control(Step(s, a))
  {
    if a.PanicOutsideCallback? { CrashKeepsControl(s); }
    else if a.ReportLossBeforePanic? || a.ReportLossBeforeFailure? { LossReportKeepsControl(s, a); }
    else if a.ReportPanic? { PanicReportKeepsControl(s); }
    else if a.ReportFailure? { FailureReportKeepsControl(s); }
    else { UncaughtReportKeepsControl(s); }
  }

  lemma SendKeepsControl(s: System)
    requires Control(s) && Enabled(s, Send)
    ensures Control(Step(s, Send))
  {
    if !s.handle.Dead? {
      ExpectedExtends(s.log.attempts,
                      if |s.queue| >= s.capacity then Dropped(s.worker.delivery) else Accepted(s.worker.delivery));
    }
  }

  lemma ReceiveFrame(s: System, a: Action)
    requires Enabled(s, a) && Receives(a)
    ensures var s' := Step(s, a);
            && s'.capacity == s.capacity && |s'.queue| <= |s.queue| && s'.running == s.running && s'.handle == s.handle
            && s'.worker == s.worker && s'.outputFullPending == s.outputFullPending
            && s'.log.attempts == s.log.attempts && s'.log.sent == s.log.sent
            && s'.log.refused == s.log.refused && s'.log.crashedEarly == s.log.crashedEarly
  {
  }

  lemma ReceiveKeepsControl(s: System, s': System)
    requires Control(s)
    requires s'.capacity == s.capacity && |s'.queue| <= |s.queue| && s'.running == s.running && s'.handle == s.handle
    requires s'.worker == s.worker && s'.outputFullPending == s.outputFullPending
    requires s'.log.attempts == s.log.attempts && s'.log.sent == s.log.sent && s'.log.crashedEarly == s.log.crashedEarly
    ensures Control(s')
  {
  }

  lemma ControlKept(s: System, a: Action)
    requires Control(s) && Enabled(s, a)
    ensures Control(Step(s, a))
  {
    if a.Send? { SendKeepsControl(s); }
    else if Receives(a) { ReceiveFrame(s, a); ReceiveKeepsControl(s, Step(s, a)); }
    else if Quiet(a) { QuietKeepsControl(s, a); }
    else { ReportKeepsControl(s, a); }
  }

  // ----- the terminal channel -----

  lemma SentIsShort(s: System)
    requires Control(s)
    ensures |s.log.sent| <= 3
    ensures (s.worker.LossBeforePanic? || s.worker.ReportingPanic? || s.worker.LossBeforeFailure? ||
             s.worker.ReportingFailure? || s.worker.Unwinding?) ==> |s.log.sent| <= 2
    ensures |s.log.sent| > 0 ==> !BeforeLossReport(s.worker)
  {
  }

  lemma SendTerminalKeeps(s: System, t: Terminal)
    requires TerminalAccount(s) && |s.log.sent| <= 2
    ensures TerminalAccount(SendTerminal(s, t))
  {
  }

  lemma ReportKeepsTerminal(s: System, a: Action)
    requires TerminalAccount(s) && |s.log.sent| <= 2 && Enabled(s, a) && Reports(a)
    ensures TerminalAccount(Step(s, a))
  {
    SendTerminalKeeps(s, QueueFull);
    SendTerminalKeeps(s, WorkerPanic);
    SendTerminalKeeps(s, PollFailure);
  }

  lemma ReadDeliveriesKeepsTerminal(s: System)
    requires TerminalAccount(s)
    ensures TerminalAccount(ReceiveDelivery(s))
    ensures FromTerminal(ReceiveDelivery(s).log.outcomes) == FromTerminal(s.log.outcomes)
  {
    var o := DeliveryOutcome(s.pending, s.queue);
    if o.Some? { LogExtends(s.log.outcomes, o.value); }
  }

  lemma ReadTerminalKeepsTerminal(s: System)
    requires TerminalAccount(s)
    ensures TerminalAccount(ReceiveTerminal(s))
  {
    LogExtends(s.log.outcomes, TerminalOutcome(s.terminal, s.worker));
  }

  lemma SendKeepsTerminal(s: System)
    requires TerminalAccount(s) && Enabled(s, Send)
    ensures TerminalAccount(Step(s, Send))
  {
  }

  lemma TerminalKept(s: System, a: Action)
    requires Control(s) && TerminalAccount(s) && Enabled(s, a)
    ensures TerminalAccount(Step(s, a))
  {
    SentIsShort(s);
    if a.Send? { SendKeepsTerminal(s); }
    else if a.ReadDeliveries? { ReadDeliveriesKeepsTerminal(s); }
    else if a.ReadTerminal? { ReadTerminalKeepsTerminal(s); }
    else if Reports(a) { ReportKeepsTerminal(s, a); }
    else if Quiet(a) { QuietFrame(s, a); }
    else { ReportFrame(s, a); }
  }

  // ----- the delivery queue -----

  lemma ExpectedAccepts(attempts: seq<Attempt>, d: Delivery)
    ensures Expected(attempts + [Accepted(d)]) == Expected(attempts) + EntryOutcomes(Entry(d, EndsDropped(attempts)))
  {
    ExpectedExtends(attempts, Accepted(d));
    var e := Expected(attempts);
    assert e + [] + [Item(d)] == e + [Item(d)];
    assert e + [Notice] + [Item(d)] == e + [Notice, Item(d)];
  }

  lemma InFlightExtends(pending: Option<Delivery>, queue: seq<Entry>, e: Entry)
    ensures InFlight(pending, queue + [e]) == InFlight(pending, queue) + EntryOutcomes(e)
  {
    QueueOutcomesExtends(queue, e);
    Regrouped(PendingOutcomes(pending), QueueOutcomes(queue), EntryOutcomes(e));
  }

  lemma AcceptExtendsInFlight(received: seq<Outcome>, pending: Option<Delivery>, queue: seq<Entry>,
                              attempts: seq<Attempt>, d: Delivery)
    requires received + InFlight(pending, queue) == Expected(attempts)
    ensures received + InFlight(pending, queue + [Entry(d, EndsDropped(attempts))]) ==
            Expected(attempts + [Accepted(d)])
  {
    var e := Entry(d, EndsDropped(attempts));
    ExpectedAccepts(attempts, d);
    InFlightExtends(pending, queue, e);
    Regrouped(received, InFlight(pending, queue), EntryOutcomes(e));
  }

  /** What the send of a callback does to the account. */
  lemma SendFrame(s: System)
    requires Control(s) && Enabled(s, Send)
    ensures var s', d := Step(s, Send), s.worker.delivery;
            && s'.pending == s.pending && s'.log.outcomes == s.log.outcomes
            && (|| (s'.queue == s.queue && s'.log.attempts == s.log.attempts)
                || (s'.queue == s.queue && s'.log.attempts == s.log.attempts + [Dropped(d)])
                || (s'.queue == s.queue + [Entry(d, EndsDropped(s.log.attempts))] &&
                    s'.log.attempts == s.log.attempts + [Accepted(d)]))
  {
  }

  lemma SendKeepsAccount(s: System, s': System, d: Delivery)
    requires DeliveryAccount(s)
    requires s'.pending == s.pending && s'.log.outcomes == s.log.outcomes
    requires || (s'.queue == s.queue && s'.log.attempts == s.log.attempts)
             || (s'.queue == s.queue && s'.log.attempts == s.log.attempts + [Dropped(d)])
             || (s'.queue == s.queue + [Entry(d, EndsDropped(s.log.attempts))] &&
                 s'.log.attempts == s.log.attempts + [Accepted(d)])
    ensures DeliveryAccount(s')
  {
    if s'.queue == s.queue {
      ExpectedExtends(s.log.attempts, Dropped(d));
    } else {
      AcceptExtendsInFlight(FromDeliveries(s.log.outcomes), s.pending, s.queue, s.log.attempts, d);
    }
  }

  lemma SendKeepsDeliveries(s: System)
    requires Control(s) && DeliveryAccount(s) && Enabled(s, Send)
    ensures DeliveryAccount(Step(s, Send))
  {
    SendFrame(s);
    SendKeepsAccount(s, Step(s, Send), s.worker.delivery);
  }

  /** A read moves the first outcome in flight to the consumer. */
  lemma InFlightHead(pending: Option<Delivery>, queue: seq<Entry>)
    ensures var o := DeliveryOutcome(pending, queue);
            if o.None? then InFlight(pending, queue) == []
            else
              InFlight(pending, queue) == [o.value] + InFlight(NextPending(pending, queue), NextQueue(pending, queue))
  {
  }

  lemma ReadKeepsDeliveries(s: System)
    requires DeliveryAccount(s)
    ensures DeliveryAccount(ReceiveDelivery(s))
  {
    InFlightHead(s.pending, s.queue);
    var o := DeliveryOutcome(s.pending, s.queue);
    if o.Some? {
      LogExtends(s.log.outcomes, o.value);
      Regrouped(FromDeliveries(s.log.outcomes), [o.value],
          InFlight(NextPending(s.pending, s.queue), NextQueue(s.pending, s.queue)));
    }
  }

  lemma TerminalReadKeepsDeliveries(s: System)
    requires DeliveryAccount(s)
    ensures DeliveryAccount(ReceiveTerminal(s))
    ensures FromDeliveries(ReceiveTerminal(s).log.outcomes) == FromDeliveries(s.log.outcomes)
  {
    LogExtends(s.log.outcomes, TerminalOutcome(s.terminal, s.worker));
  }

  lemma DeliveriesKept(s: System, a: Action)
    requires Control(s) && DeliveryAccount(s) && Enabled(s, a)
    ensures DeliveryAccount(Step(s, a))
  {
    if a.Send? { SendKeepsDeliveries(s); }
    else if a.ReadDeliveries? { ReadKeepsDeliveries(s); }
    else if a.ReadTerminal? { TerminalReadKeepsDeliveries(s); }
    else if Quiet(a) { QuietFrame(s, a); }
    else { ReportFrame(s, a); }
  }

  // ----- the consumer -----

  /** Samples offered after the delivery read do not change what it had found. */
  lemma ConsumerFrame(s: System, s': System, more: seq<Attempt>)
    requires ConsumerAccount(s) && s'.log.attempts == s.log.attempts + more
    requires s'.consumer == s.consumer && s'.pending == s.pending && s'.log.outcomes == s.log.outcomes
    requires FromTerminal(s.log.outcomes) == []
    ensures ConsumerAccount(s')
  {
    if s.consumer.AtTerminal? {
      assert s'.log.attempts[..s.consumer.seen] == s.log.attempts[..s.consumer.seen];
    }
  }

  lemma SendKeepsConsumer(s: System)
    requires Inv(s) && Enabled(s, Send)
    ensures ConsumerAccount(Step(s, Send))
  {
    SentIsShort(s);
    var s', n := Step(s, Send), |s.log.attempts|;
    if s.handle.Dead? {
      assert s'.log == s.log;
    } else {
      assert FromTerminal(s.log.outcomes) == [];
      ConsumerFrame(s, s', s'.log.attempts[n..]);
    }
  }

  lemma ReadKeepsConsumer(s: System)
    requires Inv(s) && s.consumer.Idle?
    ensures ConsumerAccount(ReceiveDelivery(s))
  {
    assert s.log.attempts[..|s.log.attempts|] == s.log.attempts;
  }

  lemma ConsumerKept(s: System, a: Action)
    requires Inv(s) && Enabled(s, a)
    ensures ConsumerAccount(Step(s, a))
  {
    if a.Send? { SendKeepsConsumer(s); }
    else if a.ReadDeliveries? { ReadKeepsConsumer(s); }
    else if a.ReadTerminal? { }
    else if Quiet(a) { QuietFrame(s, a); }
    else { ReportFrame(s, a); }
  }

  lemma NothingInFlight(received: seq<Outcome>, pending: Option<Delivery>, queue: seq<Entry>)
    requires received + InFlight(pending, queue) == received
    ensures queue == []
  {
    assert |InFlight(pending, queue)| == 0;
    assert |QueueOutcomes(queue)| == 0;
  }

  /** A worker that is gone while its collector lives has sent something. */
  lemma GoneHasSent(s: System)
    requires Control(s) && s.handle.Alive? && s.worker.Gone?
    ensures s.log.sent != []
  {
  }

  /** A worker that ended while its collector lives has reported, so the
      receive that finds nothing left read an exhausted queue. */
  lemma QueueEmptyAtStop(s: System)
    requires Inv(s) && s.handle.Alive? && s.consumer.AtTerminal?
    requires s.worker.Gone? && s.terminal == []
    ensures s.queue == []
  {
    GoneHasSent(s);
    assert FromTerminal(s.log.outcomes) == s.log.sent;
    assert s.log.attempts[..s.consumer.seen] == s.log.attempts;
    NothingInFlight(FromDeliveries(s.log.outcomes), s.pending, s.queue);
  }

  lemma StopKept(s: System, a: Action)
    requires Inv(s) && Enabled(s, a)
    ensures Stopped in Step(s, a).log.outcomes ==> Ended(Step(s, a))
  {
    if a.ReadTerminal? {
      StopIsEnd(s);
    } else if a.ReadDeliveries? {
      ReadAfterStop(s);
    } else if Stopped in Step(s, a).log.outcomes {
      NoStepAfterEnd(s, a);
    }
  }

  lemma StopIsEnd(s: System)
    requires Inv(s) && Enabled(s, ReadTerminal)
    ensures Stopped in ReceiveTerminal(s).log.outcomes ==> Ended(ReceiveTerminal(s))
  {
    if s.terminal == [] && s.worker.Gone? {
      QueueEmptyAtStop(s);
    }
  }

  lemma ReadAfterStop(s: System)
    requires Inv(s)
    ensures Stopped in ReceiveDelivery(s).log.outcomes ==> Ended(ReceiveDelivery(s))
  {
  }

  /** Once the worker is gone only the collector's owner acts. */
  lemma NoStepAfterEnd(s: System, a: Action)
    requires Inv(s) && Enabled(s, a) && !Receives(a)
    requires Stopped in Step(s, a).log.outcomes
    ensures Ended(Step(s, a))
  {
    if Quiet(a) { QuietFrame(s, a); }
    else if !a.Send? { ReportFrame(s, a); }
    assert Ended(s);
  }

  lemma ReadKeepsPending(s: System)
    requires PendingKnown(s)
    ensures PendingKnown(ReceiveDelivery(s))
  {
    var o := DeliveryOutcome(s.pending, s.queue);
    if o.Some? { LogExtends(s.log.outcomes, o.value); }
  }

  lemma TerminalReadKeepsPending(s: System)
    requires PendingKnown(s)
    ensures PendingKnown(ReceiveTerminal(s))
  {
    LogExtends(s.log.outcomes, TerminalOutcome(s.terminal, s.worker));
  }

  lemma PendingKept(s: System, a: Action)
    requires Control(s) && PendingKnown(s) && Enabled(s, a)
    ensures PendingKnown(Step(s, a))
  {
    if a.ReadDeliveries? { ReadKeepsPending(s); }
    else if a.ReadTerminal? { TerminalReadKeepsPending(s); }
    else if a.Send? { SendFrame(s); }
    else if Quiet(a) { QuietFrame(s, a); }
    else { ReportFrame(s, a); }
  }

  lemma StepKeeps(s: System, a: Action)
    requires Inv(s) && Enabled(s, a)
    ensures Inv(Step(s, a))
  {
    ControlKept(s, a);
    TerminalKept(s, a);
    DeliveriesKept(s, a);
    ConsumerKept(s, a);
    PendingKept(s, a);
    StopKept(s, a);
  }

  lemma {:induction false} RunKeeps(from: System, actions: seq<Action>, to: System)
    requires Inv(from) && Reaches(from, actions, to)
    ensures Inv(to)
    decreases |actions|
  {
    if actions != [] {
      StepKeeps(from, actions[0]);
      RunKeeps(Step(from, actions[0]), actions[1..], to);
    }
  }

  lemma ReachableInv(s: System)
    requires Reachable(s)
    ensures Inv(s)
  {
    var capacity: nat, actions :| capacity > 0 && Reaches(Initial(capacity), actions, s);
    InitialInv(capacity);
    RunKeeps(Initial(capacity), actions, s);
  }

  lemma {:induction false} ReachesExtends(from: System, actions: seq<Action>, to: System, a: Action)
    requires Reaches(from, actions, to) && Enabled(to, a)
    ensures Reaches(from, actions + [a], Step(to, a))
    decreases |actions|
  {
    if actions == [] {
      assert (actions + [a])[1..] == [];
    } else {
      assert (actions + [a])[1..] == actions[1..] + [a];
      ReachesExtends(Step(from, actions[0]), actions[1..], to, a);
    }
  }

  lemma ReachableStep(s: System, a: Action)
    requires Reachable(s) && Enabled(s, a)
    ensures Reachable(Step(s, a))
  {
    var capacity: nat, actions :| capacity > 0 && Reaches(Initial(capacity), actions, s);
    ReachesExtends(Initial(capacity), actions, s, a);
  }

  lemma InitialReachable(capacity: nat)
    requires capacity > 0
    ensures Reachable(Initial(capacity))
  {
    assert Reaches(Initial(capacity), [], Initial(capacity));
  }

  // ----- loss accounting -----

  function Items(outcomes: seq<Outcome>): seq<Delivery> {
    if outcomes == [] then []
    else
      var last := outcomes[|outcomes| - 1];
      Items(outcomes[..|outcomes| - 1]) + if last.Item? then [last.delivery] else []
  }

  function AcceptedOf(attempts: seq<Attempt>): seq<Delivery> {
    if attempts == [] then []
    else
      var last := attempts[|attempts| - 1];
      AcceptedOf(attempts[..|attempts| - 1]) + if last.Accepted? then [last.delivery] else []
  }

  function Notices(outcomes: seq<Outcome>): nat {
    if outcomes == [] then 0
    else Notices(outcomes[..|outcomes| - 1]) + if outcomes[|outcomes| - 1].Notice? then 1 else 0
  }

  /** The number of maximal runs of consecutive drops. */
  function DropRuns(attempts: seq<Attempt>): nat {
    if attempts == [] then 0
    else
      var n := |attempts| - 1;
      DropRuns(attempts[..n]) + if attempts[n].Dropped? && !EndsDropped(attempts[..n]) then 1 else 0
  }

  lemma OutcomeCounts(outcomes: seq<Outcome>, o: Outcome)
    ensures Items(outcomes + [o]) == Items(outcomes) + if o.Item? then [o.delivery] else []
    ensures Notices(outcomes + [o]) == Notices(outcomes) + if o.Notice? then 1 else 0
  {
    assert (outcomes + [o])[..|outcomes|] == outcomes;
  }

  /** The expected stream: the accepted deliveries in order, and one notice
      for each run of drops that an accepted delivery has closed. */
  lemma {:induction false} ExpectedCounts(attempts: seq<Attempt>)
    ensures Items(Expected(attempts)) == AcceptedOf(attempts)
    ensures Notices(Expected(attempts)) + (if EndsDropped(attempts) then 1 else 0) == DropRuns(attempts)
  {
    if attempts != [] {
      var n := |attempts| - 1;
      var before := attempts[..n];
      ExpectedCounts(before);
      if attempts[n].Accepted? {
        var noticed := Expected(before) + if EndsDropped(before) then [Notice] else [];
        OutcomeCounts(Expected(before), Notice);
        OutcomeCounts(noticed, Item(attempts[n].delivery));
        assert Expected(before) + [] == Expected(before);
      }
    }
  }

  lemma {:induction false} ExpectedPrefix(attempts: seq<Attempt>, i: nat)
    requires i <= |attempts|
    ensures Expected(attempts[..i]) <= Expected(attempts)
    decreases |attempts| - i
  {
    if i == |attempts| {
      assert attempts[..i] == attempts;
    } else {
      ExpectedPrefix(attempts, i + 1);
      assert attempts[..i + 1][..i] == attempts[..i];
    }
  }

  /** Where each notice stands: directly before a delivery accepted right after a drop. */
  lemma ExpectedPlacement(attempts: seq<Attempt>, i: nat)
    requires i < |attempts| && attempts[i].Accepted?
    ensures var p, expected := |Expected(attempts[..i])|, Expected(attempts);
            if i > 0 && attempts[i - 1].Dropped?
            then p + 1 < |expected| && expected[p] == Notice && expected[p + 1] == Item(attempts[i].delivery)
            else p < |expected| && expected[p] == Item(attempts[i].delivery)
  {
    ExpectedPrefix(attempts, i + 1);
    assert attempts[..i + 1][..i] == attempts[..i];
  }

  /** In every run the consumer has received exactly the first part of the
      expected stream, and all of it once nothing is left in flight. */
  lemma LossAccounting(s: System)
    requires Reachable(s)
    ensures FromDeliveries(s.log.outcomes) <= Expected(s.log.attempts)
    ensures s.queue == [] && s.pending.None? ==> FromDeliveries(s.log.outcomes) == Expected(s.log.attempts)
    ensures |s.queue| <= s.capacity
  {
    ReachableInv(s);
  }

  // ----- how a run ends -----

  lemma EndScript(s: System)
    requires Control(s) && s.handle.Alive? && s.worker.Gone?
    ensures s.log.sent != []
    ensures s.log.crashedEarly ==> s.log.sent == [WorkerPanic]
    ensures !s.log.crashedEarly ==>
              exists reason, tail ::
                && (reason == PollFailure || reason == WorkerPanic)
                && (tail == [] || tail == [WorkerPanic])
                && s.log.sent == OwedNotice(s.log.attempts) + [reason] + tail
    ensures (EndsDropped(s.log.attempts) ==> s.log.sent[0] == QueueFull) <==>
            !(s.log.crashedEarly && EndsDropped(s.log.attempts))
  {
    var owed, sent := OwedNotice(s.log.attempts), s.log.sent;
    if !s.log.crashedEarly {
      var reason := sent[|owed|];
      var tail := sent[|owed| + 1..];
      assert sent == owed + [reason] + tail;
    }
  }

  /** A worker that ended while its collector lives has reported why. Unless an
      uncaught panic struck first, a run of drops left open was reported too,
      once and before the reason. */
  lemma EndOfRun(s: System)
    requires Reachable(s) && s.handle.Alive? && s.worker.Gone?
    ensures s.log.sent != []
    ensures s.log.crashedEarly ==> s.log.sent == [WorkerPanic]
    ensures !s.log.crashedEarly ==>
              exists reason, tail ::
                && (reason == PollFailure || reason == WorkerPanic)
                && (tail == [] || tail == [WorkerPanic])
                && s.log.sent == OwedNotice(s.log.attempts) + [reason] + tail
    ensures (EndsDropped(s.log.attempts) ==> s.log.sent[0] == QueueFull) <==>
            !(s.log.crashedEarly && EndsDropped(s.log.attempts))
  {
    ReachableInv(s);
    EndScript(s);
  }

  /** One sample fills the queue and the next is dropped. */
  lemma DroppedSample(d: Delivery) returns (s: System)
    ensures Reachable(s) && s.handle.Alive? && s.worker == Polling(false) && s.terminal == []
    ensures s.log.attempts == [Accepted(d), Dropped(d)] && s.log.sent == []
  {
    s := Initial(1);
    InitialReachable(1);
    s := Go(s, TestRunning);
    s := Go(s, EnterCallback(d));
    s := Go(s, Send);
    s := Go(s, EnterCallback(d));
    s := Go(s, Send);
  }

  /** The exception is real: a drop, then a panic outside the callback, and no notice. */
  lemma LostNotice(d: Delivery) returns (s: System)
    ensures Reachable(s) && s.handle.Alive? && s.worker.Gone?
    ensures EndsDropped(s.log.attempts) && s.log.sent == [WorkerPanic]
  {
    s := DroppedSample(d);
    s := Go(s, PanicOutsideCallback);
    s := Go(s, ReportUncaught);
    s := Go(s, DropTerminalSender);
  }

  lemma Go(s: System, a: Action) returns (s': System)
    requires Reachable(s) && Enabled(s, a)
    ensures s' == Step(s, a) && Reachable(s')
  {
    s' := Step(s, a);
    ReachableStep(s, a);
  }

  // ----- the terminal channel -----

  /** The three slots always suffice, and terminal errors arrive once each, in send order. */
  lemma TerminalComplete(s: System)
    requires Reachable(s)
    ensures !s.log.refused
    ensures |s.log.sent| <= TERMINAL_SLOTS
    ensures !s.handle.Dead? ==> FromTerminal(s.log.outcomes) <= s.log.sent
    ensures !s.handle.Dead? && s.terminal == [] ==> FromTerminal(s.log.outcomes) == s.log.sent
  {
    ReachableInv(s);
    SentIsShort(s);
  }

  lemma StepAfterStop(s: System, a: Action)
    requires Inv(s) && Enabled(s, a) && Stopped in s.log.outcomes
    ensures Step(s, a).log.outcomes == s.log.outcomes || Step(s, a).log.outcomes == s.log.outcomes + [Stopped]
  {
    if Quiet(a) { QuietFrame(s, a); }
    else if !Receives(a) && !a.Send? { ReportFrame(s, a); }
  }

  /** After a receive has reported that the worker stopped, every receive does. */
  lemma {:induction false} StopIsFinal(from: System, actions: seq<Action>, to: System)
    requires Inv(from) && Stopped in from.log.outcomes
    requires Reaches(from, actions, to)
    ensures OnlyStops(from.log.outcomes, to.log.outcomes)
    decreases |actions|
  {
    if actions != [] {
      var next := Step(from, actions[0]);
      StepAfterStop(from, actions[0]);
      StepKeeps(from, actions[0]);
      StopIsFinal(next, actions[1..], to);
      OnlyStopsJoin(from.log.outcomes, next.log.outcomes, to.log.outcomes);
    }
  }

  /** What follows is the stop, again and again. */
  predicate OnlyStops(earlier: seq<Outcome>, later: seq<Outcome>) {
    earlier <= later && forall i :: |earlier| <= i < |later| ==> later[i] == Stopped
  }

  lemma OnlyStopsJoin(a: seq<Outcome>, b: seq<Outcome>, c: seq<Outcome>)
    requires (b == a || b == a + [Stopped]) && OnlyStops(b, c)
    ensures OnlyStops(a, c)
  {
  }

  // ----- deliveries before terminal errors -----

  /** What is called for stays the same exactly while every further sample is dropped. */
  lemma {:induction false} ExpectedUnchanged(attempts: seq<Attempt>, seen: nat)
    requires seen <= |attempts|
    ensures Expected(attempts) == Expected(attempts[..seen]) <==>
            forall i :: seen <= i < |attempts| ==> attempts[i].Dropped?
    decreases |attempts| - seen
  {
    if seen == |attempts| {
      assert attempts[..seen] == attempts;
    } else {
      ExpectedUnchanged(attempts, seen + 1);
      ExpectedPrefix(attempts, seen + 1);
      assert attempts[..seen + 1] == attempts[..seen] + [attempts[seen]];
      ExpectedExtends(attempts[..seen], attempts[seen]);
    }
  }

  /** Everything accepted before a receive's delivery read was returned before that receive
      reads the terminal channel; and nothing else is waiting then if and only if every sample
      offered between the two reads was dropped. */
  lemma DeliveriesFirst(s: System)
    requires Reachable(s) && Enabled(s, ReadTerminal)
    ensures s.consumer.seen <= |s.log.attempts|
    ensures FromDeliveries(s.log.outcomes) == Expected(s.log.attempts[..s.consumer.seen])
    ensures s.queue == [] <==> forall i :: s.consumer.seen <= i < |s.log.attempts| ==> s.log.attempts[i].Dropped?
  {
    ReachableInv(s);
    assert s.queue == [] <==> |QueueOutcomes(s.queue)| == 0;
    ExpectedUnchanged(s.log.attempts, s.consumer.seen);
  }

  /** A delivery accepted just after a receive found the queue empty. */
  lemma AcceptedBetweenReads(d: Delivery) returns (s: System)
    ensures Reachable(s)
    ensures s == System(1, [Entry(d, false)], [], false, true, false, Polling(false), Alive, AtTerminal(0), None,
                        Log([Accepted(d)], [], [], false, false))
  {
    s := Initial(1);
    InitialReachable(1);
    s := Go(s, TestRunning);
    s := Go(s, ReadDeliveries);
    s := Go(s, EnterCallback(d));
    s := Go(s, Send);
  }

  /** The poll then fails, and the failure is sent. */
  lemma FailureAfterAcceptance(d: Delivery) returns (s: System)
    ensures Reachable(s) && s.handle.Alive? && s.consumer == AtTerminal(0) && s.terminal == [PollFailure]
    ensures s.log.attempts == [Accepted(d)] && s.log.outcomes == []
  {
    s := AcceptedBetweenReads(d);
    s := Go(s, ReturnFromPoll(false));
    s := Go(s, TakePanic);
    s := Go(s, ReloadRunning);
    s := Go(s, ReportLossBeforeFailure);
    s := Go(s, ReportFailure);
  }

  /** Such a delivery is overtaken by a poll failure reported before the second read. */
  lemma OvertakenDelivery(d: Delivery) returns (s: System)
    ensures Reachable(s)
    ensures s.log.outcomes == [Failed(PollFailure)] && AcceptedOf(s.log.attempts) == [d]
  {
    s := FailureAfterAcceptance(d);
    s := Go(s, ReadTerminal);
    assert [Accepted(d)][..0] == [];
  }
}
