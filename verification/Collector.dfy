/** The collector's delivery protocol as a machine of interleaved steps.
    One worker thread polls the ring buffer, whose callback offers samples to a
    bounded queue without ever waiting; one consumer receives. Every step below
    touches shared state at most once, so a run is any sequence of enabled steps. */
module Collector {
  import opened Events

  /** What decoding a sample produced. */
  datatype Delivery = Decoded(event: Event) | Malformed(sample: seq<Byte>)

  datatype Entry = Entry(delivery: Delivery, outputFullBefore: bool)

  datatype Terminal = QueueFull | PollFailure | WorkerPanic

  /** What a receive returned. */
  datatype Outcome =
    | Item(delivery: Delivery)
    | Notice
    | Failed(error: Terminal)
    | Stopped
    | NotReady

  /** What became of a sample offered to the queue. */
  datatype Attempt = Accepted(delivery: Delivery) | Dropped(delivery: Delivery)

  datatype Worker =
    | AtLoop                       // about to test `running`
    | Polling(callbackFailed: bool)  // inside the poll, between callbacks
    | Sending(delivery: Delivery)  // in a callback that found `running` set
    | Polled(ok: bool)             // the poll returned
    | LossBeforePanic              // a caught panic was taken from the mailbox
    | ReportingPanic
    | FailedPoll                   // about to reload `running`
    | LossBeforeFailure
    | ReportingFailure
    | Leaving                      // returning from the worker function
    | Unwinding                    // an uncaught panic has left the worker function
    | Dropping                     // about to drop the last terminal sender
    | Gone

  datatype Handle = Alive | Closing | Dead

  /** The consumer is between receives, or has found no delivery and is about
      to read the terminal channel. `seen` is how many samples had been offered. */
  datatype Consumer = Idle | AtTerminal(seen: nat)

  datatype Log = Log(
    attempts: seq<Attempt>,   // in callback order
    outcomes: seq<Outcome>,   // in receive order
    sent: seq<Terminal>,      // terminal sends, in order
    refused: bool,            // a terminal send found the channel full
    crashedEarly: bool)       // an uncaught panic before any loss report

  datatype System = System(
    capacity: nat,
    queue: seq<Entry>,
    terminal: seq<Terminal>,
    outputFullPending: bool,
    running: bool,
    callbackPanic: bool,
    worker: Worker,
    handle: Handle,
    consumer: Consumer,
    pending: Option<Delivery>,
    log: Log)

  const TERMINAL_SLOTS := 3

  datatype Action =
    | TestRunning
    | EnterCallback(delivery: Delivery)
    | Send
    | PanicInCallback
    | ReturnFromPoll(ok: bool)
    | TakePanic
    | ReportLossBeforePanic
    | ReportPanic
    | ReloadRunning
    | ReportLossBeforeFailure
    | ReportFailure
    | PanicOutsideCallback
    | ReportUncaught
    | Leave
    | DropTerminalSender
    | ReadDeliveries
    | ReadTerminal
    | Close
    | DropReceivers

  function Initial(capacity: nat): System {
    System(capacity, [], [], false, true, false, AtLoop, Alive, Idle, None, Log([], [], [], false, false))
  }

  predicate InWorkerFunction(w: Worker) {
    !w.Sending? && !w.Unwinding? && !w.Dropping? && !w.Gone?
  }

  predicate BeforeLossReport(w: Worker) {
    w.AtLoop? || w.Polling? || w.Sending? || w.Polled? || w.LossBeforePanic? || w.FailedPoll? || w.LossBeforeFailure?
  }

  predicate Enabled(s: System, a: Action) {
    match a
    case TestRunning => s.worker.AtLoop?
    case EnterCallback(_) => s.worker == Polling(false)
    case Send => s.worker.Sending?
    case PanicInCallback => s.worker.Sending?
    case ReturnFromPoll(ok) => s.worker.Polling? && (ok ==> !s.worker.callbackFailed)
    case TakePanic => s.worker.Polled?
    case ReportLossBeforePanic => s.worker.LossBeforePanic?
    case ReportPanic => s.worker.ReportingPanic?
    case ReloadRunning => s.worker.FailedPoll?
    case ReportLossBeforeFailure => s.worker.LossBeforeFailure?
    case ReportFailure => s.worker.ReportingFailure?
    case PanicOutsideCallback => InWorkerFunction(s.worker)
    case ReportUncaught => s.worker.Unwinding?
    case Leave => s.worker.Leaving?
    case DropTerminalSender => s.worker.Dropping?
    case ReadDeliveries => s.handle.Alive? && s.consumer.Idle?
    case ReadTerminal => s.handle.Alive? && s.consumer.AtTerminal?
    case Close => s.handle.Alive? && s.consumer.Idle?
    case DropReceivers => s.handle.Closing?
  }

  /** `try_send` on the terminal channel, whose result the worker ignores. */
  function SendTerminal(s: System, t: Terminal): System {
    var s := s.(log := s.log.(sent := s.log.sent + [t]));
    if s.handle.Dead? then s
    else if |s.terminal| >= TERMINAL_SLOTS then s.(log := s.log.(refused := true))
    else s.(terminal := s.terminal + [t])
  }

  function Offer(s: System, a: Attempt): System {
    s.(log := s.log.(attempts := s.log.attempts + [a]))
  }

  function Returned(s: System, o: Outcome): System {
    s.(log := s.log.(outcomes := s.log.outcomes + [o]))
  }

  /** The queue end of the callback. */
  function SendDelivery(s: System, d: Delivery): System {
    if s.handle.Dead? then s.(running := false, worker := Polling(true))
    else if |s.queue| >= s.capacity then Offer(s.(outputFullPending := true, worker := Polling(false)), Dropped(d))
    else Offer(s.(queue := s.queue + [Entry(d, s.outputFullPending)], outputFullPending := false,
                    worker := Polling(false)),
               Accepted(d))
  }

  /** `unpair`: a paired notice comes first and leaves its delivery pending. */
  function DeliveryOutcome(pending: Option<Delivery>, queue: seq<Entry>): Option<Outcome> {
    if pending.Some? then Some(Item(pending.value))
    else if queue == [] then None
    else if queue[0].outputFullBefore then Some(Notice)
    else Some(Item(queue[0].delivery))
  }

  function NextPending(pending: Option<Delivery>, queue: seq<Entry>): Option<Delivery> {
    if pending.None? && queue != [] && queue[0].outputFullBefore then Some(queue[0].delivery) else None
  }

  function NextQueue(pending: Option<Delivery>, queue: seq<Entry>): seq<Entry> {
    if pending.None? && queue != [] then queue[1..] else queue
  }

  /** The first read of a receive: the pending slot, then the delivery queue. */
  function ReceiveDelivery(s: System): System {
    var o := DeliveryOutcome(s.pending, s.queue);
    if o.None? then s.(consumer := AtTerminal(|s.log.attempts|))
    else Returned(s.(pending := NextPending(s.pending, s.queue), queue := NextQueue(s.pending, s.queue)), o.value)
  }

  function TerminalOutcome(terminal: seq<Terminal>, worker: Worker): Outcome {
    if terminal != [] then Failed(terminal[0])
    else if worker.Gone? then Stopped
    else NotReady
  }

  /** The second read: terminal status. A bounded wait is any delay before it. */
  function ReceiveTerminal(s: System): System {
    Returned(s.(consumer := Idle, terminal := if s.terminal == [] then [] else s.terminal[1..]),
             TerminalOutcome(s.terminal, s.worker))
  }

  function Step(s: System, a: Action): System
    requires Enabled(s, a)
  {
    match a
    case TestRunning => s.(worker := if s.running then Polling(false) else Leaving)
    case EnterCallback(d) => s.(worker := if s.running then Sending(d) else Polling(true))
    case Send => SendDelivery(s, s.worker.delivery)
    case PanicInCallback => s.(callbackPanic := true, worker := Polling(true))
    case ReturnFromPoll(ok) => s.(worker := Polled(ok))
    case TakePanic =>
      if s.callbackPanic then s.(callbackPanic := false, worker := LossBeforePanic)
      else if s.worker.ok then s.(worker := AtLoop)
      else s.(worker := FailedPoll)
    case ReportLossBeforePanic =>
      var reported := if s.outputFullPending then SendTerminal(s, QueueFull) else s;
      reported.(outputFullPending := false, worker := ReportingPanic)
    case ReportPanic => SendTerminal(s, WorkerPanic).(worker := Leaving)
    case ReloadRunning => s.(worker := if s.running then LossBeforeFailure else Leaving)
    case ReportLossBeforeFailure =>
      (if s.outputFullPending then SendTerminal(s, QueueFull) else s).(worker := ReportingFailure)
    case ReportFailure => SendTerminal(s, PollFailure).(worker := Leaving)
    case PanicOutsideCallback =>
      s.(worker := Unwinding, log := s.log.(crashedEarly := BeforeLossReport(s.worker)))
    case ReportUncaught => SendTerminal(s, WorkerPanic).(worker := Dropping)
    case Leave => s.(worker := Dropping)
    case DropTerminalSender => s.(worker := Gone)
    case ReadDeliveries => ReceiveDelivery(s)
    case ReadTerminal => ReceiveTerminal(s)
    case Close => s.(running := false, handle := Closing)
    case DropReceivers => s.(handle := Dead)
  }

  /** The states of a run. */
  ghost predicate Reaches(from: System, actions: seq<Action>, to: System)
    decreases |actions|
  {
    if actions == [] then from == to
    else Enabled(from, actions[0]) && Reaches(Step(from, actions[0]), actions[1..], to)
  }

  ghost predicate Reachable(s: System) {
    exists capacity: nat, actions :: capacity > 0 && Reaches(Initial(capacity), actions, s)
  }

  // ----- what the consumer should see -----

  predicate EndsDropped(attempts: seq<Attempt>) {
    attempts != [] && attempts[|attempts| - 1].Dropped?
  }

  /** Accepted deliveries in order, with one notice directly before the first
      one accepted after each run of drops. */
  function Expected(attempts: seq<Attempt>): seq<Outcome> {
    if attempts == [] then []
    else
      var n := |attempts| - 1;
      var earlier := Expected(attempts[..n]);
      match attempts[n]
      case Accepted(d) => earlier + (if EndsDropped(attempts[..n]) then [Notice] else []) + [Item(d)]
      case Dropped(_) => earlier
  }

  lemma ExpectedExtends(attempts: seq<Attempt>, a: Attempt)
    ensures Expected(attempts + [a]) ==
            if a.Accepted? then
              Expected(attempts) + (if EndsDropped(attempts) then [Notice] else []) + [Item(a.delivery)]
            else Expected(attempts)
    ensures EndsDropped(attempts + [a]) == a.Dropped?
  {
    assert (attempts + [a])[..|attempts|] == attempts;
  }

  function EntryOutcomes(e: Entry): seq<Outcome> {
    if e.outputFullBefore then [Notice, Item(e.delivery)] else [Item(e.delivery)]
  }

  function QueueOutcomes(queue: seq<Entry>): seq<Outcome> {
    if queue == [] then [] else EntryOutcomes(queue[0]) + QueueOutcomes(queue[1..])
  }

  function PendingOutcomes(pending: Option<Delivery>): seq<Outcome> {
    if pending.Some? then [Item(pending.value)] else []
  }

  lemma {:induction false} QueueOutcomesExtends(queue: seq<Entry>, e: Entry)
    ensures QueueOutcomes(queue + [e]) == QueueOutcomes(queue) + EntryOutcomes(e)
  {
    if queue == [] {
      assert queue + [e] == [e] && [e][1..] == [];
    } else {
      assert (queue + [e])[1..] == queue[1..] + [e];
      QueueOutcomesExtends(queue[1..], e);
    }
  }

  /** The part of the consumer's log that came from the delivery queue. */
  function FromDeliveries(outcomes: seq<Outcome>): seq<Outcome> {
    if outcomes == [] then []
    else
      var last := outcomes[|outcomes| - 1];
      FromDeliveries(outcomes[..|outcomes| - 1]) + if last.Item? || last.Notice? then [last] else []
  }

  /** The terminal errors in the consumer's log. */
  function FromTerminal(outcomes: seq<Outcome>): seq<Terminal> {
    if outcomes == [] then []
    else
      var last := outcomes[|outcomes| - 1];
      FromTerminal(outcomes[..|outcomes| - 1]) + if last.Failed? then [last.error] else []
  }

  lemma LogExtends(outcomes: seq<Outcome>, o: Outcome)
    ensures FromDeliveries(outcomes + [o]) == FromDeliveries(outcomes) + if o.Item? || o.Notice? then [o] else []
    ensures FromTerminal(outcomes + [o]) == FromTerminal(outcomes) + if o.Failed? then [o.error] else []
  {
    assert (outcomes + [o])[..|outcomes|] == outcomes;
  }

  // ----- the invariant -----

  /** The notice owed for a run of drops that nothing accepted has closed. */
  function OwedNotice(attempts: seq<Attempt>): seq<Terminal> {
    if EndsDropped(attempts) then [QueueFull] else []
  }

  /** Terminal sends, by the worker's position. */
  predicate Script(s: System) {
    var sent, owed := s.log.sent, OwedNotice(s.log.attempts);
    match s.worker
    case ReportingPanic => sent == owed
    case ReportingFailure => sent == owed
    case Leaving =>
      && (|| sent == owed + [WorkerPanic]
          || sent == owed + [PollFailure]
          || (sent == [] && !s.running))
      && !s.log.crashedEarly
    case Unwinding =>
      if s.log.crashedEarly then sent == []
      else sent == owed || sent == owed + [WorkerPanic] || sent == owed + [PollFailure] || (sent == [] && !s.running)
    case Dropping => Finished(s)
    case Gone => Finished(s)
    case _ => sent == []
  }

  /** The terminal sends of a worker that has ended. */
  predicate Finished(s: System) {
    var sent, owed := s.log.sent, OwedNotice(s.log.attempts);
    if s.log.crashedEarly then sent == [WorkerPanic]
    else
      || sent == owed + [WorkerPanic]
      || sent == owed + [PollFailure]
      || sent == owed + [WorkerPanic, WorkerPanic]
      || sent == owed + [PollFailure, WorkerPanic]
      || (!s.running && (sent == [] || sent == [WorkerPanic]))
  }

  function InFlight(pending: Option<Delivery>, queue: seq<Entry>): seq<Outcome> {
    PendingOutcomes(pending) + QueueOutcomes(queue)
  }

  predicate DeliveryAccount(s: System) {
    FromDeliveries(s.log.outcomes) + InFlight(s.pending, s.queue) == Expected(s.log.attempts)
  }

  predicate ConsumerAccount(s: System) {
    s.consumer.AtTerminal? ==>
      && s.pending.None?
      && s.consumer.seen <= |s.log.attempts|
      && FromDeliveries(s.log.outcomes) == Expected(s.log.attempts[..s.consumer.seen])
      && (FromTerminal(s.log.outcomes) != [] ==> s.consumer.seen == |s.log.attempts|)
  }

  predicate EndsWithNotice(outcomes: seq<Outcome>) {
    outcomes != [] && outcomes[|outcomes| - 1].Notice?
  }

  /** A delivery is pending exactly after its notice was returned. */
  predicate PendingKnown(s: System) {
    s.pending.Some? <==> EndsWithNotice(FromDeliveries(s.log.outcomes))
  }

  predicate Ended(s: System) {
    s.worker.Gone? && s.queue == [] && s.terminal == [] && s.pending.None?
  }

  /** Flags, and the terminal sends they lead to. */
  predicate Control(s: System) {
    && s.capacity > 0
    && |s.queue| <= s.capacity
    && (s.running <==> s.handle.Alive?)
    && (BeforeLossReport(s.worker) ==> s.outputFullPending == EndsDropped(s.log.attempts) && !s.log.crashedEarly)
    && (s.worker.ReportingPanic? || s.worker.ReportingFailure? ==> !s.log.crashedEarly)
    && Script(s)
  }

  /** Nothing sent on the terminal channel is lost or reordered while somebody can receive it. */
  predicate TerminalAccount(s: System) {
    && !s.log.refused
    && (!s.handle.Dead? ==> FromTerminal(s.log.outcomes) + s.terminal == s.log.sent)
  }

  predicate Inv(s: System) {
    && Control(s)
    && TerminalAccount(s)
    && DeliveryAccount(s)
    && ConsumerAccount(s)
    && PendingKnown(s)
    && (Stopped in s.log.outcomes ==> Ended(s))
  }

  lemma InitialInv(capacity: nat)
    requires capacity > 0
    ensures Inv(Initial(capacity))
  {
  }
}
