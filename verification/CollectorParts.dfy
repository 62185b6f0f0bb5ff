/** The collector's shared parts and the code that updates them (src/collector.rs).
    Each method is the code between two touches of shared state, and is shown to be
    one step of the machine in `Collector`; a run interleaves them in any order. */
module CollectorParts {
  import opened Events
  import opened Collector
  import opened CollectorProofs
  import opened CollectorLaws

  class Parts {
    const capacity: nat
    var queue: seq<Entry>
    var terminal: seq<Terminal>
    var outputFullPending: bool
    var running: bool
    var callbackPanic: bool
    var pendingDelivery: Option<Delivery>

    // Where each thread is, and what has happened.
    ghost var worker: Worker
    ghost var handle: Handle
    ghost var consumer: Consumer
    ghost var log: Log

    ghost function View(): System
      reads this
    {
      System(capacity, queue, terminal, outputFullPending, running, callbackPanic, worker, handle, consumer,
          pendingDelivery, log)
    }

    ghost predicate Valid()
      reads this
    {
      Inv(View())
    }

    /** `prepare`: the queue of the configured capacity and the three-slot terminal channel. */
    constructor (capacity: nat)
      requires capacity > 0
      ensures Valid() && View() == Initial(capacity)
    {
      this.capacity := capacity;
      queue, terminal, outputFullPending, running, callbackPanic, pendingDelivery := [], [], false, true, false, None;
      worker, handle, consumer, log := AtLoop, Alive, Idle, Log([], [], [], false, false);
      new;
      InitialInv(capacity);
    }

    // ----- the ring buffer callback -----

    /** The guard of `deliver`; the result is whether the sample goes on to be sent. */
    method EnterCallback(delivery: Delivery) returns (accepted: bool)
      requires Valid() && Enabled(View(), Action.EnterCallback(delivery))
      modifies this
      ensures Valid() && View() == Step(old(View()), Action.EnterCallback(delivery))
      ensures accepted == worker.Sending?
    {
      StepKeeps(View(), Action.EnterCallback(delivery));
      accepted := running;
      worker := if running then Sending(delivery) else Polling(true);
    }

    /** A send that never waits. */
    method TrySend(delivery: Delivery, disconnected: bool) returns (code: int)
      requires worker == Sending(delivery) && disconnected == handle.Dead?
      modifies this
      ensures View() == SendDelivery(old(View()), delivery)
      ensures code == if disconnected then -1 else 0
    {
      var entry := Entry(delivery, outputFullPending);
      if disconnected {
        running := false;
        worker := Polling(true);
        code := -1;
      } else if |queue| >= capacity {
        outputFullPending := true;
        log := log.(attempts := log.attempts + [Dropped(delivery)]);
        worker := Polling(false);
        code := 0;
      } else {
        queue := queue + [entry];
        outputFullPending := false;
        log := log.(attempts := log.attempts + [Accepted(delivery)]);
        worker := Polling(false);
        code := 0;
      }
    }

    /** The rest of `deliver`. */
    method Send(delivery: Delivery, disconnected: bool) returns (code: int)
      requires Valid() && worker == Sending(delivery) && disconnected == handle.Dead?
      modifies this
      ensures Valid() && View() == Step(old(View()), Action.Send)
      ensures code == if disconnected then -1 else 0
      ensures !disconnected ==>
                if Waiting(old(log)) == capacity then
                  queue == old(queue) && log.attempts == old(log).attempts + [Dropped(delivery)]
                else
                  && queue == old(queue) + [Entry(delivery, EndsDropped(old(log).attempts))]
                  && log.attempts == old(log).attempts + [Accepted(delivery)]
    {
      ghost var s := View();
      StepKeeps(s, Action.Send);
      WaitingIsQueue(s);
      code := TrySend(delivery, disconnected);
      assert View() == Step(s, Action.Send);
    }

    /** `catch_callback_panic` stores the payload and fails the callback. */
    method CatchPanic() returns (code: int)
      requires Valid() && worker.Sending?
      modifies this
      ensures Valid() && View() == Step(old(View()), PanicInCallback) && code == -1
    {
      StepKeeps(View(), PanicInCallback);
      callbackPanic := true;
      worker := Polling(true);
      code := -1;
    }

    // ----- the worker -----

    /** `try_send` on the terminal channel, its result ignored. */
    method TrySendTerminal(t: Terminal, disconnected: bool)
      requires disconnected == handle.Dead?
      modifies this`terminal, this`log
      ensures View() == SendTerminal(old(View()), t)
    {
      log := log.(sent := log.sent + [t]);
      if disconnected {
      } else if |terminal| >= TERMINAL_SLOTS {
        log := log.(refused := true);
      } else {
        terminal := terminal + [t];
      }
    }

    method TakePanic(ok: bool) returns (panicked: bool)
      requires Valid() && worker == Polled(ok)
      modifies this
      ensures Valid() && View() == Step(old(View()), Action.TakePanic)
      ensures panicked == old(callbackPanic)
    {
      StepKeeps(View(), Action.TakePanic);
      panicked := callbackPanic;
      callbackPanic := false;
      worker := if panicked then LossBeforePanic else if ok then AtLoop else FailedPoll;
    }

    /** The pending notice goes ahead of the panic, and is cleared with the same access. */
    method ReportLossBeforePanic(disconnected: bool)
      requires Valid() && worker.LossBeforePanic? && disconnected == handle.Dead?
      modifies this
      ensures Valid() && View() == Step(old(View()), Action.ReportLossBeforePanic)
    {
      StepKeeps(View(), Action.ReportLossBeforePanic);
      var owed := outputFullPending;
      if owed { TrySendTerminal(QueueFull, disconnected); }
      outputFullPending := false;
      worker := ReportingPanic;
    }

    method ReportPanic(disconnected: bool)
      requires Valid() && worker.ReportingPanic? && disconnected == handle.Dead?
      modifies this
      ensures Valid() && View() == Step(old(View()), Action.ReportPanic)
    {
      ghost var s := View();
      StepKeeps(s, Action.ReportPanic);
      TrySendTerminal(WorkerPanic, disconnected);
      worker := Leaving;
      assert View() == Step(s, Action.ReportPanic);
    }

    /** A failed poll is reported only while the collector is still wanted. */
    method ReloadRunning() returns (wanted: bool)
      requires Valid() && worker.FailedPoll?
      modifies this
      ensures Valid() && View() == Step(old(View()), Action.ReloadRunning) && wanted == running
    {
      StepKeeps(View(), Action.ReloadRunning);
      wanted := running;
      worker := if running then LossBeforeFailure else Leaving;
    }

    method ReportLossBeforeFailure(disconnected: bool)
      requires Valid() && worker.LossBeforeFailure? && disconnected == handle.Dead?
      modifies this
      ensures Valid() && View() == Step(old(View()), Action.ReportLossBeforeFailure)
    {
      StepKeeps(View(), Action.ReportLossBeforeFailure);
      if outputFullPending { TrySendTerminal(QueueFull, disconnected); }
      worker := ReportingFailure;
    }

    method ReportFailure(disconnected: bool)
      requires Valid() && worker.ReportingFailure? && disconnected == handle.Dead?
      modifies this
      ensures Valid() && View() == Step(old(View()), Action.ReportFailure)
    {
      ghost var s := View();
      StepKeeps(s, Action.ReportFailure);
      TrySendTerminal(PollFailure, disconnected);
      worker := Leaving;
      assert View() == Step(s, Action.ReportFailure);
    }

    /** What `run_with` does with a panic that left the worker function. */
    method ReportUncaught(disconnected: bool)
      requires Valid() && worker.Unwinding? && disconnected == handle.Dead?
      modifies this
      ensures Valid() && View() == Step(old(View()), Action.ReportUncaught)
    {
      ghost var s := View();
      StepKeeps(s, Action.ReportUncaught);
      TrySendTerminal(WorkerPanic, disconnected);
      worker := Dropping;
      assert View() == Step(s, Action.ReportUncaught);
    }

    // ----- the consumer -----

    /** Splits a paired entry: the notice now, its delivery next. */
    method Unpair(entry: Entry) returns (o: Outcome)
      requires pendingDelivery.None?
      modifies this`pendingDelivery
      ensures o == if entry.outputFullBefore then Notice else Item(entry.delivery)
      ensures pendingDelivery == if entry.outputFullBefore then Some(entry.delivery) else None
    {
      if entry.outputFullBefore {
        pendingDelivery := Some(entry.delivery);
        o := Notice;
      } else {
        o := Item(entry.delivery);
      }
    }

    /** The pending slot, then the delivery queue. */
    method TakeDelivery() returns (o: Option<Outcome>)
      modifies this`queue, this`pendingDelivery
      ensures o == DeliveryOutcome(old(pendingDelivery), old(queue))
      ensures pendingDelivery == NextPending(old(pendingDelivery), old(queue))
      ensures queue == NextQueue(old(pendingDelivery), old(queue))
    {
      if pendingDelivery.Some? {
        o := Some(Item(pendingDelivery.value));
        pendingDelivery := None;
      } else if queue != [] {
        var entry := queue[0];
        queue := queue[1..];
        var first := Unpair(entry);
        o := Some(first);
      } else {
        o := None;
      }
    }

    /** Logs what a receive found, or moves it on to the terminal channel. */
    ghost method LogDelivery(o: Option<Outcome>)
      modifies this`log, this`consumer
      ensures o.Some? ==> log == old(log).(outcomes := old(log).outcomes + [o.value]) && consumer == old(consumer)
      ensures o.None? ==> log == old(log) && consumer == AtTerminal(|log.attempts|)
    {
      if o.Some? {
        log := log.(outcomes := log.outcomes + [o.value]);
      } else {
        consumer := AtTerminal(|log.attempts|);
      }
    }

    method ReceiveNext() returns (o: Option<Outcome>)
      requires Enabled(View(), Action.ReadDeliveries)
      modifies this
      ensures View() == ReceiveDelivery(old(View()))
      ensures o == DeliveryOutcome(old(pendingDelivery), old(queue))
    {
      o := TakeDelivery();
      LogDelivery(o);
    }

    /** The first half of `try_recv` and `recv_timeout`. */
    method ReadDeliveries() returns (o: Option<Outcome>)
      requires Valid() && Enabled(View(), Action.ReadDeliveries)
      modifies this
      ensures Valid() && View() == Step(old(View()), Action.ReadDeliveries)
      ensures o == DeliveryOutcome(old(pendingDelivery), old(queue))
    {
      ghost var s := View();
      StepKeeps(s, Action.ReadDeliveries);
      o := ReceiveNext();
      assert View() == Step(s, Action.ReadDeliveries);
    }

    /** A terminal error, the stop of a worker that is gone, or nothing yet. */
    method TakeTerminal(disconnected: bool) returns (o: Outcome)
      requires disconnected == worker.Gone?
      modifies this`terminal
      ensures o == TerminalOutcome(old(terminal), worker)
      ensures terminal == if old(terminal) == [] then [] else old(terminal)[1..]
    {
      if terminal != [] {
        o := Failed(terminal[0]);
        terminal := terminal[1..];
      } else if disconnected {
        o := Stopped;
      } else {
        o := NotReady;
      }
    }

    method ReceiveStatus(disconnected: bool) returns (o: Outcome)
      requires disconnected == worker.Gone?
      modifies this
      ensures View() == ReceiveTerminal(old(View()))
      ensures o == TerminalOutcome(old(terminal), old(worker))
    {
      o := TakeTerminal(disconnected);
      consumer := Idle;
      log := log.(outcomes := log.outcomes + [o]);
    }

    /** The second half. */
    method ReadTerminal(disconnected: bool) returns (o: Outcome)
      requires Valid() && Enabled(View(), Action.ReadTerminal) && disconnected == worker.Gone?
      modifies this
      ensures Valid() && View() == Step(old(View()), Action.ReadTerminal)
      ensures o == TerminalOutcome(old(terminal), old(worker))
    {
      ghost var s := View();
      StepKeeps(s, Action.ReadTerminal);
      o := ReceiveStatus(disconnected);
      assert View() == Step(s, Action.ReadTerminal);
    }

    /** Dropping the collector stops the worker at its next look. */
    method Close()
      requires Valid() && Enabled(View(), Action.Close)
      modifies this
      ensures Valid() && View() == Step(old(View()), Action.Close) && !running
    {
      StepKeeps(View(), Action.Close);
      running := false;
      handle := Closing;
    }
  }
}
