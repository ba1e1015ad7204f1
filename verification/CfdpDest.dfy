/**
 The destination side of a file delivery while it waits for the acknowledgement of its Finished PDU
 (sections 4.7.1 and 4.8 of CCSDS 727.0-B-5).
 */
module CfdpDest {
  import opened Octets

  datatype FaultHandler = Cancellation | Suspension | IgnoreError | Abandon
  datatype Disposition = Completed | Canceled

  /** Recursing: the state machine calls itself with nothing changed and does not return. */
  datatype TransactionStep = Idle | TransferCompletion | WaitingForFinishedAck | Recursing

  datatype Event = Cycle(timedOut: bool) | FinishedAck

  /** `sent` lists the Finished PDUs queued so far, each with the disposition it was made under. */
  datatype Wait = Wait(
    limit: int,
    handler: FaultHandler,
    counter: nat,
    disposition: Disposition,
    step: TransactionStep,
    sent: seq<Disposition>,
    faults: nat)

  function Started(limit: int, handler: FaultHandler, disposition: Disposition): Wait
  {
    Wait(limit, handler, 0, disposition, WaitingForFinishedAck, [disposition], 0)
  }

  /** The transaction's parameters are dropped and the handler is idle. */
  function Reset(w: Wait): Wait
  {
    w.(counter := 0, disposition := Completed, step := Idle)
  }

  function Step(w: Wait, e: Event): Wait
  {
    if w.step != WaitingForFinishedAck then w
    else match e
      case FinishedAck => Reset(w)
      case Cycle(false) => w
      case Cycle(true) =>
        if w.counter + 1 >= w.limit then LimitReached(w.(faults := w.faults + 1))
        else w.(counter := w.counter + 1, sent := w.sent + [w.disposition])
  }

  function LimitReached(w: Wait): Wait
  {
    match w.handler
    case Cancellation =>
      if w.disposition == Canceled then Reset(w)
      else w.(counter := 0, disposition := Canceled, sent := w.sent + [Canceled])
    case Abandon => Reset(w)
    case _ => if w.disposition == Canceled then w.(step := Recursing) else w
  }

  function Run(w: Wait, events: seq<Event>): Wait
  {
    if events == [] then w else Step(Run(w, events[..|events| - 1]), events[|events| - 1])
  }

  // ----- the closed form -----

  predicate Acked(events: seq<Event>)
  {
    FinishedAck in events
  }

  /** The timer expiries seen before the first acknowledgement. */
  function Expiries(events: seq<Event>): nat
  {
    if events == [] then 0
    else
      var before := events[..|events| - 1];
      Expiries(before) + if events[|events| - 1] == Cycle(true) && !Acked(before) then 1 else 0
  }

  function AtLeastOne(limit: int): nat
  {
    if limit >= 1 then limit else 1
  }

  function Min(a: int, b: int): int
  {
    if a < b then a else b
  }

  function Copies(d: Disposition, n: nat): seq<Disposition>
  {
    seq(n, _ => d)
  }

  /** How many timer expiries the wait takes, and none when it does not end by itself. */
  predicate Ends(handler: FaultHandler, disposition: Disposition, limit: int, expiries: nat)
  {
    match handler
    case Cancellation => expiries >= AtLeastOne(limit) * (if disposition == Completed then 2 else 1)
    case Abandon => expiries >= AtLeastOne(limit)
    case _ => false
  }

  predicate Recurses(handler: FaultHandler, disposition: Disposition, limit: int, expiries: nat)
  {
    (handler.Suspension? || handler.IgnoreError?) && disposition == Canceled && expiries >= AtLeastOne(limit)
  }

  function StepAfter(handler: FaultHandler, disposition: Disposition, limit: int, expiries: nat): TransactionStep
  {
    if Ends(handler, disposition, limit, expiries) then Idle
    else if Recurses(handler, disposition, limit, expiries) then Recursing
    else WaitingForFinishedAck
  }

  /** The Finished PDUs sent when no acknowledgement comes. */
  function SentAfter(handler: FaultHandler, disposition: Disposition, limit: int, expiries: nat): seq<Disposition>
  {
    var l := AtLeastOne(limit);
    Copies(disposition, Min(1 + expiries, l)) +
    if handler.Cancellation? && disposition == Completed && expiries >= l
    then Copies(Canceled, Min(1 + expiries - l, l)) else []
  }

  /** The state after some expiries with no acknowledgement. */
  ghost predicate Describes(w: Wait, handler: FaultHandler, disposition: Disposition, limit: int, expiries: nat)
  {
    && w.handler == handler && w.limit == limit
    && w.step == StepAfter(handler, disposition, limit, expiries)
    && w.sent == SentAfter(handler, disposition, limit, expiries)
    && (w.step == WaitingForFinishedAck ==>
          var l := AtLeastOne(limit);
          if handler.Cancellation? && disposition == Completed && expiries >= l
          then w.disposition == Canceled && w.counter == expiries - l
          else w.disposition == disposition && w.counter == Min(expiries, l - 1))
  }

  lemma Expire(w: Wait, handler: FaultHandler, disposition: Disposition, limit: int, expiries: nat)
    requires Describes(w, handler, disposition, limit, expiries)
    ensures Describes(Step(w, Cycle(true)), handler, disposition, limit, expiries + 1)
  {
    var l := AtLeastOne(limit);
    MoreCopies(disposition, Min(1 + expiries, l));
    if expiries + 1 >= l {
      MoreCopies(Canceled, Min(1 + expiries - l, l));
    }
  }

  lemma MoreCopies(d: Disposition, n: int)
    ensures n >= 0 ==> Copies(d, n + 1) == Copies(d, n) + [d]
  {
  }

  /** Every run: the expiries before the first acknowledgement fix what was sent and where it stands. */
  lemma {:induction false} RunDescribed(limit: int, handler: FaultHandler, disposition: Disposition, events: seq<Event>)
    ensures var w := Run(Started(limit, handler, disposition), events);
      if Acked(events) && !Recurses(handler, disposition, limit, Expiries(events))
      then w.step == Idle && w.sent == SentAfter(handler, disposition, limit, Expiries(events)) &&
           w.handler == handler && w.limit == limit
      else Describes(w, handler, disposition, limit, Expiries(events))
  {
    hide SentAfter, AtLeastOne, Started, LimitReached, Ends, Copies;
    if events == [] {
      StartDescribed(limit, handler, disposition);
    } else {
      var before, e := events[..|events| - 1], events[|events| - 1];
      RunDescribed(limit, handler, disposition, before);
      assert events == before + [e];
      if e == Cycle(true) && !Acked(before) {
        Expire(Run(Started(limit, handler, disposition), before), handler, disposition, limit, Expiries(before));
      }
    }
  }

  lemma StartDescribed(limit: int, handler: FaultHandler, disposition: Disposition)
    ensures Describes(Started(limit, handler, disposition), handler, disposition, limit, 0)
  {
    assert Copies(disposition, 1) == [disposition];
  }

  /**
   Retries stop: with the cancellation handler, a wait that began with a completed delivery and got
   no acknowledgement has sent at most twice the limit of Finished PDUs, exactly that many once the
   timer has expired as often, and is idle from then on and not before.
   */
  lemma CancellationStops(limit: int, events: seq<Event>)
    requires limit >= 1 && !Acked(events)
    ensures var w := Run(Started(limit, Cancellation, Completed), events);
      (w.step == Idle <==> Expiries(events) >= 2 * limit) &&
      |w.sent| == Min(1 + Expiries(events), 2 * limit) &&
      (w.step == Idle ==> w.sent == Copies(Completed, limit) + Copies(Canceled, limit))
  {
    hide Run, Started, Expiries, Acked, SentAfter, StepAfter, Copies;
    RunDescribed(limit, Cancellation, Completed, events);
    CancellationSent(limit, Expiries(events));
  }

  lemma CancellationSent(limit: int, expiries: nat)
    requires limit >= 1
    ensures var sent := SentAfter(Cancellation, Completed, limit, expiries);
      |sent| == Min(1 + expiries, 2 * limit) &&
      (expiries >= 2 * limit ==> sent == Copies(Completed, limit) + Copies(Canceled, limit))
    ensures StepAfter(Cancellation, Completed, limit, expiries) == Idle <==> expiries >= 2 * limit
  {
  }

  /** With any handler: the wait is over exactly when it was acknowledged in time or has run out. */
  lemma WaitEndsIff(limit: int, handler: FaultHandler, disposition: Disposition, events: seq<Event>)
    ensures var w := Run(Started(limit, handler, disposition), events);
      w.step == Idle <==>
        !Recurses(handler, disposition, limit, Expiries(events)) &&
        (Acked(events) || Ends(handler, disposition, limit, Expiries(events)))
  {
    RunDescribed(limit, handler, disposition, events);
  }

  /** The Finished PDUs of every run are bounded, and none follows once the handler is idle. */
  lemma FinishedBounded(limit: int, handler: FaultHandler, disposition: Disposition,
                        events: seq<Event>, more: seq<Event>)
    ensures var w := Run(Started(limit, handler, disposition), events);
      |w.sent| <= 2 * AtLeastOne(limit) &&
      (w.step == Idle ==> Run(Started(limit, handler, disposition), events + more) == w)
  {
    RunDescribed(limit, handler, disposition, events);
    if Run(Started(limit, handler, disposition), events).step == Idle {
      IdleStays(Started(limit, handler, disposition), events, more);
    }
  }

  lemma {:induction false} IdleStays(w: Wait, events: seq<Event>, more: seq<Event>)
    requires Run(w, events).step == Idle
    ensures Run(w, events + more) == Run(w, events)
  {
    if more == [] {
      assert events + more == events;
    } else {
      IdleStays(w, events, more[..|more| - 1]);
      assert (events + more)[..|events + more| - 1] == events + more[..|more| - 1];
    }
  }

  /** A wait that is over leaves nothing behind for the next transaction. */
  lemma {:induction false} EndsFresh(limit: int, handler: FaultHandler, disposition: Disposition, events: seq<Event>)
    ensures var w := Run(Started(limit, handler, disposition), events);
      w.limit == limit && w.handler == handler &&
      (w.step == Idle ==> w.counter == 0 && w.disposition == Completed)
  {
    if events == [] {
    } else {
      EndsFresh(limit, handler, disposition, events[..|events| - 1]);
    }
  }

  // ----- activations of the state machine -----

  /** What one activation leaves: whether the timer still reads as expired, and whether it calls itself again. */
  datatype Activation = Activation(w: Wait, timedOut: bool, again: bool)

  function Declared(w: Wait): Wait
  {
    match w.handler
    case Cancellation =>
      if w.disposition == Canceled then Reset(w) else w.(disposition := Canceled, step := TransferCompletion)
    case Abandon => Reset(w)
    case _ => w
  }

  /** Completing a transfer restarts the timer; reaching the limit does not. */
  function Activate(w: Wait, timedOut: bool): Activation
  {
    if w.step == TransferCompletion then
      Activation(w.(counter := 0, step := WaitingForFinishedAck, sent := w.sent + [w.disposition]), false, false)
    else if w.step != WaitingForFinishedAck || !timedOut then Activation(w, timedOut, false)
    else if w.counter + 1 >= w.limit then
      var d := Declared(w.(faults := w.faults + 1));
      Activation(d, true, d.disposition == Canceled)
    else Activation(w.(counter := w.counter + 1, sent := w.sent + [w.disposition]), false, false)
  }

  /** The state once the call has come back, if it does within n calls of itself. */
  function CallsFor(w: Wait, timedOut: bool, n: nat): Option<Wait>
    decreases n
  {
    var a := Activate(w, timedOut);
    if !a.again then Some(a.w) else if n == 0 then None else CallsFor(a.w, a.timedOut, n - 1)
  }

  /** The limit is reached again after a cancellation, under a handler that changes nothing. */
  predicate Stuck(w: Wait, timedOut: bool)
  {
    timedOut && w.counter + 1 >= w.limit && w.disposition == Canceled &&
    (w.handler.Suspension? || w.handler.IgnoreError?)
  }

  /** One cycle of the wait comes back exactly unless it is stuck, and then leaves the state Step says. */
  lemma CycleReturnsIff(w: Wait, timedOut: bool)
    requires w.step == WaitingForFinishedAck
    ensures (exists n: nat :: CallsFor(w, timedOut, n).Some?) <==> !Stuck(w, timedOut)
    ensures !Stuck(w, timedOut) ==>
              CallsFor(w, timedOut, 1) == Some(Step(w, Cycle(timedOut))) && Step(w, Cycle(timedOut)).step != Recursing
  {
    if Stuck(w, timedOut) {
      forall n: nat
        ensures CallsFor(w, timedOut, n).None?
      {
        RecursesForever(w, n);
      }
    } else {
      OneCallAtMost(w, timedOut);
    }
  }

  lemma OneCallAtMost(w: Wait, timedOut: bool)
    requires w.step == WaitingForFinishedAck && !Stuck(w, timedOut)
    ensures CallsFor(w, timedOut, 1) == Some(Step(w, Cycle(timedOut))) && Step(w, Cycle(timedOut)).step != Recursing
  {
    var a := Activate(w, timedOut);
    if a.again {
      assert CallsFor(w, timedOut, 1) == CallsFor(a.w, a.timedOut, 0);
    }
  }

  lemma {:induction false} RecursesForever(w: Wait, n: nat)
    requires w.step == WaitingForFinishedAck && Stuck(w, true)
    ensures CallsFor(w, true, n).None?
    decreases n
  {
    if n == 0 {
    } else {
      RecursesForever(w.(faults := w.faults + 1), n - 1);
    }
  }

  // ----- the handler -----

  class FixedDestHandler {
    const limit: int
    const handler: FaultHandler
    var counter: nat
    var disposition: Disposition
    var step: TransactionStep
    var sent: seq<Disposition>
    var faults: nat

    function View(): Wait
      reads this
    {
      Wait(limit, handler, counter, disposition, step, sent, faults)
    }

    constructor (limit: int, handler: FaultHandler, disposition: Disposition)
      ensures View() == Started(limit, handler, disposition)
    {
      this.limit, this.handler, this.disposition := limit, handler, disposition;
      counter, step, sent, faults := 0, WaitingForFinishedAck, [disposition], 0;
    }

    /** For every call that comes back: see CycleReturnsIff. */
    method HandlePositiveAckProcedures(timedOut: bool)
      requires step == WaitingForFinishedAck
      requires !Stuck(View(), timedOut)
      modifies this
      ensures View() == Step(old(View()), Cycle(timedOut))
    {
      if timedOut {
        if counter + 1 >= limit {
          var fh := DeclareFault();
          if disposition == Canceled {
            StateMachine();
          }
        } else {
          counter := counter + 1;
          PrepareFinishedPdu();
        }
      }
    }

    /** A second cancellation of the same transaction abandons it instead. */
    method DeclareFault() returns (fh: FaultHandler)
      modifies this
      ensures fh == if handler.Cancellation? && old(disposition) == Canceled then Abandon else handler
      ensures faults == old(faults) + 1 && sent == old(sent)
      ensures View() ==
              var w := old(View()).(faults := old(faults) + 1);
              if fh.Cancellation? then w.(disposition := Canceled, step := TransferCompletion)
              else if fh.Abandon? then Reset(w) else w
    {
      fh := handler;
      if fh == Cancellation {
        if disposition == Canceled {
          fh := Abandon;
          AbandonTransaction();
        } else {
          NoticeOfCancellation();
        }
      } else if fh == Abandon {
        AbandonTransaction();
      }
      faults := faults + 1;
    }

    method AbandonTransaction()
      modifies this
      ensures View() == Reset(old(View()))
    {
      counter, disposition, step := 0, Completed, Idle;
    }

    method NoticeOfCancellation()
      modifies this
      ensures View() == old(View()).(disposition := Canceled, step := TransferCompletion)
    {
      disposition, step := Canceled, TransferCompletion;
    }

    method PrepareFinishedPdu()
      modifies this`sent
      ensures sent == old(sent) + [disposition]
    {
      sent := sent + [disposition];
    }

    /** The cycle that completes a transfer sends its Finished PDU and starts the wait afresh. */
    method StateMachine()
      requires step == TransferCompletion
      modifies this
      ensures View() == old(View()).(counter := 0, step := WaitingForFinishedAck, sent := old(sent) + [disposition])
    {
      PrepareFinishedPdu();
      counter, step := 0, WaitingForFinishedAck;
    }

    method HandleFinishedAck()
      requires step == WaitingForFinishedAck
      modifies this
      ensures View() == Step(old(View()), FinishedAck)
    {
      AbandonTransaction();
    }
  }
}
