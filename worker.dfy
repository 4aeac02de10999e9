/** The loop each worker thread runs: check for a pending Terminate, run
    one transfer step, and accumulate the batch sizes until a Terminate is
    observed, a step fails, or a step fetches nothing. The thread, its
    channel and the transport are replaced by a sequence of iterations:
    whether a Terminate is pending at the top of the iteration, and what the
    service would answer to that iteration's step if it ran. */
module Worker {
  import opened Transport
  import opened Step

  datatype Iteration = Iteration(terminatePending: bool, responses: Responses)

  /** An iteration seen through the loop: the pending signal and the step's result. */
  datatype Event = Event(terminatePending: bool, outcome: Result<nat>)

  function Events(destination: string, iterations: seq<Iteration>): seq<Event> {
    seq(|iterations|, i requires 0 <= i < |iterations| =>
      Event(iterations[i].terminatePending, StepResult(destination, iterations[i].responses)))
  }

  /** The loop ends at this iteration. */
  predicate Stops(e: Event) {
    e.terminatePending || e.outcome.Err? || e.outcome.value == 0
  }

  /** Some iteration ends the loop: the runs this model covers. */
  predicate Terminates(events: seq<Event>) {
    exists k :: 0 <= k < |events| && Stops(events[k])
  }

  /** The iteration at which the loop ends. */
  function FirstStop(events: seq<Event>): (k: nat)
    requires Terminates(events)
    ensures k < |events| && Stops(events[k])
    ensures forall i :: 0 <= i < k ==> !Stops(events[i])
    decreases |events|
  {
    if Stops(events[0]) then 0
    else
      TerminatesTail(events);
      1 + FirstStop(events[1..])
  }

  lemma TerminatesTail(events: seq<Event>)
    requires Terminates(events) && !Stops(events[0])
    ensures Terminates(events[1..])
  {
    var k :| 0 <= k < |events| && Stops(events[k]);
    assert Stops(events[1..][k - 1]);
  }

  /** What an iteration adds to the count when it does not stop the loop. */
  function BatchSize(e: Event): nat {
    if e.outcome.Ok? then e.outcome.value else 0
  }

  function Accumulated(events: seq<Event>): nat {
    if events == [] then 0 else Accumulated(events[..|events| - 1]) + BatchSize(events[|events| - 1])
  }

  /** The count the worker returns: the batch sizes of the iterations before the stop. */
  function WorkerTotal(events: seq<Event>): nat
    requires Terminates(events)
  {
    Accumulated(events[..FirstStop(events)])
  }

  /** The number of transfer steps the worker runs: one per iteration up to
      the stop, and one more unless the stop is an observed Terminate. */
  function StepsRun(events: seq<Event>): nat
    requires Terminates(events)
  {
    var k := FirstStop(events);
    if events[k].terminatePending then k else k + 1
  }

  /** The closure passed to `thread::spawn`: returns the count and the
      number of transfer steps it ran. */
  method RunWorker(source: string, destination: string, iterations: seq<Iteration>)
    returns (count: nat, steps: nat)
    requires Terminates(Events(destination, iterations))
    ensures count == WorkerTotal(Events(destination, iterations))
    ensures steps == StepsRun(Events(destination, iterations))
  {
    ghost var events := Events(destination, iterations);
    ghost var k := FirstStop(events);
    count, steps := 0, 0;
    var i := 0;
    while true
      invariant 0 <= i <= k
      invariant steps == i
      invariant count == Accumulated(events[..i])
      decreases k - i
    {
      assert events[i] == Event(iterations[i].terminatePending, StepResult(destination, iterations[i].responses));
      if iterations[i].terminatePending {
        break;
      }
      steps := steps + 1;
      var outcome, _ := TransferMessage(source, destination, iterations[i].responses);
      match outcome
      case Err(_) =>
        break;
      case Ok(n) =>
        if n <= 0 {
          break;
        }
        assert events[..i + 1][..i] == events[..i];
        count := count + n;
        i := i + 1;
    }
  }

  /** An independent, iteration-by-iteration reading of the loop. */
  function Drain(events: seq<Event>): nat {
    if events == [] || Stops(events[0]) then 0 else BatchSize(events[0]) + Drain(events[1..])
  }

  lemma {:induction false} AccumulatedCons(e: Event, events: seq<Event>)
    ensures Accumulated([e] + events) == BatchSize(e) + Accumulated(events)
    decreases |events|
  {
    if events != [] {
      var last := |events| - 1;
      assert ([e] + events)[..|events|] == [e] + events[..last];
      AccumulatedCons(e, events[..last]);
    } else {
      assert [e] + events == [e];
      assert [e][..0] == [];
    }
  }

  /** The worker's count agrees with the iteration-by-iteration reading. */
  lemma {:induction false} WorkerTotalIsDrain(events: seq<Event>)
    requires Terminates(events)
    ensures WorkerTotal(events) == Drain(events)
    decreases |events|
  {
    if Stops(events[0]) {
      assert events[..0] == [];
    } else {
      var rest := events[1..];
      TerminatesTail(events);
      WorkerTotalIsDrain(rest);
      var k := FirstStop(events);
      assert FirstStop(rest) == k - 1 by {
        assert forall i :: 0 <= i < k - 1 ==> !Stops(rest[i]) by {
          forall i | 0 <= i < k - 1 ensures !Stops(rest[i]) {
            assert rest[i] == events[i + 1];
          }
        }
        assert Stops(rest[k - 1]);
      }
      assert events[..k] == [events[0]] + rest[..k - 1];
      AccumulatedCons(events[0], rest[..k - 1]);
    }
  }

  /** Events after the stop are never consulted: no step runs after it and
      it adds nothing to the count. */
  lemma NothingAfterStop(events: seq<Event>, later: seq<Event>)
    requires Terminates(events)
    ensures Terminates(events + later)
    ensures FirstStop(events + later) == FirstStop(events)
    ensures WorkerTotal(events + later) == WorkerTotal(events)
    ensures StepsRun(events + later) == StepsRun(events)
  {
    var k := FirstStop(events);
    assert (events + later)[k] == events[k];
    assert forall i :: 0 <= i < k ==> (events + later)[i] == events[i];
    FirstStopUnique(events + later, k);
    assert (events + later)[..k] == events[..k];
  }

  /** The first stopping iteration is the only index with both properties. */
  lemma FirstStopUnique(events: seq<Event>, k: nat)
    requires k < |events| && Stops(events[k])
    requires forall i :: 0 <= i < k ==> !Stops(events[i])
    ensures Terminates(events) && FirstStop(events) == k
  {
  }

  /** A Terminate pending before the first iteration stops the worker before any step. */
  lemma TerminateFirst(events: seq<Event>)
    requires |events| > 0 && events[0].terminatePending
    ensures Terminates(events) && WorkerTotal(events) == 0 && StepsRun(events) == 0
  {
    assert Stops(events[0]);
    assert events[..0] == [];
  }

  /** With every batch at most `max` long, a worker's count is at most
      `max` messages per step run. */
  lemma {:induction false} TotalBoundedBySteps(events: seq<Event>, max: nat)
    requires Terminates(events)
    requires forall i :: 0 <= i < |events| ==> BatchSize(events[i]) <= max
    ensures WorkerTotal(events) <= max * StepsRun(events)
  {
    var k := FirstStop(events);
    AccumulatedBound(events[..k], max);
  }

  lemma {:induction false} AccumulatedBound(events: seq<Event>, max: nat)
    requires forall i :: 0 <= i < |events| ==> BatchSize(events[i]) <= max
    ensures Accumulated(events) <= max * |events|
    decreases |events|
  {
    if events != [] {
      AccumulatedBound(events[..|events| - 1], max);
    }
  }
}
