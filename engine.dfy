/** The transfer engine: one worker per thread, a join handle per worker
    kept as an optional result, and a Terminate channel per worker. Threads
    are not modelled: each worker's loop is run to completion when it is
    spawned, and its join handle holds the count it returns. */
module Engine {
  import opened Transport
  import opened Worker

  /** The sum of the results still held in the handle slots. */
  function SumPresent(slots: seq<Option<nat>>): nat {
    if slots == [] then 0
    else SumPresent(slots[..|slots| - 1]) + slots[|slots| - 1].GetOr(0)
  }

  predicate AllTerminate(destination: string, runs: seq<seq<Iteration>>) {
    forall i :: 0 <= i < |runs| ==> Terminates(Events(destination, runs[i]))
  }

  /** The sum of the counts of all workers. */
  function TotalOf(destination: string, runs: seq<seq<Iteration>>): nat
    requires AllTerminate(destination, runs)
  {
    if runs == [] then 0
    else TotalOf(destination, runs[..|runs| - 1]) + WorkerTotal(Events(destination, runs[|runs| - 1]))
  }

  lemma {:induction false} SumPresentOfEmpty(slots: seq<Option<nat>>)
    requires forall i :: 0 <= i < |slots| ==> slots[i].None?
    ensures SumPresent(slots) == 0
  {
    if slots != [] {
      SumPresentOfEmpty(slots[..|slots| - 1]);
    }
  }

  lemma {:induction false} SumPresentOfTotals(slots: seq<Option<nat>>, destination: string, runs: seq<seq<Iteration>>)
    requires AllTerminate(destination, runs) && |slots| == |runs|
    requires forall i :: 0 <= i < |runs| ==> slots[i] == Some(WorkerTotal(Events(destination, runs[i])))
    ensures SumPresent(slots) == TotalOf(destination, runs)
  {
    if runs != [] {
      SumPresentOfTotals(slots[..|slots| - 1], destination, runs[..|runs| - 1]);
    }
  }

  /** `Transferer`: the join handles and the Terminate senders. */
  class Transferer {
    /** One slot per worker; `Some(n)` until the worker is joined. */
    var handles: array<Option<nat>>
    /** Whether a Terminate has been delivered to worker `i`'s channel. */
    var senders: array<bool>

    /** Every worker has exactly one slot and one Terminate sender. */
    ghost predicate Valid()
      reads this
    {
      handles.Length == senders.Length
    }

    /** `Transferer::new`: spawns `threads` workers, all moving messages from
        `source` to `destination`, worker `i` going through `runs[i]`. */
    constructor (source: string, destination: string, threads: nat, runs: seq<seq<Iteration>>)
      requires |runs| == threads && AllTerminate(destination, runs)
      ensures Valid() && fresh(handles) && fresh(senders)
      ensures handles.Length == threads
      ensures forall i :: 0 <= i < threads ==> handles[i] == Some(WorkerTotal(Events(destination, runs[i])))
      ensures forall i :: 0 <= i < threads ==> !senders[i]
      ensures SumPresent(handles[..]) == TotalOf(destination, runs)
    {
      var slots := new Option<nat>[threads](_ => None);
      var channels := new bool[threads](_ => false);
      for i := 0 to threads
        invariant forall j :: 0 <= j < i ==> slots[j] == Some(WorkerTotal(Events(destination, runs[j])))
        invariant forall j :: 0 <= j < threads ==> !channels[j]
      {
        var count, _ := RunWorker(source, destination, runs[i]);
        slots[i] := Some(count);
      }
      handles, senders := slots, channels;
      new;
      SumPresentOfTotals(handles[..], destination, runs);
    }

    /** `execute`: takes every slot, joins the worker found there and sums the results. */
    method Execute() returns (total: nat)
      requires Valid()
      modifies handles
      ensures Valid()
      ensures total == SumPresent(old(handles[..]))
      ensures forall i :: 0 <= i < handles.Length ==> handles[i].None?
    {
      total := 0;
      for i := 0 to handles.Length
        invariant total == SumPresent(old(handles[..])[..i])
        invariant forall j :: 0 <= j < i ==> handles[j].None?
        invariant forall j :: i <= j < handles.Length ==> handles[j] == old(handles[j])
      {
        var slot := handles[i];
        handles[i] := None;
        assert old(handles[..])[..i + 1][..i] == old(handles[..])[..i];
        match slot
        case Some(n) =>
          total := total + n;
        case None =>
      }
      assert old(handles[..])[..handles.Length] == old(handles[..]);
    }

    /** `drop`: sends Terminate to every worker, ignoring a failed send (the
        worker's receiver is gone when `receiverAlive[i]` is false), then
        joins every worker still held; `joined` holds the slots it joined. */
    method Drop(receiverAlive: seq<bool>) returns (joined: set<nat>)
      requires Valid() && |receiverAlive| == handles.Length
      modifies handles, senders
      ensures Valid()
      ensures forall i :: 0 <= i < senders.Length ==> senders[i] == (old(senders[i]) || receiverAlive[i])
      ensures forall i :: 0 <= i < handles.Length ==> handles[i].None?
      ensures joined == set i | 0 <= i < handles.Length && old(handles[i]).Some?
    {
      for i := 0 to senders.Length
        invariant forall j :: 0 <= j < i ==> senders[j] == (old(senders[j]) || receiverAlive[j])
        invariant forall j :: i <= j < senders.Length ==> senders[j] == old(senders[j])
        invariant forall j :: 0 <= j < handles.Length ==> handles[j] == old(handles[j])
      {
        if receiverAlive[i] {
          senders[i] := true;
        }
      }
      joined := {};
      for i := 0 to handles.Length
        invariant forall j :: 0 <= j < i ==> handles[j].None?
        invariant forall j :: i <= j < handles.Length ==> handles[j] == old(handles[j])
        invariant forall j :: 0 <= j < senders.Length ==> senders[j] == (old(senders[j]) || receiverAlive[j])
        invariant joined == set j | 0 <= j < i && old(handles[j]).Some?
      {
        var slot := handles[i];
        handles[i] := None;
        if slot.Some? {
          joined := joined + {i};
        }
      }
    }
  }

  /** `run`: builds the engine, executes it and drops it at the end of the
      scope. Every worker has been joined by then, so each Terminate send fails. */
  method Run(source: string, destination: string, threads: nat, runs: seq<seq<Iteration>>)
    returns (count: nat)
    requires |runs| == threads && AllTerminate(destination, runs)
    ensures count == TotalOf(destination, runs)
  {
    var transferer := new Transferer(source, destination, threads, runs);
    count := transferer.Execute();
    var _ := transferer.Drop(seq(threads, _ => false));
  }

  /** Dropping after `execute` joins nothing further: every worker was
      joined by `execute`. */
  method ExecuteThenDrop(source: string, destination: string, threads: nat, runs: seq<seq<Iteration>>)
    returns (count: nat, joined: set<nat>)
    requires |runs| == threads && AllTerminate(destination, runs)
    ensures count == TotalOf(destination, runs) && joined == {}
  {
    var transferer := new Transferer(source, destination, threads, runs);
    count := transferer.Execute();
    joined := transferer.Drop(seq(threads, _ => false));
  }

  /** Dropping without `execute` joins every worker, once each. */
  method DropWithoutExecute(source: string, destination: string, threads: nat, runs: seq<seq<Iteration>>)
    returns (joined: set<nat>)
    requires |runs| == threads && AllTerminate(destination, runs)
    ensures forall i: nat :: i in joined <==> i < threads
  {
    var transferer := new Transferer(source, destination, threads, runs);
    joined := transferer.Drop(seq(threads, _ => true));
  }

  /** Calling `execute` a second time finds every slot empty and returns 0. */
  method ExecuteTwice(source: string, destination: string, threads: nat, runs: seq<seq<Iteration>>)
    returns (first: nat, second: nat)
    requires |runs| == threads && AllTerminate(destination, runs)
    ensures first == TotalOf(destination, runs) && second == 0
  {
    var transferer := new Transferer(source, destination, threads, runs);
    first := transferer.Execute();
    SumPresentOfEmpty(transferer.handles[..]);
    second := transferer.Execute();
  }
}
