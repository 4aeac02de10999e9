# sqstransfer core, modelled in Dafny

sqstransfer moves Amazon SQS messages from a source queue to a destination
queue, or deletes them from the source (`--delete`), with a pool of worker
threads. This project models the sequential core of `src/lib.rs`:

- the batch transfer step (`transfer_message` with `dequeue`, `enqueue` and
  `delete`): one receive of up to 10 messages, then either a send-batch to
  the destination followed by a delete-batch of the handles whose send did
  not fail, or (delete-only mode, empty destination) a delete-batch of every
  fetched handle;
- the worker loop run by each thread: check for a pending Terminate, run a
  step, add its batch size, stop on Terminate, on a step error or on an
  empty batch;
- the `Transferer`: one join-handle slot per worker, `execute` summing and
  emptying the slots, `drop` sending Terminate and joining what is left;
- the check in `parse` that exactly one of `--destination` and `--delete`
  is given.

The queue service is not modelled. What it answers to the three calls of a
step is an input (`Transport.Responses`), and a step returns, beside its
result, the list of requests it issued, so that "send is never called" and
"the delete request names exactly these handles" can be stated. The ordinal
ids `0`, `1`, ... of a batch are the decimal strings `usize::to_string`
produces (`Decimal.NatToString`); its inverse `Decimal.ParseDecimal` shows
they are distinct. The arbitrary iteration order of the `HashMap` in
`enqueue` is modelled by choosing the next key nondeterministically, and the
deletion set is specified as a multiset.

Files: `transport.dfy` (messages, requests, responses, errors),
`decimal.dfy` (ordinal ids), `step.dfy` (the transfer step), `worker.dfy`
(the worker loop), `engine.dfy` (the `Transferer` and `run`), `config.dfy`
(the mode check).

In forward mode the code issues the delete-batch after every answered
send, even when every entry failed and the list of handles is empty
(src/lib.rs:220-221); the step reports the number of messages fetched
(src/lib.rs:235), and the model does both.

## Model

| member | source | states |
|---|---|---|
| `Config.CheckMode` | src/lib.rs:79-87 | the configuration is accepted exactly when one of "destination non-empty" and `--delete` holds; an absent destination is ""; an accepted configuration has an empty destination exactly when `--delete` was given |
| `Decimal.NatToString` | src/lib.rs:263 | the ordinal id is a non-empty string of decimal digits with no leading zero; 0 is "0" |
| `Decimal.ParseNatToString` | src/lib.rs:263 | reading an ordinal id back as a number gives the ordinal (round trip) |
| `Decimal.NatToStringInjective` | src/lib.rs:263 | distinct ordinals get distinct ids, so one batch never reuses an id |
| `Decimal.IdsOfCardinality` | src/lib.rs:275 | a set of ordinals has as many distinct ids as members |
| `Step.Dequeue` | src/lib.rs:238-255 | a failed receive is the `Dequeue` error; otherwise the batch delivered, empty when the reply carries no message list |
| `Step.RecordHandles` | src/lib.rs:258-282 | stops exactly when some message has no handle; otherwise one send entry per message with id `i`, its body ("" if absent) and attributes, and a map from every id `i` to message `i`'s handle |
| `Step.RemoveFailed` | src/lib.rs:289-292 | the map afterwards is the map less every failed id, and holds exactly the ordinals whose id was not reported failed |
| `Step.CollectValues` | src/lib.rs:294-297 | the handles collected, in whatever order the map yields them, are exactly (as a multiset) the values of the map |
| `Step.Enqueue` | src/lib.rs:257-306 | a missing handle is the `Enqueue` error with no request sent; otherwise one send-batch of all entries; a wholesale send failure is the `Enqueue` error; an answered send yields exactly the handles of the messages whose id is not among the failed ids |
| `Step.Delete` | src/lib.rs:308-329 | the delete-batch names each given handle once, in order, with ids `0..`; the result is `Ok` exactly when the service accepts the call, else the `Delete` error |
| `Step.CollectHandles` | src/lib.rs:223-229 | one handle per fetched message, in fetch order, "" for a message without one |
| `Step.DeleteEntriesRoundTrip` | src/lib.rs:311-316 | the handles of a delete request are the handles given, and its entry ids are pairwise distinct |
| `Step.SurvivingSize` | src/lib.rs:289-297 | a forwarding step deletes as many handles as messages fetched, less the number of distinct failed ids that name one of the batch's ordinals |
| `Step.NothingFailedDeletesAll` | src/lib.rs:289-297 | when the send reports no failure, forwarding deletes every fetched handle, the same multiset delete-only mode deletes |
| `Step.AllFailedDeletesNothing` | src/lib.rs:289-297 | when every ordinal is reported failed, the deletion set is empty |
| `Step.StepResult` | src/lib.rs:215-236 | the step's result: `Dequeue` exactly on a failed receive, `Enqueue` exactly when forwarding a non-empty batch with a missing handle or a failed send, `Delete` exactly when the delete is issued and fails; `Ok(0)` exactly for an empty batch; an `Ok` result is the number of messages fetched |
| `Step.TransferMessage` | src/lib.rs:215-236 | the result is `StepResult`; the first request is a receive of up to 10 messages from the source; a failed or empty fetch issues nothing else; delete-only mode never sends and deletes every handle in fetch order ("" for a missing one); forwarding with a missing handle issues nothing after the receive; a failed send issues no delete; an answered send is followed by a delete, even an empty one, whose entries have ids `0..` and whose handles are exactly the surviving ones |
| `Worker.FirstStop` | src/lib.rs:156-176 | the iteration at which the loop ends is one that stops it (Terminate pending, step error or empty batch) and no earlier one does |
| `Worker.RunWorker` | src/lib.rs:153-179 | the worker returns the sum of the batch sizes of the iterations before the first stop, and runs one step per iteration up to the stop, plus the stopping one unless it is an observed Terminate |
| `Worker.WorkerTotalIsDrain` | src/lib.rs:155-178 | the worker's count agrees with an iteration-by-iteration reading of the loop |
| `Worker.NothingAfterStop` | src/lib.rs:156-176 | what would happen after the stopping iteration changes neither the count nor the steps run |
| `Worker.TerminateFirst` | src/lib.rs:157-162 | a Terminate pending at the first check stops the worker before any step, with count 0 |
| `Worker.TotalBoundedBySteps` | src/lib.rs:164-175 | when every batch is at most `max` long, the count is at most `max` per step run |
| `Engine.SumPresentOfEmpty` | src/lib.rs:191-197 | slots that are all empty sum to 0 |
| `Engine.SumPresentOfTotals` | src/lib.rs:145-182 | slots holding each worker's count sum to the total over all workers |
| `Engine.Transferer.constructor` | src/lib.rs:132-188 | one slot per thread holding that worker's count, no Terminate sent yet |
| `Engine.Transferer.Execute` | src/lib.rs:190-198 | returns the sum of the results present in the slots and leaves every slot empty |
| `Engine.Transferer.Drop` | src/lib.rs:201-212 | delivers Terminate to every worker whose receiver is still there, ignores the failed sends, joins exactly the slots that still hold a worker, and leaves every slot empty |
| `Engine.Run` | src/lib.rs:104-113 | the count `run` obtains is the sum of all workers' counts |
| `Engine.ExecuteTwice` | src/lib.rs:190-198 | a first `execute` returns the sum of all workers' counts, a second one returns 0 |
| `Engine.ExecuteThenDrop` | src/lib.rs:104-113 | after `execute` has joined every worker, the `drop` at the end of `run` joins nothing further |
| `Engine.DropWithoutExecute` | src/lib.rs:201-212 | a `drop` of a fresh engine joins every worker exactly once |

## Left out

- Command-line definitions, the parsing of `--threads`, the region option and `AWS_DEFAULT_REGION`, region parsing, and `process::exit`: plumbing around the mode check (src/lib.rs:30-102, 136-142).
- `println!`, `eprintln!` and the `Display` impl of `Config`: output only.
- The SQS client calls (`receive_message`, `send_message_batch`, `delete_message_batch`, `.sync()`): foreign network calls, replaced by their responses as inputs. The client shared by cloning is not modelled.
- Threads, `mpsc` channels and blocking joins: workers run one after another, and a Terminate reaches a worker's loop only through the iteration's pending flag, so how a drop interleaves with running workers is not modelled.
- Engine.Transferer.constructor: runs each worker's loop to completion at spawn time and stores its count, since threads are not modelled.
- Worker.RunWorker: covers only runs in which some iteration stops the loop; a worker that receives non-empty batches forever is not modelled.
- Engine.Transferer.Execute: sums with unbounded integers, as Worker.RunWorker counts; `usize` overflow of `message_count += n` or of the sum is not modelled.
- `handle.join().unwrap()` panicking on a panicked worker is not modelled: a worker here always returns its count.
- Per-entry failures reported by `delete_message_batch` are ignored by the code and are not part of the model.
- Queue-service behaviour (redelivery, visibility timeouts, exclusive delivery across workers, the 10-message ceiling): not implemented by this code.
