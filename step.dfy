/** One batch transfer step: fetch a batch from the source queue, forward
    it to the destination (or not, in delete-only mode), then delete what
    may be deleted from the source. */
module Step {
  import opened Transport
  import opened Decimal

  /** The batch size asked of every receive call. */
  const MAX_MESSAGES: nat := 10

  /** The handle a message carries, or "" when it carries none. */
  function HandleOrEmpty(m: Message): string {
    m.receiptHandle.GetOr("")
  }

  /** Every message's handle in fetch order, "" for a missing one. */
  function HandlesOrEmpty(messages: seq<Message>): seq<string> {
    seq(|messages|, i requires 0 <= i < |messages| => HandleOrEmpty(messages[i]))
  }

  predicate AllHaveHandles(messages: seq<Message>) {
    forall i :: 0 <= i < |messages| ==> messages[i].receiptHandle.Some?
  }

  /** The send entry for the message at ordinal `i`: id `i` in decimal,
      the body ("" when absent) and the attributes. */
  function EntryFor(i: nat, m: Message): SendEntry {
    SendEntry(NatToString(i), m.body.GetOr(""), m.attributes)
  }

  function SendEntries(messages: seq<Message>): seq<SendEntry> {
    seq(|messages|, i requires 0 <= i < |messages| => EntryFor(i, messages[i]))
  }

  function DeleteEntries(handles: seq<string>): seq<DeleteEntry> {
    seq(|handles|, i requires 0 <= i < |handles| => DeleteEntry(NatToString(i), handles[i]))
  }

  function EntryHandles(entries: seq<DeleteEntry>): seq<string> {
    seq(|entries|, i requires 0 <= i < |entries| => entries[i].receiptHandle)
  }

  /** A delete request names each handle exactly once, in order, and its ids are distinct. */
  lemma DeleteEntriesRoundTrip(handles: seq<string>)
    ensures EntryHandles(DeleteEntries(handles)) == handles
    ensures forall i, j :: 0 <= i < j < |handles| ==>
      DeleteEntries(handles)[i].id != DeleteEntries(handles)[j].id
  {
    forall i, j | 0 <= i < j < |handles|
      ensures DeleteEntries(handles)[i].id != DeleteEntries(handles)[j].id
    {
      NatToStringInjective(i, j);
    }
  }

  /** The ordinals of a batch of `n` messages. */
  function Range(n: nat): (r: set<nat>)
    ensures forall i: nat :: i in r <==> i < n
  {
    if n == 0 then {} else Range(n - 1) + {n - 1}
  }

  /** Ordinals below `n` whose id is not among `failedIds`. */
  function LiveIndices(n: nat, failedIds: seq<string>): set<nat> {
    set i: nat | i < n && NatToString(i) !in failedIds
  }

  /** Each failed id removes at most the one ordinal it names. */
  lemma LiveIndicesExtend(n: nat, failedIds: seq<string>, t: nat)
    requires t < |failedIds|
    ensures LiveIndices(n, failedIds[..t + 1]) == Without(LiveIndices(n, failedIds[..t]), failedIds[t])
    ensures IdsOf(Without(LiveIndices(n, failedIds[..t]), failedIds[t]))
      == IdsOf(LiveIndices(n, failedIds[..t])) - {failedIds[t]}
  {
    assert failedIds[..t + 1] == failedIds[..t] + [failedIds[t]];
    var s, f := LiveIndices(n, failedIds[..t]), failedIds[t];
    forall i | i in IdsOf(s) - {f} ensures i in IdsOf(Without(s, f)) {
      var j :| j in s && NatToString(j) == i;
      assert j in Without(s, f);
    }
  }

  /** The ordinals in `s` whose id is not `f`. */
  function Without(s: set<nat>, f: string): set<nat> {
    set j | j in s && NatToString(j) != f
  }

  /** Handles of the first `n` messages whose ordinal is in `live`, as a multiset. */
  function Kept(messages: seq<Message>, live: set<nat>, n: nat): multiset<string>
    requires n <= |messages|
  {
    if n == 0 then multiset{}
    else Kept(messages, live, n - 1) + (if n - 1 in live then multiset{HandleOrEmpty(messages[n - 1])} else multiset{})
  }

  /** The handles that a forwarding step deletes: those of the messages whose
      ordinal id the send response does not list as failed. */
  function Surviving(messages: seq<Message>, failedIds: seq<string>): multiset<string> {
    Kept(messages, LiveIndices(|messages|, failedIds), |messages|)
  }

  lemma {:induction false} KeptAgree(messages: seq<Message>, s: set<nat>, t: set<nat>, n: nat)
    requires n <= |messages|
    requires forall i: nat :: i < n ==> (i in s <==> i in t)
    ensures Kept(messages, s, n) == Kept(messages, t, n)
  {
    if n > 0 {
      KeptAgree(messages, s, t, n - 1);
    }
  }

  lemma {:induction false} KeptEmpty(messages: seq<Message>, n: nat)
    requires n <= |messages|
    ensures Kept(messages, {}, n) == multiset{}
  {
    if n > 0 {
      KeptEmpty(messages, n - 1);
    }
  }

  /** Taking ordinal `j` out of `live` takes exactly its handle out of `Kept`. */
  lemma {:induction false} KeptRemove(messages: seq<Message>, live: set<nat>, j: nat, n: nat)
    requires n <= |messages| && j < n && j in live
    ensures Kept(messages, live, n) == Kept(messages, live - {j}, n) + multiset{HandleOrEmpty(messages[j])}
  {
    if j == n - 1 {
      KeptAgree(messages, live, live - {j}, n - 1);
    } else {
      KeptRemove(messages, live, j, n - 1);
    }
  }

  lemma {:induction false} KeptAll(messages: seq<Message>, live: set<nat>, n: nat)
    requires n <= |messages|
    requires forall i: nat :: i < n ==> i in live
    ensures Kept(messages, live, n) == multiset(HandlesOrEmpty(messages)[..n])
  {
    if n > 0 {
      KeptAll(messages, live, n - 1);
      assert HandlesOrEmpty(messages)[..n] == HandlesOrEmpty(messages)[..n - 1] + [HandleOrEmpty(messages[n - 1])];
    }
  }

  /** When the send reports no failure, forwarding deletes every fetched
      handle, as delete-only mode does. */
  lemma NothingFailedDeletesAll(messages: seq<Message>)
    ensures Surviving(messages, []) == multiset(HandlesOrEmpty(messages))
  {
    KeptAll(messages, LiveIndices(|messages|, []), |messages|);
    assert HandlesOrEmpty(messages)[..|messages|] == HandlesOrEmpty(messages);
  }

  /** When every ordinal is reported failed, nothing is deleted. */
  lemma AllFailedDeletesNothing(messages: seq<Message>, failedIds: seq<string>)
    requires forall i :: 0 <= i < |messages| ==> NatToString(i) in failedIds
    ensures Surviving(messages, failedIds) == multiset{}
  {
    assert LiveIndices(|messages|, failedIds) == {};
    KeptEmpty(messages, |messages|);
  }

  /** The ordinals in `live` below `n`. */
  function Below(live: set<nat>, n: nat): set<nat> {
    set i | i in live && i < n
  }

  lemma {:induction false} KeptLength(messages: seq<Message>, live: set<nat>, n: nat)
    requires n <= |messages|
    ensures |Kept(messages, live, n)| == |Below(live, n)|
  {
    if n == 0 {
      assert Below(live, 0) == {};
    } else {
      KeptLength(messages, live, n - 1);
      if n - 1 in live {
        assert Below(live, n) == Below(live, n - 1) + {n - 1};
      } else {
        assert Below(live, n) == Below(live, n - 1);
      }
    }
  }

  lemma {:induction false} RangeCardinality(n: nat)
    ensures |Range(n)| == n
  {
    if n > 0 {
      RangeCardinality(n - 1);
    }
  }

  /** The distinct ids among `failedIds` that name an ordinal of the batch. */
  function FailedInRange(n: nat, failedIds: seq<string>): set<string> {
    set f | f in failedIds && f in IdsOf(Range(n))
  }

  /** A forwarding step deletes as many handles as there are messages, less
      the distinct in-range ids the send response lists as failed. */
  lemma SurvivingSize(messages: seq<Message>, failedIds: seq<string>)
    ensures |Surviving(messages, failedIds)| == |messages| - |FailedInRange(|messages|, failedIds)|
  {
    var n := |messages|;
    var live := LiveIndices(n, failedIds);
    var dead := set i: nat | i < n && NatToString(i) in failedIds;
    KeptLength(messages, live, n);
    assert Below(live, n) == live;
    assert Range(n) == live + dead;
    assert live !! dead;
    RangeCardinality(n);
    IdsOfCardinality(dead);
    assert IdsOf(dead) == FailedInRange(n, failedIds);
  }

  /** `dequeue`: a failed receive is fatal; otherwise the delivered batch,
      empty when the reply carries no message list. */
  function Dequeue(response: ReceiveResponse): (r: Result<seq<Message>>)
    ensures r.Err? <==> response.ReceiveFailed?
    ensures r.Err? ==> r.error == TransfererError.Dequeue
    ensures r.Ok? && response.messages.Some? ==> r.value == response.messages.value
    ensures r.Ok? && response.messages.None? ==> r.value == []
  {
    match response
    case ReceiveFailed => Err(TransfererError.Dequeue)
    case Received(messages) => Ok(messages.GetOr([]))
  }

  /** The messages a step goes on with: the batch `dequeue` delivers, and
      none when the call failed. */
  function Batch(response: ReceiveResponse): seq<Message> {
    if response.Received? then Dequeue(response).value else []
  }

  /** `m` maps the id of every ordinal in `live`, and nothing else, to the
      handle of the message at that ordinal. */
  ghost predicate HoldsHandles(m: map<string, string>, messages: seq<Message>, live: set<nat>) {
    && m.Keys == IdsOf(live)
    && forall j :: j in live ==>
         j < |messages| && NatToString(j) in m && m[NatToString(j)] == HandleOrEmpty(messages[j])
  }

  /** The first loop of `enqueue`: one send entry per message, and each
      handle recorded under its ordinal id; stops at the first message
      without a handle. */
  method RecordHandles(messages: seq<Message>)
    returns (entries: seq<SendEntry>, handleMap: map<string, string>, missing: bool)
    ensures missing <==> !AllHaveHandles(messages)
    ensures !missing ==> entries == SendEntries(messages)
    ensures !missing ==> HoldsHandles(handleMap, messages, Range(|messages|))
  {
    entries, handleMap, missing := [], map[], false;
    var i := 0;
    while i < |messages|
      invariant 0 <= i <= |messages|
      invariant entries == SendEntries(messages[..i])
      invariant AllHaveHandles(messages[..i])
      invariant HoldsHandles(handleMap, messages, Range(i))
    {
      entries := entries + [EntryFor(i, messages[i])];
      match messages[i].receiptHandle
      case None =>
        assert !AllHaveHandles(messages);
        missing := true;
        return;
      case Some(handle) =>
        forall j | j in Range(i) ensures NatToString(j) != NatToString(i) {
          NatToStringInjective(j, i);
        }
        handleMap := handleMap[NatToString(i) := handle];
        assert Range(i + 1) == Range(i) + {i};
        assert messages[..i + 1] == messages[..i] + [messages[i]];
        i := i + 1;
    }
    assert messages[..i] == messages;
  }

  /** The second loop of `enqueue`: removes the id of every failed entry
      (an id that is not in the map changes nothing). */
  method RemoveFailed(handleMap: map<string, string>, failedIds: seq<string>, ghost messages: seq<Message>)
    returns (remaining: map<string, string>)
    requires HoldsHandles(handleMap, messages, Range(|messages|))
    ensures remaining == handleMap - (set f | f in failedIds)
    ensures HoldsHandles(remaining, messages, LiveIndices(|messages|, failedIds))
  {
    remaining := handleMap;
    ghost var live := Range(|messages|);
    assert live == LiveIndices(|messages|, failedIds[..0]);
    for t := 0 to |failedIds|
      invariant live == LiveIndices(|messages|, failedIds[..t])
      invariant remaining == handleMap - (set f | f in failedIds[..t])
      invariant HoldsHandles(remaining, messages, live)
    {
      LiveIndicesExtend(|messages|, failedIds, t);
      remaining := remaining - {failedIds[t]};
      live := Without(live, failedIds[t]);
    }
    assert failedIds[..|failedIds|] == failedIds;
  }

  /** The last loop of `enqueue`: the map's values, visited in no particular order. */
  method CollectValues(handleMap: map<string, string>, ghost messages: seq<Message>, ghost live: set<nat>)
    returns (handles: seq<string>)
    requires HoldsHandles(handleMap, messages, live)
    ensures multiset(handles) == Kept(messages, live, |messages|)
  {
    var n := |messages|;
    handles := [];
    var rest := handleMap;
    ghost var left := live;
    while rest.Keys != {}
      invariant left <= live
      invariant HoldsHandles(rest, messages, left)
      invariant multiset(handles) + Kept(messages, left, n) == Kept(messages, live, n)
      decreases left
    {
      var key :| key in rest.Keys;
      ghost var j :| j in left && NatToString(j) == key;
      handles := handles + [rest[key]];
      rest := rest - {key};
      KeptRemove(messages, left, j, n);
      IdsOfRemove(left, j);
      forall j' | j' in left - {j} ensures NatToString(j') != key {
        NatToStringInjective(j', j);
      }
      left := left - {j};
    }
    assert forall j :: j in left ==> NatToString(j) in rest.Keys;
    assert left == {};
    KeptEmpty(messages, n);
  }

  /** `enqueue`: tags each message with its ordinal id, records its handle
      under that id, sends the batch, drops the handles of the failed ids and
      returns the rest in the map's (arbitrary) iteration order. A message
      without a handle aborts before anything is sent. */
  method Enqueue(messages: seq<Message>, destination: string, response: SendResponse)
    returns (r: Result<seq<string>>, requests: seq<Request>)
    ensures !AllHaveHandles(messages) ==> r == Err(TransfererError.Enqueue) && requests == []
    ensures AllHaveHandles(messages) ==> requests == [SendBatch(destination, SendEntries(messages))]
    ensures AllHaveHandles(messages) && response.SendFailed? ==> r == Err(TransfererError.Enqueue)
    ensures AllHaveHandles(messages) && response.Sent? ==>
      r.Ok? && multiset(r.value) == Surviving(messages, response.failedIds)
  {
    var entries, handleMap, missing := RecordHandles(messages);
    if missing {
      r, requests := Err(TransfererError.Enqueue), [];
      return;
    }
    requests := [SendBatch(destination, entries)];
    match response
    case SendFailed =>
      r := Err(TransfererError.Enqueue);
    case Sent(failedIds) =>
      var remaining := RemoveFailed(handleMap, failedIds, messages);
      var handles := CollectValues(remaining, messages, LiveIndices(|messages|, failedIds));
      r := Ok(handles);
  }

  /** `delete`: one entry per handle, in order, with ids `0..`. */
  method Delete(handles: seq<string>, source: string, response: DeleteResponse)
    returns (r: Result<()>, request: Request)
    ensures request == DeleteBatch(source, DeleteEntries(handles))
    ensures r.Ok? <==> response.Deleted?
    ensures r.Err? ==> r.error == TransfererError.Delete
  {
    var entries: seq<DeleteEntry> := [];
    var i := 0;
    while i < |handles|
      invariant 0 <= i <= |handles|
      invariant entries == DeleteEntries(handles[..i])
    {
      entries := entries + [DeleteEntry(NatToString(i), handles[i])];
      i := i + 1;
    }
    assert handles[..i] == handles;
    request := DeleteBatch(source, entries);
    match response
    case DeleteFailed => r := Err(TransfererError.Delete);
    case Deleted => r := Ok(());
  }

  /** The delete-only branch: every fetched message's handle, "" for a missing one. */
  method CollectHandles(messages: seq<Message>) returns (handles: seq<string>)
    ensures |handles| == |messages|
    ensures forall i :: 0 <= i < |messages| ==> handles[i] == HandleOrEmpty(messages[i])
  {
    handles := [];
    for i := 0 to |messages|
      invariant |handles| == i
      invariant forall j :: 0 <= j < i ==> handles[j] == HandleOrEmpty(messages[j])
    {
      handles := handles + [match messages[i].receiptHandle case Some(h) => h case None => ""];
    }
  }

  /** The result `transfer_message` reports, as a function of the
      destination and of what the service answers. */
  function StepResult(destination: string, responses: Responses): (r: Result<nat>)
    // A fetch failure, a send failure or a missing handle in forward mode, and a delete failure are the three errors.
    ensures r == Err(TransfererError.Dequeue) <==> responses.receive.ReceiveFailed?
    ensures r == Err(TransfererError.Enqueue) <==>
      responses.receive.Received? && Batch(responses.receive) != [] && destination != ""
      && (!AllHaveHandles(Batch(responses.receive)) || responses.send.SendFailed?)
    // Otherwise the step fails only if it deletes and the delete fails.
    ensures r == Err(TransfererError.Delete) <==>
      responses.receive.Received? && Batch(responses.receive) != [] && responses.delete.DeleteFailed?
      && (destination != "" ==> AllHaveHandles(Batch(responses.receive)) && responses.send.Sent?)
    // A successful step reports the number of messages fetched, not the number deleted.
    ensures r.Ok? ==> r.value == |Batch(responses.receive)|
    ensures r == Ok(0) <==> responses.receive.Received? && Batch(responses.receive) == []
  {
    match responses.receive
    case ReceiveFailed => Err(TransfererError.Dequeue)
    case Received(_) =>
      var batch := Batch(responses.receive);
      if batch == [] then Ok(0)
      else if destination != "" && !AllHaveHandles(batch) then Err(TransfererError.Enqueue)
      else if destination != "" && responses.send.SendFailed? then Err(TransfererError.Enqueue)
      else if responses.delete.DeleteFailed? then Err(TransfererError.Delete)
      else Ok(|batch|)
  }

  /** `transfer_message`: one fetch, then forward or delete only, then
      acknowledge. Returns the step result and the requests made, in order. */
  method TransferMessage(source: string, destination: string, responses: Responses)
    returns (result: Result<nat>, requests: seq<Request>)
    ensures result == StepResult(destination, responses)
    // Every step starts with one receive of up to ten messages.
    ensures |requests| >= 1 && requests[0] == Receive(source, MAX_MESSAGES)
    // A failed or empty fetch is followed by no other call.
    ensures responses.receive.ReceiveFailed? || Batch(responses.receive) == [] ==> |requests| == 1
    // Delete-only mode: no send; one delete naming every handle in fetch order.
    ensures var batch := Batch(responses.receive);
      (responses.receive.Received? && batch != [] && destination == "") ==>
      requests == [Receive(source, MAX_MESSAGES), DeleteBatch(source, DeleteEntries(HandlesOrEmpty(batch)))]
    // Forward mode, a message without a handle: nothing is sent or deleted.
    ensures var batch := Batch(responses.receive);
      (responses.receive.Received? && batch != [] && destination != "" && !AllHaveHandles(batch)) ==>
      |requests| == 1
    // Forward mode, the send fails wholesale: nothing is deleted.
    ensures var batch := Batch(responses.receive);
      (responses.receive.Received? && batch != [] && destination != "" && AllHaveHandles(batch)
       && responses.send.SendFailed?) ==>
      requests == [Receive(source, MAX_MESSAGES), SendBatch(destination, SendEntries(batch))]
    // Forward mode, the send is answered: the delete follows, even when it names no handle,
    // and names exactly the handles of the messages not reported as failed.
    ensures var batch := Batch(responses.receive);
      (responses.receive.Received? && batch != [] && destination != "" && AllHaveHandles(batch)
       && responses.send.Sent?) ==>
      && |requests| == 3
      && requests[1] == SendBatch(destination, SendEntries(batch))
      && requests[2].DeleteBatch? && requests[2].queue == source
      && requests[2].deleteEntries == DeleteEntries(EntryHandles(requests[2].deleteEntries))
      && multiset(EntryHandles(requests[2].deleteEntries)) == Surviving(batch, responses.send.failedIds)
  {
    requests := [Receive(source, MAX_MESSAGES)];
    var fetched := Dequeue(responses.receive);
    if fetched.Err? {
      result := Err(fetched.error);
      return;
    }
    var messages := fetched.value;
    if |messages| >= 1 {
      if destination != "" {
        var enqueued, sent := Enqueue(messages, destination, responses.send);
        requests := requests + sent;
        if enqueued.Err? {
          result := Err(enqueued.error);
          return;
        }
        var deleted, request := Delete(enqueued.value, source, responses.delete);
        DeleteEntriesRoundTrip(enqueued.value);
        requests := requests + [request];
        if deleted.Err? {
          result := Err(deleted.error);
          return;
        }
      } else {
        var handles := CollectHandles(messages);
        assert handles == HandlesOrEmpty(messages);
        var deleted, request := Delete(handles, source, responses.delete);
        requests := requests + [request];
        if deleted.Err? {
          result := Err(deleted.error);
          return;
        }
      }
    }
    result := Ok(|messages|);
  }
}
