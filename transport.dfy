/** Values exchanged with the queue service: fetched messages, the batch
    requests a transfer step issues, and the responses it receives. The
    service itself is not modelled: its responses are inputs. */
module Transport {

  datatype Option<T> = None | Some(value: T) {
    function GetOr(default: T): T {
      match this
      case Some(v) => v
      case None => default
    }
  }

  /** The three fatal conditions of a transfer step. */
  datatype TransfererError = Dequeue | Enqueue | Delete

  datatype Result<T> = Ok(value: T) | Err(error: TransfererError)

  /** A message as returned by a receive call: every part is optional. */
  datatype Message = Message(
    body: Option<string>,
    attributes: Option<map<string, string>>,
    receiptHandle: Option<string>)

  /** One entry of a send-batch request; `id` correlates it with the response. */
  datatype SendEntry = SendEntry(id: string, body: string, attributes: Option<map<string, string>>)

  /** One entry of a delete-batch request. */
  datatype DeleteEntry = DeleteEntry(id: string, receiptHandle: string)

  /** A call made on the queue service, with the request it carries. */
  datatype Request =
    | Receive(queue: string, maxMessages: nat)
    | SendBatch(queue: string, sendEntries: seq<SendEntry>)
    | DeleteBatch(queue: string, deleteEntries: seq<DeleteEntry>)

  /** The outcome of a receive call; a successful reply may carry no message list. */
  datatype ReceiveResponse = ReceiveFailed | Received(messages: Option<seq<Message>>)

  /** The outcome of a send-batch call: a wholesale failure, or the ids of
      the entries the service reports as failed. */
  datatype SendResponse = SendFailed | Sent(failedIds: seq<string>)

  /** The outcome of a delete-batch call (any per-entry failures it reports are ignored). */
  datatype DeleteResponse = DeleteFailed | Deleted

  /** What the service answers to each of the three calls of one step. */
  datatype Responses = Responses(receive: ReceiveResponse, send: SendResponse, delete: DeleteResponse)
}
