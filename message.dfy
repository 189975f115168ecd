/** `AppMessage::send`: one attempt to deliver a serialised message with an `app_call`. */
module Message {
  import opened Types

  /** The largest serialised message `send` passes to the network: 32 KiB. */
  const MAX_BLOB_SIZE: nat := 32 * 1024

  /** One send attempt: what it returned and whether it reached the network. */
  datatype Sent = Sent(result: Result<Reply>, calledAppCall: bool)

  /** `AppMessage::send` for a message whose JSON blob is `blobLen` bytes long.
      `appCall` is what the network answers if the blob is handed to it. */
  function Send(blobLen: nat, appCall: Result<Reply>): (s: Sent)
    // the network is used exactly when the blob fits in 32 KiB (32768 bytes included)
    ensures s.calledAppCall <==> blobLen <= 32768
    // an oversized blob is refused before any network traffic
    ensures !s.calledAppCall ==> s.result == Err(MessageTooLarge)
    // otherwise the network's answer is the answer
    ensures s.calledAppCall ==> s.result == appCall
  {
    if blobLen > MAX_BLOB_SIZE then
      Sent(Err(MessageTooLarge), false)
    else
      Sent(appCall, true)
  }
}
