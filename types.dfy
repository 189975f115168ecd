/** Values shared by the whole model of the Veilid duplex session: keys, hashes, errors. */
module Types {

  /** A key of the overlay network: a DHT record key or a private-route id.
      The session only ever compares keys for equality, so a key is modelled
      as the number it encodes. */
  type CryptoKey = nat

  /** The width of Rust's `u64`. */
  const U64_LIMIT: int := 0x1_0000_0000_0000_0000

  /** A `u64` value, as produced by the payload hash. */
  type U64 = x: int | 0 <= x < U64_LIMIT

  /** The hash of a received payload (the hash function itself is not modelled). */
  type Hash = U64

  /** A reply blob returned by the remote side of an `app_call`. */
  type Reply = seq<bv8>

  /** Where an `app_call` is sent: a node, or a private route imported from the DHT. */
  datatype Target = NodeId(node: CryptoKey) | PrivateRoute(route: CryptoKey)

  /** The errors that leave the session, by where they come from. The session
      itself raises only `MessageTooLarge` and `CouldntSendReply`; the others
      label the errors the network's answers (the model's inputs) carry. */
  datatype Error =
    | DhtLookupFailed        // reading or importing the remote route record
    | MessageTooLarge        // the serialised message is over 32 KiB
    | AppCallFailed          // the network could not deliver an app_call
    | RouteAllocationFailed  // a new private route could not be created
    | DhtPublishFailed       // our route record could not be updated
    | CouldntSendReply       // all send attempts failed

  /** Rust's `Result<T, anyhow::Error>`. */
  datatype Result<+T> = Ok(value: T) | Err(error: Error)
}
