# veilid_duplex session bookkeeping, in Dafny

This project models the session bookkeeping of `VeilidDuplex` in `src/veilid.rs`.
`VeilidDuplex` is one end of a two-party message channel over the Veilid overlay network.
The model covers four parts:

- **The remote-route cache** (`VeilidDuplexRoutes`). It maps a remote peer's DHT record key to the send target and the private-route id imported from that record. `get_route` fills it lazily. `remove_route_if_exists` drops one entry whose route has died.
- **Duplicate suppression.** `received_message_hashes` is an append-only log of payload hashes. An inbound app call is ACKed first. Its hash is then checked against the log. Only a new hash is logged and handed to the application. This catches only byte-identical redeliveries by the network. A retry by the sender's `send_message` carries a fresh uuid, so it has a different hash and is delivered again.
- **Sending.** `AppMessage::send` refuses a serialised message over 32 KiB. `send_message` makes up to 1024 send attempts.
- **Route changes.** One cycle of the network loop consumes one update. When our own route is reported dead, it is replaced and republished. Dead remote routes are then pruned from the cache.

The Veilid network is replaced by inputs. These are the DHT's answer to a route lookup, the answer to each `app_call`, the outcome of the ACK reply, the id of a freshly allocated route and the outcome of the DHT republish.

Files:
- `types.dfy` holds keys, the `u64` hash and the error and result types.
- `routes.dfy` holds the route cache.
- `message.dfy` holds `AppMessage::send`.
- `dedup.dfy` holds the hash log.
- `duplex.dfy` holds `VeilidDuplex`.

Modelling choices:
- Rust's `HashMap` iterates in no specified order. So `remove_route_if_exists` may drop *any* entry with the dead route, and its contract is the relation `Routes.RemovedIfExists`. The loop over dead remote routes is the relation `Routes.PrunedAll`.
- In `send_message` the lock on the route cache is released between attempts. A concurrent route change could then empty the cache entry. The model runs one step at a time, so only the first attempt can ever need a DHT lookup.
- `set_uuid` writes a fresh UUIDv4 before every attempt. Its text always has the same length, so the blob length is a single input for the whole send.
- `advertisedRoute` is a ghost field. It records which route id our DHT record holds, which is state kept in the DHT rather than in the process.

## Model

| member | source | states |
|---|---|---|
| `Routes.LazyRoute` | src/veilid.rs:37-56 | `get_route` on the cache's value. The DHT is consulted exactly when the key is uncached. A failed lookup is the only error and leaves the cache unchanged. The returned target is the one now cached for the key. Cached entries are never overwritten. At most the requested key is added. |
| `Routes.LazyRouteIdempotent` | src/veilid.rs:43-55 | After one successful `get_route`, another call for the same key does no lookup, whatever the DHT would answer. It returns the same target and leaves the cache unchanged. |
| `Routes.VeilidDuplexRoutes.constructor` | src/veilid.rs:170-172 | The cache starts empty. |
| `Routes.VeilidDuplexRoutes.GetRoute` | src/veilid.rs:37-56 | The in-place `get_route`. Its result, the new cache and whether it looked up the DHT are exactly those of `LazyRoute` on the old cache. |
| `Routes.VeilidDuplexRoutes.RemoveRouteIfExists` | src/veilid.rs:58-71 | If some entry carries the dead route, exactly one such entry is removed, chosen by iteration order. Otherwise the cache is unchanged. |
| `Routes.RemovedIfExistsFacts` | src/veilid.rs:58-71 | One removal keeps every other entry and removes only an entry with the dead route. The size drops by one exactly when the dead route was cached. |
| `Routes.SharedDeadRouteSurvives` | src/veilid.rs:59-70 | Two entries share dead route 7. One removal leaves one entry, and that entry still carries route 7. |
| `Routes.PrunedAllSnoc` | src/veilid.rs:297-299 | One more `remove_route_if_exists` extends a pruning run by that route. |
| `Routes.PrunedAllShrinks` | src/veilid.rs:296-299 | Pruning only removes entries. It removes at most one entry per listed dead route, and only entries whose route is listed. |
| `Routes.RemovedIfExistsClears` | src/veilid.rs:58-71 | When route ids are distinct, one removal leaves no entry with the dead route and keeps the ids distinct. |
| `Routes.PrunedAllClearsDeadRoutes` | src/veilid.rs:296-299 | When route ids are distinct, no entry with a listed dead route survives pruning. |
| `Message.Send` | src/veilid.rs:89-113 | `app_call` is made exactly when the blob is at most 32768 bytes, so exactly 32768 bytes is allowed. A larger blob gets `MessageTooLarge` and makes no network call. Otherwise the network's answer is returned. |
| `Dedup.AppendFresh` | src/veilid.rs:276 | Pushing a hash that is not yet logged keeps the log free of duplicates. |
| `Dedup.Receive` | src/veilid.rs:258-279 | A failed ACK ends the call first, whatever the payload. The handler runs exactly when the call was ACKed, the payload deserialised and its hash was not yet logged. The log grows by exactly that hash. A duplicate-free log stays duplicate-free. |
| `Dedup.ReceiveAll` | src/veilid.rs:230-281 | Successive network-loop cycles over a run of inbound app calls: `Receive` applied to each arrival in order, stopping at the first `Malformed` (the panic), collecting the delivered hashes. The final log is the old log followed by exactly the delivered hashes, and there are no more deliveries than arrivals. |
| `Dedup.ReceiveAllDeliversAtMostOnce` | src/veilid.rs:84-86 | Over any run of inbound calls, the log is the old log followed by the delivered hashes. No hash is delivered twice, and no hash that was already logged is delivered. |
| `Dedup.ReceiveAllDeliversArrivals` | src/veilid.rs:254-281 | Every delivery comes from its own inbound call of the run, given by a strictly increasing index list. That call was ACKed, its payload deserialised, and its hash is the delivered hash. So deliveries follow arrival order, because each cycle awaits its handler before taking the next update. |
| `Dedup.ReceiveAllKeepsLog` | src/veilid.rs:269-277 | A run never removes a logged hash. |
| `Dedup.ReceiveAllLogsAcked` | src/veilid.rs:261-277 | A call whose ACK went through ends with its hash logged, provided no ACKed payload at or before it was malformed. An un-ACKed malformed payload returns before deserialising, so it does not stop the run. |
| `Dedup.RedeliveryDeliveredOnce` | src/veilid.rs:269-279 | The same new payload arriving twice is delivered exactly once. |
| `Dedup.UnackedCallIsRedelivered` | src/veilid.rs:261-265 | A call whose ACK failed is not logged, so a network redelivery of the same bytes is delivered. |
| `Duplex.FirstSuccess` | src/veilid.rs:198-215 | It gives the first attempt whose send succeeds, or 1024 if none does. Every earlier attempt failed. |
| `Duplex.SendMessageOutcome` | src/veilid.rs:189-222 | `send_message` as written. It makes at most 1024 attempts. The only error it returns is a failed route lookup, which is returned before any attempt. It stops at the first success. Every attempt before the last one failed. The cache changes only through the first `get_route`. |
| `Duplex.VeilidDuplex.SendMessage` | src/veilid.rs:189-222 | The retry loop. Its result, attempt count and new cache equal `SendMessageOutcome` of the old cache. At the position of the "Couldn't send reply" branch it proves that control cannot reach that branch. |
| `Duplex.ExhaustedSendReportsOk` | src/veilid.rs:209-221 | When the route resolves and all 1024 attempts fail, `send_message` returns `Ok(())` after 1024 attempts. The intended loop returns `CouldntSendReply`. |
| `Duplex.OversizedMessageReportsOk` | src/veilid.rs:99-101 | A 32769-byte message to a cached route is refused by every attempt, yet `send_message` returns `Ok(())` after 1024 attempts. |
| `Duplex.SendMessageIntended` | src/veilid.rs:217-219 | The loop with its last branch working. It reports success exactly when the route resolved and some attempt succeeded. Otherwise a resolved route gives `CouldntSendReply` after 1024 attempts. |
| `Duplex.CountListed` | src/veilid.rs:286-291 | The `filter(..).count()` of the dead-route list is the number of occurrences of our route in it (its multiset multiplicity), hence at most the length of the list. |
| `Duplex.CountListedPositive` | src/veilid.rs:286-291 | The count is positive exactly when our route is listed dead. |
| `Duplex.VeilidDuplex.constructor` | src/veilid.rs:155-186 | A new session has an empty route cache and an empty hash log. Its DHT record advertises its current route. |
| `Duplex.VeilidDuplex.UpdateLocalRoute` | src/veilid.rs:307-320 | A failed allocation changes nothing and is returned. Otherwise `our_route` becomes the new route *before* publishing. So a failed publish is returned while the DHT still advertises the old route. A successful publish advertises the new route. |
| `Duplex.VeilidDuplex.PruneDeadRemoteRoutes` | src/veilid.rs:296-299 | The loop applies `remove_route_if_exists` to each dead remote route in order. The result is `PrunedAll` of the old cache. |
| `Duplex.VeilidDuplex.NetworkLoopCycle` | src/veilid.rs:235-305 | An empty receiver returns `Ok` and changes nothing. Otherwise exactly one update is consumed. An app call goes through `Receive`, or panics on a malformed payload, and the dedup step touches no route. A route change replaces our route exactly when it is listed dead. A failed allocation or publish returns that error before any remote route is pruned. Otherwise the remote routes are pruned. Any other update changes nothing. The hash log stays duplicate-free. |

## Left out

- `network_loop` repeats `network_loop_cycle` until a cycle returns an error. A failed route allocation or DHT publish during a route change (src/veilid.rs:293, 231) ends the loop, and nothing more is received. After a failed publish, `our_route` is already the new route while the DHT record still advertises the dead one. Only finite runs of its app-call arm are modelled, by `Dedup.ReceiveAll`.
- `VeilidDuplex::initialize` and `new` are left out, apart from the initial state the constructor sets. Their API start-up, key generation, route creation and DHT record creation are network I/O.
- `create_private_route`, `update_service_route_pin`, `get_service_route_from_dht`, `app_call` and `app_call_reply` are network calls, and their code is not part of this model. Their outcomes are inputs.
- `serde_json` encoding and decoding, `calculate_hash` and `Uuid::new_v4` are foreign or random. The blob length, the payload hash and "does the payload deserialise" are inputs.
- `sleep(500)` between attempts and the `info!` logging have no effect on the state.
- The `async_std` mutexes, `spawn` and the flume channel are not modelled; the model runs one step at a time. So interleavings are left out, such as a route change pruning the cache between two send attempts.
- The error `recv()` returns on a disconnected channel is not modelled. The channel's sender lives as long as the API, so a non-empty receiver always yields an update.
- The test in `src/veilid.rs` expects successive routes to differ. That depends on the network allocating fresh ids. `UpdateLocalRoute` installs exactly the id it is given.
- The hash log suppresses only byte-identical redeliveries by the network. `send` writes a fresh uuid before every attempt (src/veilid.rs:95, 115-117), so a `send_message` retry has other bytes and another hash and is never suppressed. If the receiver delivered a message but the sender's `app_call` failed (for example, a lost ACK), the retry is delivered a second time. The model takes hashes as inputs, so "no hash is delivered twice" does not cover this case.
- `Duplex.VeilidDuplex.NetworkLoopCycle`: the application handler `on_app_message` is seen only through the `delivered` flag. It is a caller-supplied closure that can capture the public `routes` cache and, for example, call `get_route` on it. Its own effects on shared session state are not modelled, so "an app call touches no route" holds for the dedup step only.
- `Dedup.ReceiveAll` ends a run at the first malformed payload. The `unwrap` on deserialisation panics, and the panic propagates through the awaited task.
- `src/config.rs`, `src/dht.rs`, `src/utils.rs`, `src/lib.rs`, `src/error.rs` and the example programs are not part of this model. They hold configuration, thin DHT wrappers, readiness polling, plain data types and demos.

## Findings

| source | as written | input that shows it | evidently intended | confidence | as-written member | corrected member |
|---|---|---|---|---|---|---|
| src/veilid.rs:209-219 | Both arms of the `if result.is_ok() … else if result.is_err()` leave the iteration. So the `attempt_n == SEND_ATTEMPTS - 1` error is never reached, and exhausting all attempts returns `Ok(())`. | A 32769-byte message to a peer whose route is cached. All 1024 attempts are refused as too large, and `send_message` returns `Ok(())`. | Return the "Couldn't send reply" error after the last failed attempt. | high; not executed | `Duplex.OversizedMessageReportsOk` | `Duplex.SendMessageIntended` |

`Duplex.VeilidDuplex.SendMessage` keeps the behaviour as written, and no other member of the model calls `send_message`.
