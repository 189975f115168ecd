/** `VeilidDuplex`: one end of a two-party session. Sending resolves the remote
    route through the route cache and retries; the network loop consumes one
    network update per cycle, suppressing duplicate app calls and replacing
    dead routes. Every answer of the network (DHT lookups, app_call results,
    the ACK reply, route allocation, DHT publication) is a parameter. */
module Duplex {
  import opened Types
  import opened Routes
  import opened Message
  import opened Dedup

  /** How many times `send_message` tries before giving up. */
  const SEND_ATTEMPTS: nat := 1024

  // ---------------------------------------------------------------------------
  // Sending

  /** The first attempt number in `from..SEND_ATTEMPTS` whose `send` succeeds,
      or `SEND_ATTEMPTS` when none does. `appCall(n)` is the network's answer
      to the app_call of attempt `n`. */
  function FirstSuccess(blobLen: nat, appCall: nat -> Result<Reply>, from: nat): (n: nat)
    requires from <= SEND_ATTEMPTS
    ensures from <= n <= SEND_ATTEMPTS
    ensures n < SEND_ATTEMPTS ==> Send(blobLen, appCall(n)).result.Ok?
    ensures forall j :: from <= j < n ==> Send(blobLen, appCall(j)).result.Err?
    decreases SEND_ATTEMPTS - from
  {
    if from == SEND_ATTEMPTS then SEND_ATTEMPTS
    else if Send(blobLen, appCall(from)).result.Ok? then from
    else FirstSuccess(blobLen, appCall, from + 1)
  }

  /** What `send_message` returns, how many attempts it made, and the route
      cache afterwards. */
  datatype SendReport = SendReport(result: Result<()>, attempts: nat, routes: RouteMap)

  /** `send_message` as written, on the value of the route cache `m`. */
  function SendMessageOutcome(m: RouteMap, remote: CryptoKey, lookup: Result<RouteEntry>,
                              blobLen: nat, appCall: nat -> Result<Reply>): (rep: SendReport)
    // the cache changes only as the first get_route changes it
    ensures rep.routes == LazyRoute(m, remote, lookup).routes
    // never more than SEND_ATTEMPTS attempts
    ensures rep.attempts <= SEND_ATTEMPTS
    // the only error that escapes is a failed route lookup, before any attempt
    ensures rep.result.Err? <==> LazyRoute(m, remote, lookup).result.Err?
    ensures rep.result.Err? ==> rep.attempts == 0 && rep.result.error == lookup.error
    // every attempt but the last one failed
    ensures forall j :: 0 <= j < rep.attempts - 1 ==> Send(blobLen, appCall(j)).result.Err?
    // the loop stops at the first success, or after the last attempt
    ensures rep.result.Ok? ==>
              (0 < rep.attempts &&
               (Send(blobLen, appCall(rep.attempts - 1)).result.Ok? || rep.attempts == SEND_ATTEMPTS))
  {
    var looked := LazyRoute(m, remote, lookup);
    if looked.result.Err? then
      SendReport(Err(looked.result.error), 0, looked.routes)
    else
      var n := FirstSuccess(blobLen, appCall, 0);
      SendReport(Ok(()), if n < SEND_ATTEMPTS then n + 1 else SEND_ATTEMPTS, looked.routes)
  }

  /** When the route resolves but every attempt fails, `send_message` still
      reports success after SEND_ATTEMPTS attempts; the intended loop reports
      `CouldntSendReply`. */
  lemma ExhaustedSendReportsOk(m: RouteMap, remote: CryptoKey, lookup: Result<RouteEntry>,
                               blobLen: nat, appCall: nat -> Result<Reply>)
    requires LazyRoute(m, remote, lookup).result.Ok?
    requires forall j :: 0 <= j < SEND_ATTEMPTS ==> Send(blobLen, appCall(j)).result.Err?
    ensures SendMessageOutcome(m, remote, lookup, blobLen, appCall).result == Ok(())
    ensures SendMessageOutcome(m, remote, lookup, blobLen, appCall).attempts == SEND_ATTEMPTS
    ensures SendMessageIntended(m, remote, lookup, blobLen, appCall).result == Err(CouldntSendReply)
  {
  }

  /** A concrete input: a 32769-byte message over a cached route is refused by
      every attempt, yet `send_message` returns `Ok(())`. */
  lemma OversizedMessageReportsOk(m: RouteMap, remote: CryptoKey, lookup: Result<RouteEntry>,
                                  appCall: nat -> Result<Reply>)
    requires remote in m
    ensures SendMessageOutcome(m, remote, lookup, 32769, appCall) ==
            SendReport(Ok(()), SEND_ATTEMPTS, m)
  {
    forall j | 0 <= j < SEND_ATTEMPTS
      ensures Send(32769, appCall(j)).result.Err?
    {
    }
    ExhaustedSendReportsOk(m, remote, lookup, 32769, appCall);
  }

  /** `send_message` as its last branch intends: after SEND_ATTEMPTS failed
      attempts it reports `CouldntSendReply`. */
  function SendMessageIntended(m: RouteMap, remote: CryptoKey, lookup: Result<RouteEntry>,
                               blobLen: nat, appCall: nat -> Result<Reply>): (rep: SendReport)
    ensures rep.routes == LazyRoute(m, remote, lookup).routes
    ensures rep.attempts <= SEND_ATTEMPTS
    // success is reported exactly when the route resolved and some attempt succeeded
    ensures rep.result.Ok? <==>
              LazyRoute(m, remote, lookup).result.Ok? &&
              exists j :: 0 <= j < SEND_ATTEMPTS && Send(blobLen, appCall(j)).result.Ok?
    // a resolved route that never worked is reported as such, after every attempt
    ensures rep.result.Err? && LazyRoute(m, remote, lookup).result.Ok? ==>
              rep.result.error == CouldntSendReply && rep.attempts == SEND_ATTEMPTS
  {
    var looked := LazyRoute(m, remote, lookup);
    if looked.result.Err? then
      SendReport(Err(looked.result.error), 0, looked.routes)
    else
      var n := FirstSuccess(blobLen, appCall, 0);
      if n < SEND_ATTEMPTS then SendReport(Ok(()), n + 1, looked.routes)
      else SendReport(Err(CouldntSendReply), SEND_ATTEMPTS, looked.routes)
  }

  // ---------------------------------------------------------------------------
  // Network updates

  /** The `dead_routes` test: how many listed routes equal `r`. */
  function CountListed(deadRoutes: seq<CryptoKey>, r: CryptoKey): (n: nat)
    ensures n == multiset(deadRoutes)[r]
    ensures n <= |deadRoutes|
  {
    if deadRoutes == [] then 0
    else
      assert deadRoutes == [deadRoutes[0]] + deadRoutes[1..];
      (if deadRoutes[0] == r then 1 else 0) + CountListed(deadRoutes[1..], r)
  }

  /** A positive count is the same as the route being listed. */
  lemma {:induction false} CountListedPositive(deadRoutes: seq<CryptoKey>, r: CryptoKey)
    ensures CountListed(deadRoutes, r) > 0 <==> r in deadRoutes
  {
    if deadRoutes != [] {
      CountListedPositive(deadRoutes[1..], r);
      assert deadRoutes == [deadRoutes[0]] + deadRoutes[1..];
    }
  }

  /** The payload of a `RouteChange` update. */
  datatype RouteChangeInfo = RouteChangeInfo(deadRoutes: seq<CryptoKey>, deadRemoteRoutes: seq<CryptoKey>)

  /** The updates the network pushes into the session's receiver; every
      variant the session does not handle is `OtherUpdate`. */
  datatype VeilidUpdate = AppCall(msg: Inbound) | RouteChange(change: RouteChangeInfo) | OtherUpdate

  /** The network's answers during one cycle: to the ACK reply, to a request
      for a new private route, and to the republication of our DHT record. */
  datatype NetworkAnswers = NetworkAnswers(ackOk: bool, allocation: Result<CryptoKey>, publish: Result<()>)

  /** How a cycle ends: it returns, or the deserialising `unwrap` panics. */
  datatype CycleResult = Returned(result: Result<()>) | Panicked

  class VeilidDuplex {
    /** Our current private route. */
    var ourRoute: CryptoKey
    /** The key of the DHT record that advertises our route. */
    const ourDhtKey: CryptoKey
    /** The route id that DHT record currently advertises (state of the DHT). */
    ghost var advertisedRoute: CryptoKey
    /** Updates pushed by the network and not yet consumed. */
    var receiver: seq<VeilidUpdate>
    /** The remote-route cache. */
    const routes: VeilidDuplexRoutes
    /** Hashes of every payload handed to the application so far. */
    var receivedMessageHashes: seq<Hash>

    ghost predicate Valid()
      reads this
    {
      NoDuplicates(receivedMessageHashes)
    }

    /** The state `new` builds once the route is allocated and advertised. */
    constructor (ourRoute: CryptoKey, ourDhtKey: CryptoKey, receiver: seq<VeilidUpdate>)
      ensures Valid() && fresh(routes)
      ensures this.ourRoute == ourRoute && advertisedRoute == ourRoute && this.ourDhtKey == ourDhtKey
      ensures this.receiver == receiver
      ensures routes.routes == map[] && receivedMessageHashes == []
    {
      this.ourRoute := ourRoute;
      this.ourDhtKey := ourDhtKey;
      advertisedRoute := ourRoute;
      this.receiver := receiver;
      routes := new VeilidDuplexRoutes();
      receivedMessageHashes := [];
    }

    /** Sends a message whose JSON blob is `blobLen` bytes long to the peer
        whose route record is `remote`, retrying failed sends. `lookup` is the
        DHT's answer for `remote` and `appCall(n)` the network's answer to
        attempt `n`; `attempts` counts the attempts made. */
    method SendMessage(blobLen: nat, remote: CryptoKey, lookup: Result<RouteEntry>,
                       appCall: nat -> Result<Reply>) returns (r: Result<()>, attempts: nat)
      modifies routes
      ensures SendReport(r, attempts, routes.routes) ==
              SendMessageOutcome(old(routes.routes), remote, lookup, blobLen, appCall)
    {
      attempts := 0;
      ghost var first := LazyRoute(routes.routes, remote, lookup);
      for attemptN := 0 to SEND_ATTEMPTS
        invariant attempts == attemptN
        invariant attemptN == 0 ==> routes.routes == old(routes.routes)
        invariant attemptN > 0 ==> first.result.Ok? && routes.routes == first.routes
        invariant forall j :: 0 <= j < attemptN ==> Send(blobLen, appCall(j)).result.Err?
      {
        if attemptN > 0 {
          LazyRouteIdempotent(old(routes.routes), remote, lookup, lookup);
        }
        var target, _ := routes.GetRoute(remote, lookup);
        if target.Err? {
          r := Err(target.error);
          return;
        }
        attempts := attempts + 1;
        var sent := Send(blobLen, appCall(attemptN));
        if sent.result.Ok? {
          break;
        } else if sent.result.Err? {
          continue;
        }
        // The "Couldn't send reply" branch: both arms above leave the
        // iteration, so control never reaches it.
        assert false;
      }
      r := Ok(());
    }

    /** Replaces our private route with `allocation` and republishes our DHT
        record; `publish` is the DHT's answer to that write. */
    method UpdateLocalRoute(allocation: Result<CryptoKey>, publish: Result<()>) returns (r: Result<()>)
      modifies this
      ensures receiver == old(receiver) && receivedMessageHashes == old(receivedMessageHashes)
      // a failed allocation changes nothing
      ensures allocation.Err? ==>
                (r == Err(allocation.error) && ourRoute == old(ourRoute) && advertisedRoute == old(advertisedRoute))
      // the new route is taken before publishing, so a failed publish keeps it
      // while the DHT still advertises the old one
      ensures allocation.Ok? ==>
                (ourRoute == allocation.value && r == publish &&
                 advertisedRoute == if publish.Ok? then allocation.value else old(advertisedRoute))
    {
      if allocation.Err? {
        return Err(allocation.error);
      }
      ourRoute := allocation.value;
      if publish.Err? {
        return publish;
      }
      advertisedRoute := ourRoute;
      r := publish;
    }

    /** The dead-remote-route loop of a route change. */
    method PruneDeadRemoteRoutes(deadRemoteRoutes: seq<CryptoKey>)
      modifies routes
      ensures PrunedAll(old(routes.routes), routes.routes, deadRemoteRoutes)
    {
      for i := 0 to |deadRemoteRoutes|
        invariant PrunedAll(old(routes.routes), routes.routes, deadRemoteRoutes[..i])
      {
        ghost var before := routes.routes;
        routes.RemoveRouteIfExists(deadRemoteRoutes[i]);
        PrunedAllSnoc(old(routes.routes), before, routes.routes, deadRemoteRoutes[..i], deadRemoteRoutes[i]);
        assert deadRemoteRoutes[..i] + [deadRemoteRoutes[i]] == deadRemoteRoutes[..i + 1];
      }
      assert deadRemoteRoutes[..|deadRemoteRoutes|] == deadRemoteRoutes;
    }

    /** Consumes at most one network update and reacts to it. `delivered`
        says whether the application handler ran. */
    method NetworkLoopCycle(net: NetworkAnswers) returns (r: CycleResult, delivered: bool)
      requires Valid()
      modifies this, routes
      ensures Valid()
      // an empty receiver: nothing happens
      ensures old(receiver) == [] ==>
                r == Returned(Ok(())) && !delivered && receiver == [] &&
                ourRoute == old(ourRoute) && advertisedRoute == old(advertisedRoute) &&
                receivedMessageHashes == old(receivedMessageHashes) && routes.routes == old(routes.routes)
      // otherwise exactly the first update is consumed
      ensures old(receiver) != [] ==> receiver == old(receiver)[1..]
      // an app call goes through the dedup step, which touches no route
      // (the application handler is seen only through `delivered`)
      ensures old(receiver) != [] && old(receiver)[0].AppCall? ==>
                var rec := Receive(old(receivedMessageHashes), old(receiver)[0].msg, net.ackOk);
                receivedMessageHashes == rec.log && delivered == (rec.outcome == Delivered) &&
                r == (if rec.outcome == Malformed then Panicked else Returned(Ok(()))) &&
                ourRoute == old(ourRoute) && advertisedRoute == old(advertisedRoute) &&
                routes.routes == old(routes.routes)
      // a route change never delivers anything
      ensures old(receiver) != [] && old(receiver)[0].RouteChange? ==>
                !delivered && receivedMessageHashes == old(receivedMessageHashes)
      // our route is replaced exactly when it is listed dead
      ensures old(receiver) != [] && old(receiver)[0].RouteChange? &&
              old(ourRoute) !in old(receiver)[0].change.deadRoutes ==>
                r == Returned(Ok(())) && ourRoute == old(ourRoute) && advertisedRoute == old(advertisedRoute) &&
                PrunedAll(old(routes.routes), routes.routes, old(receiver)[0].change.deadRemoteRoutes)
      // a failed allocation stops the cycle before the remote routes are pruned
      ensures old(receiver) != [] && old(receiver)[0].RouteChange? &&
              old(ourRoute) in old(receiver)[0].change.deadRoutes && net.allocation.Err? ==>
                r == Returned(Err(net.allocation.error)) && ourRoute == old(ourRoute) &&
                advertisedRoute == old(advertisedRoute) && routes.routes == old(routes.routes)
      // a failed publish keeps the new route but still skips the pruning
      ensures old(receiver) != [] && old(receiver)[0].RouteChange? &&
              old(ourRoute) in old(receiver)[0].change.deadRoutes && net.allocation.Ok? && net.publish.Err? ==>
                r == Returned(Err(net.publish.error)) && ourRoute == net.allocation.value &&
                advertisedRoute == old(advertisedRoute) && routes.routes == old(routes.routes)
      // a successful replacement is advertised, then the remote routes are pruned
      ensures old(receiver) != [] && old(receiver)[0].RouteChange? &&
              old(ourRoute) in old(receiver)[0].change.deadRoutes && net.allocation.Ok? && net.publish.Ok? ==>
                r == Returned(Ok(())) && ourRoute == net.allocation.value && advertisedRoute == ourRoute &&
                PrunedAll(old(routes.routes), routes.routes, old(receiver)[0].change.deadRemoteRoutes)
      // any other update is consumed and ignored
      ensures old(receiver) != [] && old(receiver)[0].OtherUpdate? ==>
                r == Returned(Ok(())) && !delivered &&
                ourRoute == old(ourRoute) && advertisedRoute == old(advertisedRoute) &&
                receivedMessageHashes == old(receivedMessageHashes) && routes.routes == old(routes.routes)
    {
      delivered := false;
      if receiver == [] {
        return Returned(Ok(())), false;
      }
      var update := receiver[0];
      receiver := receiver[1..];
      match update
      case AppCall(msg) =>
        if !net.ackOk {
          return Returned(Ok(())), false;
        }
        if !msg.wellFormed {
          return Panicked, false;
        }
        if msg.hash in receivedMessageHashes {
          return Returned(Ok(())), false;
        }
        AppendFresh(receivedMessageHashes, msg.hash);
        receivedMessageHashes := receivedMessageHashes + [msg.hash];
        delivered := true;
        r := Returned(Ok(()));
      case RouteChange(change) =>
        CountListedPositive(change.deadRoutes, ourRoute);
        var ourRouteIsDead := CountListed(change.deadRoutes, ourRoute) > 0;
        if ourRouteIsDead {
          var updated := UpdateLocalRoute(net.allocation, net.publish);
          if updated.Err? {
            return Returned(updated), false;
          }
        }
        PruneDeadRemoteRoutes(change.deadRemoteRoutes);
        r := Returned(Ok(()));
      case OtherUpdate =>
        r := Returned(Ok(()));
    }
  }
}
