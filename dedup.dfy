/** Duplicate suppression for inbound app calls: the `received_message_hashes`
    log of `VeilidDuplex` and the steps that consult it. A route that is
    reported broken can make the network deliver the same call twice, so every
    delivered payload's hash is logged and a payload whose hash is already
    logged is dropped. Only byte-identical redeliveries are caught: a retry by
    the sender's `send_message` carries a fresh uuid, hence other bytes and
    another hash, and is delivered again. */
module Dedup {
  import opened Types

  /** What the dedup step sees of an inbound `AppCall`: the hash of its raw
      payload and whether that payload deserialises as an `AppMessage`. */
  datatype Inbound = Inbound(hash: Hash, wellFormed: bool)

  /** How one inbound call ended. `Malformed` is the panic of the
      deserialising `unwrap`; `Delivered` means the application handler ran. */
  datatype Outcome = AckFailed | Malformed | Duplicate | Delivered

  /** The outcome of one call and the hash log afterwards. */
  datatype Reception = Reception(outcome: Outcome, log: seq<Hash>)

  /** No hash occurs twice in the log. */
  predicate NoDuplicates(s: seq<Hash>)
  {
    forall i, j :: 0 <= i < j < |s| ==> s[i] != s[j]
  }

  /** Appending a hash that is not yet logged keeps the log free of duplicates. */
  lemma AppendFresh(log: seq<Hash>, h: Hash)
    requires h !in log
    ensures NoDuplicates(log) ==> NoDuplicates(log + [h])
  {
    if !NoDuplicates(log) {
      return;
    }
    var s := log + [h];
    forall i, j | 0 <= i < j < |s|
      ensures s[i] != s[j]
    {
      if j == |log| {
        assert s[i] == log[i];
      } else {
        assert s[i] == log[i] && s[j] == log[j];
      }
    }
  }

  /** The `AppCall` arm of the network loop: ACK first, then deserialise, then
      consult and extend the log, then run the handler. `ackOk` is whether the
      ACK reply reached the network. */
  function Receive(log: seq<Hash>, msg: Inbound, ackOk: bool): (r: Reception)
    // a failed ACK ends the call before anything else, whatever the payload
    ensures r.outcome == AckFailed <==> !ackOk
    // a payload is handed to the application exactly when it was ACKed,
    // deserialised, and its hash was not yet logged
    ensures r.outcome == Delivered <==> ackOk && msg.wellFormed && msg.hash !in log
    ensures r.outcome == Duplicate <==> ackOk && msg.wellFormed && msg.hash in log
    // the log grows by exactly the delivered hash and by nothing else
    ensures r.log == if r.outcome == Delivered then log + [msg.hash] else log
    // the log stays free of duplicates
    ensures NoDuplicates(log) ==> NoDuplicates(r.log)
  {
    if !ackOk then
      Reception(AckFailed, log)
    else if !msg.wellFormed then
      Reception(Malformed, log)
    else if msg.hash in log then
      Reception(Duplicate, log)
    else
      AppendFresh(log, msg.hash);
      Reception(Delivered, log + [msg.hash])
  }

  /** One inbound call together with the network's answer to its ACK. */
  datatype Arrival = Arrival(msg: Inbound, ackOk: bool)

  /** The log after a run of calls and the hashes handed to the application, in order. */
  datatype Run = Run(log: seq<Hash>, delivered: seq<Hash>)

  /** Successive network-loop cycles over a run of inbound calls. A malformed
      payload panics the loop, so nothing after it is processed. */
  function ReceiveAll(log: seq<Hash>, arrivals: seq<Arrival>): (r: Run)
    // the log grows by exactly the delivered hashes, in delivery order
    ensures r.log == log + r.delivered
    // each arrival is delivered at most once
    ensures |r.delivered| <= |arrivals|
    decreases |arrivals|
  {
    if arrivals == [] then
      Run(log, [])
    else
      var rec := Receive(log, arrivals[0].msg, arrivals[0].ackOk);
      match rec.outcome
      case Malformed => Run(log, [])
      case Delivered =>
        var rest := ReceiveAll(rec.log, arrivals[1..]);
        Run(rest.log, [arrivals[0].msg.hash] + rest.delivered)
      case _ => ReceiveAll(rec.log, arrivals[1..])
  }

  /** The log is the old log followed by exactly the delivered hashes, and
      no payload is delivered twice nor after having been logged before. */
  lemma {:induction false} ReceiveAllDeliversAtMostOnce(log: seq<Hash>, arrivals: seq<Arrival>)
    requires NoDuplicates(log)
    ensures ReceiveAll(log, arrivals).log == log + ReceiveAll(log, arrivals).delivered
    ensures NoDuplicates(ReceiveAll(log, arrivals).log)
    ensures NoDuplicates(ReceiveAll(log, arrivals).delivered)
    ensures forall h :: h in ReceiveAll(log, arrivals).delivered ==> h !in log
    decreases |arrivals|
  {
    if arrivals != [] {
      var rec := Receive(log, arrivals[0].msg, arrivals[0].ackOk);
      if rec.outcome != Malformed {
        ReceiveAllDeliversAtMostOnce(rec.log, arrivals[1..]);
        var rest := ReceiveAll(rec.log, arrivals[1..]);
        if rec.outcome == Delivered {
          var h := arrivals[0].msg.hash;
          assert rec.log + rest.delivered == log + ([h] + rest.delivered);
          var d := [h] + rest.delivered;
          assert log + d == rest.log;
          forall i, j | 0 <= i < j < |d|
            ensures d[i] != d[j]
          {
            assert d[i] == rest.log[|log| + i] && d[j] == rest.log[|log| + j];
          }
          forall x | x in d
            ensures x !in log
          {
            if x != h {
              assert x in rest.delivered;
            }
          }
        }
      }
    }
  }

  /** Every delivered hash is the hash of some arrival of the run. More
      precisely, `idx` names the arrival behind each delivery: that call was
      ACKed and deserialised, and deliveries follow arrival order, since each
      cycle's handler is awaited before the next update is taken. */
  lemma {:induction false} ReceiveAllDeliversArrivals(log: seq<Hash>, arrivals: seq<Arrival>)
    returns (idx: seq<nat>)
    ensures forall h :: h in ReceiveAll(log, arrivals).delivered ==>
              exists i :: 0 <= i < |arrivals| && arrivals[i].msg.hash == h
    ensures |idx| == |ReceiveAll(log, arrivals).delivered|
    ensures forall p, q :: 0 <= p < q < |idx| ==> idx[p] < idx[q]
    ensures forall p :: 0 <= p < |idx| ==>
              idx[p] < |arrivals| && arrivals[idx[p]].ackOk && arrivals[idx[p]].msg.wellFormed &&
              arrivals[idx[p]].msg.hash == ReceiveAll(log, arrivals).delivered[p]
    decreases |arrivals|
  {
    idx := [];
    if arrivals != [] {
      var rec := Receive(log, arrivals[0].msg, arrivals[0].ackOk);
      if rec.outcome != Malformed {
        var rest := ReceiveAllDeliversArrivals(rec.log, arrivals[1..]);
        var shifted := seq(|rest|, p requires 0 <= p < |rest| => rest[p] + 1);
        idx := if rec.outcome == Delivered then [0] + shifted else shifted;
        forall h | h in ReceiveAll(log, arrivals).delivered
          ensures exists i :: 0 <= i < |arrivals| && arrivals[i].msg.hash == h
        {
          if h != arrivals[0].msg.hash {
            assert h in ReceiveAll(rec.log, arrivals[1..]).delivered;
            var i :| 0 <= i < |arrivals[1..]| && arrivals[1..][i].msg.hash == h;
            assert arrivals[i + 1].msg.hash == h;
          }
        }
      }
    }
  }

  /** A payload whose ACK went through ends up logged as received, provided
      no ACKed malformed payload before it (or it itself) panicked the loop.
      An un-ACKed payload returns before it is deserialised, so it cannot panic. */
  lemma {:induction false} ReceiveAllLogsAcked(log: seq<Hash>, arrivals: seq<Arrival>, i: nat)
    requires i < |arrivals| && arrivals[i].ackOk
    requires forall j :: 0 <= j <= i && arrivals[j].ackOk ==> arrivals[j].msg.wellFormed
    ensures arrivals[i].msg.hash in ReceiveAll(log, arrivals).log
    decreases |arrivals|
  {
    var rec := Receive(log, arrivals[0].msg, arrivals[0].ackOk);
    assert rec.outcome != Malformed;
    ReceiveAllKeepsLog(rec.log, arrivals[1..]);
    if i > 0 {
      ReceiveAllLogsAcked(rec.log, arrivals[1..], i - 1);
    }
  }

  /** A run never forgets a logged hash. */
  lemma {:induction false} ReceiveAllKeepsLog(log: seq<Hash>, arrivals: seq<Arrival>)
    ensures forall h :: h in log ==> h in ReceiveAll(log, arrivals).log
    decreases |arrivals|
  {
    if arrivals != [] {
      var rec := Receive(log, arrivals[0].msg, arrivals[0].ackOk);
      if rec.outcome != Malformed {
        ReceiveAllKeepsLog(rec.log, arrivals[1..]);
      }
    }
  }

  /** The same payload delivered twice by the network reaches the application once. */
  lemma RedeliveryDeliveredOnce(log: seq<Hash>, msg: Inbound)
    requires msg.wellFormed && msg.hash !in log
    ensures ReceiveAll(log, [Arrival(msg, true), Arrival(msg, true)]).delivered == [msg.hash]
  {
    var arrivals := [Arrival(msg, true), Arrival(msg, true)];
    var first := Receive(log, msg, true);
    assert first.log == log + [msg.hash];
    assert arrivals[1..] == [Arrival(msg, true)];
    var second := ReceiveAll(first.log, [Arrival(msg, true)]);
    assert Receive(first.log, msg, true).outcome == Duplicate;
    assert [Arrival(msg, true)][1..] == [];
    assert second == ReceiveAll(first.log, []);
  }

  /** A call whose ACK failed is not recorded, so a network redelivery of the
      same bytes is delivered. */
  lemma UnackedCallIsRedelivered(log: seq<Hash>, msg: Inbound)
    requires msg.wellFormed && msg.hash !in log
    ensures ReceiveAll(log, [Arrival(msg, false), Arrival(msg, true)]).delivered == [msg.hash]
  {
    var arrivals := [Arrival(msg, false), Arrival(msg, true)];
    assert Receive(log, msg, false) == Reception(AckFailed, log);
    assert arrivals[1..] == [Arrival(msg, true)];
    assert [Arrival(msg, true)][1..] == [];
    assert ReceiveAll(log + [msg.hash], []).delivered == [];
    assert ReceiveAll(log, [Arrival(msg, true)]).delivered == [msg.hash];
  }
}
