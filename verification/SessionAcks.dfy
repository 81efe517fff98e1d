/** What acknowledgements do, told from the wire alone: the acknowledged list, staying open, and not asking twice. */
module SessionAcks {
  import opened Wrappers
  import opened SubscriptionCodec
  import opened SessionSpec
  import opened SessionProofs
  import opened SessionRuns
  import SessionTheorems

  /** How often a request counts as acknowledged: one more for each acknowledgement, one less, down to none, for each unsubscription. */
  function AckCount(wire: seq<WireEvent>, sub: Subscription): nat {
    if wire == [] then 0
    else
      var before, last := AckCount(wire[..|wire| - 1], sub), wire[|wire| - 1];
      if last == Received(SubscribeAck(sub)) then before + 1
      else if last == Received(UnsubscribeAck(sub)) && before > 0 then before - 1
      else before
  }

  lemma {:induction false} RemoveFirstCounts(subs: seq<Subscription>, removed: Subscription, sub: Subscription)
    ensures multiset(RemoveFirst(subs, removed))[sub] ==
            if sub == removed && multiset(subs)[sub] > 0 then multiset(subs)[sub] - 1 else multiset(subs)[sub]
  {
    if subs != [] {
      assert subs == [subs[0]] + subs[1..];
      if subs[0] != removed {
        RemoveFirstCounts(subs[1..], removed, sub);
      }
    }
  }

  /** The acknowledged list agrees with the wire. */
  ghost predicate AckedAsTold(s: Session, sub: Subscription) {
    multiset(s.acked)[sub] == AckCount(s.wire, sub)
  }

  lemma AckCountSnoc(wire: seq<WireEvent>, e: WireEvent, sub: Subscription)
    ensures AckCount(wire + [e], sub) ==
            if e == Received(SubscribeAck(sub)) then AckCount(wire, sub) + 1
            else if e == Received(UnsubscribeAck(sub)) && AckCount(wire, sub) > 0 then AckCount(wire, sub) - 1
            else AckCount(wire, sub)
  {
    assert (wire + [e])[..|wire|] == wire;
  }

  lemma NextAckedCounts(acked: seq<Subscription>, inbound: Inbound, sub: Subscription)
    ensures multiset(NextAcked(acked, inbound))[sub] ==
            if inbound == SubscribeAck(sub) then multiset(acked)[sub] + 1
            else if inbound == UnsubscribeAck(sub) && multiset(acked)[sub] > 0 then multiset(acked)[sub] - 1
            else multiset(acked)[sub]
  {
    if inbound.UnsubscribeAck? {
      RemoveFirstCounts(acked, inbound.sub, sub);
    }
  }

  lemma ReadAcks(s: Session, inbound: Inbound, sub: Subscription)
    requires s.tasks.chain == multiset{Started(Read, true)} && AckedAsTold(s, sub)
    ensures AckedAsTold(OnReadDone(s, inbound), sub) && OnReadDone(s, inbound).acked == NextAcked(s.acked, inbound)
  {
    ReadDoneFacts(s, inbound);
    NextAckedCounts(s.acked, inbound, sub);
    AckCountSnoc(s.wire, Received(inbound), sub);
    if !inbound.Malformed? && s.pending != [] {
      AckCountSnoc(s.wire + [Received(inbound)], Sent(SubscribeFrame(s.pending[0])), sub);
    }
  }

  lemma QuietAcks(s: Session, e: Event, now: int)
    requires !e.ReadDone?
    ensures Apply(s, e, now).acked == s.acked
  {
    if e.OpDone? {
      OpAcks(s, e.op, e.live, e.ok, now);
    }
  }

  lemma OpAcks(s: Session, op: Op, live: bool, ok: bool, now: int)
    ensures OnOpDone(s, op, live, ok, now).acked == s.acked
  {
  }

  lemma OpenAcks(s: Session, live: bool, now: int, sub: Subscription)
    requires AckedAsTold(s, sub)
    ensures AckedAsTold(Apply(s, OpDone(WsHandshake, live, true), now), sub)
  {
    OpenedFacts(s, live, now);
    QuietAcks(s, OpDone(WsHandshake, live, true), now);
    AckCountSnoc(s.wire, Sent(if LogsIn(s) then LoginFrame(now) else NextFrame(s.pending)), sub);
  }

  lemma CallbackAcks(s: Session, e: Event, now: int, sub: Subscription)
    requires Inv(s, now) && SessionSpec.Enabled(s, e, now) && AckedAsTold(s, sub)
    ensures AckedAsTold(Apply(s, e, now), sub)
  {
    if e.ReadDone? {
      SoleElement(s.tasks.chain, Started(Read, true));
      ReadAcks(s, e.inbound, sub);
      assert Apply(s, e, now) == OnReadDone(s, e.inbound);
    } else if Opens(e) {
      OpenAcks(s, e.live, now, sub);
    } else {
      QuietEvents(s, e, now);
      QuietAcks(s, e, now);
    }
  }

  lemma ActAcks(s: Session, a: Action, now: int, sub: Subscription)
    requires Inv(s, now) && Can(s, a, now) && AckedAsTold(s, sub)
    ensures AckedAsTold(Act(s, a, now), sub)
  {
    if a.Callback? {
      CallbackAcks(s, a.event, now, sub);
    }
  }

  /** On every run a request stands in the acknowledged list exactly as often as the messages received say. */
  lemma {:induction false} AckedOnLives(
      states: seq<Session>, actions: seq<Action>, times: seq<int>, isPrivate: bool, request: Subscription, n: nat, sub: Subscription)
    requires Life(states, actions, times, isPrivate, request) && n <= |actions|
    ensures AckedAsTold(states[n], sub)
  {
    if n > 0 {
      AckedOnLives(states, actions, times, isPrivate, request, n - 1, sub);
      SessionTheorems.LifeInv(states, actions, times, isPrivate, request, n - 1);
      ActAcks(states[n - 1], actions[n - 1], times[n - 1], sub);
    }
  }

  /** A subscribe acknowledgement is recorded, keeps even a public session open, and makes asking again pointless. */
  lemma AckRecorded(s: Session, sub: Subscription, now: int)
    requires Inv(s, now) && Started(Read, true) in s.tasks.chain
    ensures var t := Apply(s, ReadDone(SubscribeAck(sub)), now);
      && t.acked == s.acked + [sub] && t.closes == s.closes && Enqueue(t, sub) == t
      && t.isPrivate == s.isPrivate && t.authenticated == s.authenticated
  {
    SoleElement(s.tasks.chain, Started(Read, true));
    ReadDoneFacts(s, SubscribeAck(sub));
    assert Apply(s, ReadDone(SubscribeAck(sub)), now) == OnReadDone(s, SubscribeAck(sub));
    assert sub in s.acked + [sub];
  }

  // ----- never asked twice ---------------------------------------------------------------------

  predicate Unsubscribes(a: Action, sub: Subscription) {
    a == Callback(ReadDone(UnsubscribeAck(sub)))
  }

  /** While a request is acknowledged it is not accepted again. */
  predicate NotAskedAgain(s: Session, t: Session, sub: Subscription) {
    sub in s.acked ==> sub in t.acked && multiset(t.accepted)[sub] == multiset(s.accepted)[sub]
  }

  lemma AckedStays(acked: seq<Subscription>, inbound: Inbound, sub: Subscription)
    requires sub in acked && inbound != UnsubscribeAck(sub)
    ensures sub in NextAcked(acked, inbound)
  {
    NextAckedCounts(acked, inbound, sub);
    assert multiset(acked)[sub] > 0;
    assert sub in multiset(NextAcked(acked, inbound));
  }

  lemma ActNotAskedAgain(s: Session, a: Action, now: int, sub: Subscription)
    requires Inv(s, now) && Can(s, a, now) && !Unsubscribes(a, sub)
    ensures NotAskedAgain(s, Act(s, a, now), sub)
  {
    FlushStep(s, a, now);
    if sub in s.acked && a.Callback? {
      if a.event.ReadDone? {
        SoleElement(s.tasks.chain, Started(Read, true));
        assert Apply(s, a.event, now) == OnReadDone(s, a.event.inbound);
        AckedStays(s.acked, a.event.inbound, sub);
        ReadAcked(s, a.event.inbound);
      } else {
        QuietAcks(s, a.event, now);
      }
    }
  }

  lemma ReadAcked(s: Session, inbound: Inbound)
    ensures OnReadDone(s, inbound).acked == NextAcked(s.acked, inbound)
  {
  }

  lemma {:induction false} NotAskedAlong(states: seq<Session>, i: nat, n: nat, sub: Subscription)
    requires i <= n < |states| && forall k :: i <= k < n ==> NotAskedAgain(states[k], states[k + 1], sub)
    ensures NotAskedAgain(states[i], states[n], sub)
  {
    if i < n {
      NotAskedAlong(states, i, n - 1, sub);
      assert NotAskedAgain(states[n - 1], states[n - 1 + 1], sub);
    }
  }

  /** What has been written stays written. */
  lemma {:induction false} WrittenStays(
      states: seq<Session>, actions: seq<Action>, times: seq<int>, isPrivate: bool, request: Subscription, i: nat, n: nat)
    requires Life(states, actions, times, isPrivate, request) && i <= n <= |actions|
    ensures Requests(states[i].wire) <= Requests(states[n].wire)
  {
    if i < n {
      WrittenStays(states, actions, times, isPrivate, request, i, n - 1);
      SessionTheorems.LifeInv(states, actions, times, isPrivate, request, n - 1);
      FlushStep(states[n - 1], actions[n - 1], times[n - 1]);
    }
  }

  /**
   On every run a request that is acknowledged and not unsubscribed since stays acknowledged and is not
   accepted again: what has been written of it and what is queued add up to the same. So it is written
   again only if it was still queued when it was acknowledged, and otherwise never.
   */
  lemma NeverWrittenAgain(
      states: seq<Session>, actions: seq<Action>, times: seq<int>, isPrivate: bool, request: Subscription, i: nat, n: nat, sub: Subscription)
    requires Life(states, actions, times, isPrivate, request) && i <= n <= |actions|
    requires sub in states[i].acked && forall k :: i <= k < n ==> !Unsubscribes(actions[k], sub)
    ensures sub in states[n].acked
    ensures multiset(Requests(states[n].wire))[sub] + multiset(states[n].pending)[sub] ==
            multiset(Requests(states[i].wire))[sub] + multiset(states[i].pending)[sub]
    ensures Requests(states[i].wire) <= Requests(states[n].wire)
    ensures sub !in states[i].pending ==> sub !in states[n].pending && sub !in Requests(states[n].wire)[|Requests(states[i].wire)|..]
  {
    forall k | i <= k < n ensures NotAskedAgain(states[k], states[k + 1], sub) {
      SessionTheorems.LifeInv(states, actions, times, isPrivate, request, k);
      ActNotAskedAgain(states[k], actions[k], times[k], sub);
    }
    NotAskedAlong(states, i, n, sub);
    SessionTheorems.LifeInv(states, actions, times, isPrivate, request, i);
    SessionTheorems.LifeInv(states, actions, times, isPrivate, request, n);
    CountsAdd(Requests(states[i].wire), states[i].pending, sub);
    CountsAdd(Requests(states[n].wire), states[n].pending, sub);
    WrittenStays(states, actions, times, isPrivate, request, i, n);
    if sub !in states[i].pending {
      NothingNew(Requests(states[i].wire), Requests(states[n].wire), states[i].pending, states[n].pending, sub);
    }
  }

  lemma CountsAdd(a: seq<Subscription>, b: seq<Subscription>, sub: Subscription)
    ensures multiset(a + b)[sub] == multiset(a)[sub] + multiset(b)[sub]
  {
  }

  lemma NothingNew(earlier: seq<Subscription>, later: seq<Subscription>, queued: seq<Subscription>, still: seq<Subscription>, sub: Subscription)
    requires earlier <= later && sub !in queued
    requires multiset(later)[sub] + multiset(still)[sub] == multiset(earlier)[sub] + multiset(queued)[sub]
    ensures sub !in still && sub !in later[|earlier|..]
  {
    var more := later[|earlier|..];
    assert later == earlier + more;
    CountsAdd(earlier, more, sub);
    assert sub !in multiset(queued);
    assert sub in still ==> sub in multiset(still);
    assert sub in more ==> sub in multiset(more);
  }
}
