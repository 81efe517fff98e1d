/** Whole runs of one session, public or private: callbacks, new requests and requests to close, in any order. */
module SessionRuns {
  import opened Wrappers
  import opened SubscriptionCodec
  import opened Text
  import opened SessionSpec
  import opened SessionProofs

  /** What can happen to a session: a completion, or one of the two calls its owner may make at any moment. */
  datatype Action = Callback(event: Event) | Accept(request: Subscription) | AskToClose

  predicate Can(s: Session, a: Action, now: int) {
    a.Callback? ==> SessionSpec.Enabled(s, a.event, now)
  }

  function Act(s: Session, a: Action, now: int): Session {
    match a
    case Callback(e) => Apply(s, e, now)
    case Accept(request) => Enqueue(s, request)
    case AskToClose => RequestClose(s)
  }

  /** Action i happens at times[i] and leads from states[i] to states[i + 1]; the last time is that of the last state. */
  ghost predicate Run(states: seq<Session>, actions: seq<Action>, times: seq<int>) {
    && |states| == |actions| + 1 && |times| == |actions| + 1
    && (forall i :: 0 <= i < |actions| ==> times[i] <= times[i + 1])
    && (forall i :: 0 <= i < |actions| ==> Can(states[i], actions[i], times[i]) && states[i + 1] == Act(states[i], actions[i], times[i]))
  }

  /** A run of a session that has just been started with its first request. */
  ghost predicate Life(states: seq<Session>, actions: seq<Action>, times: seq<int>, isPrivate: bool, request: Subscription) {
    && Run(states, actions, times)
    && 0 < states[0].createdAt <= times[0] && states[0] == Start(isPrivate, request, states[0].createdAt)
  }

  lemma InvInTime(s: Session, now: int, later: int)
    requires Inv(s, now) && now <= later
    ensures Inv(s, later)
  {
  }

  lemma ActInv(s: Session, a: Action, now: int)
    requires Inv(s, now) && Can(s, a, now) && now > 0
    ensures Inv(Act(s, a, now), now)
  {
    match a
    case Callback(e) => ApplyInv(s, e, now);
    case Accept(request) => EnqueueInv(s, request, now);
    case AskToClose => ClosesInv(s, s.closes + 1, now);
  }

  lemma {:induction false} RunInv(states: seq<Session>, actions: seq<Action>, times: seq<int>, n: nat)
    requires Run(states, actions, times) && n <= |actions| && times[0] > 0 && Inv(states[0], times[0])
    ensures Inv(states[n], times[n]) && times[0] <= times[n]
  {
    if n > 0 {
      RunInv(states, actions, times, n - 1);
      ActInv(states[n - 1], actions[n - 1], times[n - 1]);
      InvInTime(states[n], times[n - 1], times[n]);
    }
  }

  lemma LifeStartInv(states: seq<Session>, actions: seq<Action>, times: seq<int>, isPrivate: bool, request: Subscription)
    requires Life(states, actions, times, isPrivate, request)
    ensures Inv(states[0], times[0]) && states[0].isPrivate == isPrivate && times[0] > 0
    ensures states[0].wire == [] && states[0].open && !states[0].staleClosed
  {
    StartInv(isPrivate, request, states[0].createdAt);
    InvInTime(states[0], states[0].createdAt, times[0]);
  }

  // ----- single effects ------------------------------------------------------------------------

  predicate Opens(e: Event) { e.OpDone? && e.op.WsHandshake? && e.ok }

  /** What handling one inbound message leaves behind when the read was the only operation outstanding. */
  lemma ReadDoneFacts(s: Session, inbound: Inbound)
    requires s.tasks.chain == multiset{Started(Read, true)}
    ensures var t := OnReadDone(s, inbound);
      && t.open == s.open && t.isPrivate == s.isPrivate
      && t.pending == (if inbound.Malformed? then s.pending else Rest(s.pending))
      && t.tasks.chain == (if inbound.Malformed? then multiset{} else multiset{Started(if s.pending == [] then Read else Write, s.open)})
      && t.wire == s.wire + [Received(inbound)] + (if inbound.Malformed? || s.pending == [] then [] else [Sent(SubscribeFrame(s.pending[0]))])
      && (t.closes > s.closes <==> inbound.Malformed? || (!s.isPrivate && s.pending == [] && t.acked == []))
  {
    var s0 := Without(s, Read, true);
    assert s0.tasks.chain == multiset{};
  }

  /** Only a finished handshake and a handled message touch the wire or the queue. */
  lemma QuietEvents(s: Session, e: Event, now: int)
    requires !Opens(e) && !e.ReadDone?
    ensures var t := Apply(s, e, now);
      t.wire == s.wire && t.pending == s.pending && t.accepted == s.accepted && t.isPrivate == s.isPrivate && t.connectedAtMs == s.connectedAtMs
    ensures !e.OpDone? && s.tasks.chain == multiset{} ==> Apply(s, e, now).tasks.chain == multiset{}
  {
    match e
    case OpDone(op, live, ok) => if ok {} else {}
    case ReadFailed(live, tickQueued) =>
    case TimerFired(due) =>
    case TimerAborted =>
    case CloseDone(tickQueued) =>
    case Pong =>
    case TransportLost =>
  }

  lemma OpenedFacts(s: Session, live: bool, now: int)
    ensures var t := Apply(s, OpDone(WsHandshake, live, true), now);
      && t == Opened(Without(s, WsHandshake, live), now)
      && t.isPrivate == s.isPrivate && t.accepted == s.accepted && t.connectedAtMs == now
      && t.pending == (if LogsIn(s) then s.pending else Rest(s.pending))
      && t.wire == s.wire + [Sent(if LogsIn(s) then LoginFrame(now) else NextFrame(s.pending))]
  {
  }

  // ----- the subscription queue on runs --------------------------------------------------------

  /** The moments at which a session flushes one queued request: a message handled without a parse failure, and the handshake unless it logs in. */
  predicate Flushes(s: Session, a: Action) {
    a.Callback? && ((a.event.ReadDone? && !a.event.inbound.Malformed?) || (Opens(a.event) && !LogsIn(s)))
  }

  function Accepted(s: Session, a: Action): seq<Subscription> {
    if a.Accept? && a.request !in s.acked && a.request !in s.pending then [a.request] else []
  }

  /** One step for the queue: what was accepted, what went out and what stays. */
  ghost predicate QueueStep(s: Session, t: Session, flushes: bool, accepted: seq<Subscription>) {
    && t.accepted == s.accepted + accepted
    && t.pending == (if flushes then Rest(s.pending) else s.pending + accepted)
    && Requests(t.wire) == Requests(s.wire) + (if flushes && s.pending != [] then [s.pending[0]] else [])
  }

  lemma ReadStep(s: Session, inbound: Inbound)
    requires s.tasks.chain == multiset{Started(Read, true)}
    ensures QueueStep(s, OnReadDone(s, inbound), !inbound.Malformed?, [])
  {
    ReadDoneFacts(s, inbound);
    RequestsSnoc(s.wire, Received(inbound));
    if s.pending != [] {
      RequestsSnoc(s.wire + [Received(inbound)], Sent(SubscribeFrame(s.pending[0])));
    }
  }

  lemma OpenStep(s: Session, live: bool, now: int)
    ensures QueueStep(s, Apply(s, OpDone(WsHandshake, live, true), now), !LogsIn(s), [])
  {
    OpenedFacts(s, live, now);
    RequestsSnoc(s.wire, Sent(if LogsIn(s) then LoginFrame(now) else NextFrame(s.pending)));
  }

  lemma FlushCallback(s: Session, e: Event, now: int)
    requires Inv(s, now) && SessionSpec.Enabled(s, e, now)
    ensures QueueStep(s, Apply(s, e, now), Flushes(s, Callback(e)), [])
  {
    if e.ReadDone? {
      SoleElement(s.tasks.chain, Started(Read, true));
      ReadStep(s, e.inbound);
      assert Apply(s, e, now) == OnReadDone(s, e.inbound);
    } else if Opens(e) {
      OpenStep(s, e.live, now);
    } else {
      QuietEvents(s, e, now);
    }
  }

  /** Each such moment writes the oldest queued request, if there is one; nothing else writes or drops a request. */
  lemma FlushStep(s: Session, a: Action, now: int)
    requires Inv(s, now) && Can(s, a, now)
    ensures QueueStep(s, Act(s, a, now), Flushes(s, a), Accepted(s, a))
  {
    if a.Callback? {
      FlushCallback(s, a.event, now);
    }
  }

  /** How many of the first n actions were moments to flush, and how many of those found a request queued. */
  function Chances(states: seq<Session>, actions: seq<Action>, n: nat): nat
    requires n <= |actions| < |states|
  {
    if n == 0 then 0 else Chances(states, actions, n - 1) + if Flushes(states[n - 1], actions[n - 1]) then 1 else 0
  }

  function Taken(states: seq<Session>, actions: seq<Action>, n: nat): nat
    requires n <= |actions| < |states|
  {
    if n == 0 then 0
    else Taken(states, actions, n - 1) + if Flushes(states[n - 1], actions[n - 1]) && states[n - 1].pending != [] then 1 else 0
  }

  function Min(a: nat, b: nat): nat { if a < b then a else b }

  /** Of `total` the first `taken` have gone out since `sent` was written, and the rest is queued. */
  ghost predicate Shipped(total: seq<Subscription>, taken: nat, pending: seq<Subscription>, sent: seq<Subscription>, now: seq<Subscription>) {
    taken <= |total| && pending == total[taken..] && now == sent + total[..taken]
  }

  lemma ShipNext(total: seq<Subscription>, taken: nat, pending: seq<Subscription>, sent: seq<Subscription>, now: seq<Subscription>)
    requires Shipped(total, taken, pending, sent, now) && pending != []
    ensures Shipped(total, taken + 1, pending[1..], sent, now + [pending[0]])
  {
    assert total[..taken + 1] == total[..taken] + [total[taken]];
  }

  lemma ShipLater(total: seq<Subscription>, more: seq<Subscription>, taken: nat, pending: seq<Subscription>, sent: seq<Subscription>, now: seq<Subscription>)
    requires Shipped(total, taken, pending, sent, now)
    ensures Shipped(total + more, taken, pending + more, sent, now)
  {
    assert (total + more)[..taken] == total[..taken];
  }

  function Since(s: Session, t: Session): seq<Subscription> {
    s.pending + if |s.accepted| <= |t.accepted| then t.accepted[|s.accepted|..] else []
  }

  lemma ShippedStep(s: Session, u: Session, t: Session, taken: nat, flushes: bool, accepted: seq<Subscription>)
    requires |s.accepted| <= |u.accepted| && Shipped(Since(s, u), taken, u.pending, Requests(s.wire), Requests(u.wire))
    requires QueueStep(u, t, flushes, accepted) && (flushes ==> accepted == [])
    ensures |s.accepted| <= |t.accepted| && Since(s, t) == Since(s, u) + accepted
    ensures Shipped(Since(s, t), if flushes && u.pending != [] then taken + 1 else taken, t.pending, Requests(s.wire), Requests(t.wire))
  {
    assert t.accepted[|s.accepted|..] == u.accepted[|s.accepted|..] + accepted;
    Associates(s.pending, u.accepted[|s.accepted|..], accepted);
    if flushes && u.pending != [] {
      ShipNext(Since(s, u), taken, u.pending, Requests(s.wire), Requests(u.wire));
      assert Since(s, t) == Since(s, u);
    } else {
      ShipLater(Since(s, u), accepted, taken, u.pending, Requests(s.wire), Requests(u.wire));
      assert Requests(u.wire) + [] == Requests(u.wire);
    }
  }

  /**
   From s to t, with that many moments to flush of which `taken` found a request: what was queued and what
   was accepted since went out in order, one request at each such moment, and the rest is queued. The first
   min(moments, queued) of the requests queued at s have gone out; without new requests exactly those.
   */
  ghost predicate Flushed(s: Session, t: Session, chances: nat, taken: nat) {
    && |s.accepted| <= |t.accepted|
    && Shipped(Since(s, t), taken, t.pending, Requests(s.wire), Requests(t.wire))
    && Min(chances, |s.pending|) <= taken <= chances
    && (t.accepted == s.accepted ==> taken == Min(chances, |s.pending|))
  }

  lemma FlushedStep(s: Session, u: Session, t: Session, chances: nat, taken: nat, flushes: bool, accepted: seq<Subscription>)
    requires Flushed(s, u, chances, taken) && QueueStep(u, t, flushes, accepted) && (flushes ==> accepted == [])
    ensures Flushed(s, t, chances + if flushes then 1 else 0, taken + if flushes && u.pending != [] then 1 else 0)
  {
    ShippedStep(s, u, t, taken, flushes, accepted);
    assert |u.pending| == |Since(s, u)| - taken;
    if t.accepted == s.accepted {
      assert accepted == [];
      assert u.accepted == s.accepted;
      assert |Since(s, u)| == |s.pending|;
    }
  }

  lemma FlushedStart(s: Session)
    ensures Flushed(s, s, 0, 0)
  {
    assert Since(s, s) == s.pending;
  }

  ghost predicate QueueSteps(states: seq<Session>, actions: seq<Action>) {
    && |states| == |actions| + 1
    && forall i :: 0 <= i < |actions| ==> QueueStep(states[i], states[i + 1], Flushes(states[i], actions[i]), Accepted(states[i], actions[i]))
  }

  lemma {:induction false} FlushedAlong(states: seq<Session>, actions: seq<Action>, n: nat)
    requires QueueSteps(states, actions) && n <= |actions|
    ensures Flushed(states[0], states[n], Chances(states, actions, n), Taken(states, actions, n))
  {
    if n == 0 {
      FlushedStart(states[0]);
    } else {
      FlushedAlong(states, actions, n - 1);
      var u, a := states[n - 1], actions[n - 1];
      FlushedStep(states[0], u, states[n], Chances(states, actions, n - 1), Taken(states, actions, n - 1), Flushes(u, a), Accepted(u, a));
    }
  }

  /** This holds from any state of any run to any later one, whatever else happens in between. */
  lemma FlushedInOrder(states: seq<Session>, actions: seq<Action>, times: seq<int>, n: nat)
    requires Run(states, actions, times) && n <= |actions| && times[0] > 0 && Inv(states[0], times[0])
    ensures Flushed(states[0], states[n], Chances(states, actions, n), Taken(states, actions, n))
  {
    forall i | 0 <= i < |actions|
      ensures QueueStep(states[i], states[i + 1], Flushes(states[i], actions[i]), Accepted(states[i], actions[i]))
    {
      RunInv(states, actions, times, i);
      FlushStep(states[i], actions[i], times[i]);
    }
    FlushedAlong(states, actions, n);
  }
}
