/** The session object with the fields and callbacks of the code, proved against the functions of SessionSpec. */
module WsSession {
  import opened Wrappers
  import opened SubscriptionCodec
  import opened SessionSpec

  /** What the code does not remember but the proofs talk about. */
  datatype History = History(timerCancelled: bool, accepted: seq<Subscription>, wire: seq<WireEvent>)

  lemma {:induction false} RemoveFirstAt(subs: seq<Subscription>, sub: Subscription, i: nat)
    requires i <= |subs| && sub !in subs[..i] && (i < |subs| ==> subs[i] == sub)
    ensures RemoveFirst(subs, sub) == if i < |subs| then subs[..i] + subs[i + 1..] else subs
  {
    if i > 0 {
      assert subs[0] in subs[..i];
      assert subs[1..][..i - 1] == subs[..i][1..];
      RemoveFirstAt(subs[1..], sub, i - 1);
    }
  }

  class WebSocketSession {
    const isPrivate: bool  // a login provider is set
    const createdAt: int
    var timerExpiry: int
    var loginSent: bool
    var authenticated: bool
    var subscriptions: seq<Subscription>
    var pendingSubscriptions: seq<Subscription>
    var lastPongMs: int
    var connectedAtMs: int
    var staleClosed: bool
    var tasks: Tasks  // what asio holds for this session
    var open: bool
    var closes: nat
    ghost var history: History

    ghost function View(): Session
      reads this
    {
      Session(isPrivate, createdAt, timerExpiry, loginSent, authenticated, subscriptions, pendingSubscriptions,
              lastPongMs, connectedAtMs, staleClosed, tasks, open, closes,
              history.timerCancelled, history.accepted, history.wire)
    }

    constructor (isPrivate: bool, now: int)
      ensures View() == Create(isPrivate, now)
    {
      this.isPrivate := isPrivate;
      createdAt, timerExpiry := now, now + PING_INTERVAL_MS;
      loginSent, authenticated, staleClosed := false, false, false;
      subscriptions, pendingSubscriptions := [], [];
      history := History(false, [], []);
      lastPongMs, connectedAtMs := 0, 0;
      tasks := Tasks(multiset{}, multiset{});
      open, closes := true, 0;
    }

    method Run(request: Subscription)
      modifies this
      ensures View() == StartOp(Enqueue(old(View()), request), Resolve)
    {
      WriteSubscriptionRequest(request);
      tasks := AddOp(tasks, Started(Resolve, open));
    }

    /** Two linear scans, then append: a request already acknowledged or queued is dropped. */
    method WriteSubscriptionRequest(request: Subscription)
      modifies this
      ensures View() == Enqueue(old(View()), request)
    {
      for i := 0 to |subscriptions|
        invariant request !in subscriptions[..i]
        invariant View() == old(View())
      {
        if subscriptions[i] == request {
          return;
        }
      }
      for i := 0 to |pendingSubscriptions|
        invariant request !in subscriptions && request !in pendingSubscriptions[..i]
        invariant View() == old(View())
      {
        if pendingSubscriptions[i] == request {
          return;
        }
      }
      pendingSubscriptions := pendingSubscriptions + [request];
      history := history.(accepted := history.accepted + [request]);
    }

    /** Pops the oldest queued request; None stands for the empty string. */
    method ReadSubscriptionRequest() returns (request: Option<Subscription>)
      modifies this`pendingSubscriptions
      ensures pendingSubscriptions == Rest(old(pendingSubscriptions))
      ensures request == if old(pendingSubscriptions) == [] then None else Some(old(pendingSubscriptions)[0])
    {
      if pendingSubscriptions == [] {
        return None;
      }
      request := Some(pendingSubscriptions[0]);
      pendingSubscriptions := pendingSubscriptions[1..];
    }

    method OnResolve(live: bool, ok: bool)
      modifies this
      ensures View() == if ok then StartOp(Without(old(View()), Resolve, live), Connect) else Without(old(View()), Resolve, live)
    {
      tasks := tasks.(chain := tasks.chain - multiset{Started(Resolve, live)});
      if !ok {
        return;
      }
      tasks := AddOp(tasks, Started(Connect, open));
    }

    method OnConnect(live: bool, ok: bool)
      modifies this
      ensures View() == if ok then StartOp(Without(old(View()), Connect, live), TlsHandshake) else Without(old(View()), Connect, live)
    {
      tasks := tasks.(chain := tasks.chain - multiset{Started(Connect, live)});
      if !ok {
        return;
      }
      tasks := AddOp(tasks, Started(TlsHandshake, open));
    }

    method OnSslHandshake(live: bool, ok: bool)
      modifies this
      ensures View() == if ok then StartOp(Without(old(View()), TlsHandshake, live), WsHandshake) else Without(old(View()), TlsHandshake, live)
    {
      tasks := tasks.(chain := tasks.chain - multiset{Started(TlsHandshake, live)});
      if !ok {
        return;
      }
      tasks := AddOp(tasks, Started(WsHandshake, open));
    }

    method OnHandshake(live: bool, ok: bool, now: int)
      modifies this
      ensures View() == OnOpDone(old(View()), WsHandshake, live, ok, now)
    {
      ghost var s := Without(View(), WsHandshake, live);
      tasks := tasks.(chain := tasks.chain - multiset{Started(WsHandshake, live)});
      assert View() == s;
      if ok {
        Open(now);
      }
    }

    /** The part of onHandshake after the error check: start the timer wait; log in, or send the first subscription. */
    method Open(now: int)
      modifies this
      ensures View() == Opened(old(View()), now)
    {
      OpenFields(now);
    }

    method OpenFields(now: int)
      modifies this`connectedAtMs, this`loginSent, this`pendingSubscriptions, this`history, this`tasks
      ensures connectedAtMs == now
      ensures loginSent == (old(loginSent) || isPrivate)
      ensures pendingSubscriptions == if isPrivate && !old(loginSent) then old(pendingSubscriptions) else Rest(old(pendingSubscriptions))
      ensures history == old(history).(
              wire := old(history.wire) + [Sent(if isPrivate && !old(loginSent) then LoginFrame(now) else NextFrame(old(pendingSubscriptions)))])
      ensures tasks == AddOp(AddWait(old(tasks), Armed(timerExpiry)), Started(Write, open))
    {
      connectedAtMs := now;
      tasks := AddWait(tasks, Armed(timerExpiry));
      if isPrivate && !loginSent {
        loginSent := true;
        AsyncWrite(LoginFrame(now));
      } else {
        var request := ReadSubscriptionRequest();
        AsyncWrite(if request.Some? then SubscribeFrame(request.value) else EmptyFrame);
      }
    }

    method AsyncWrite(frame: Frame)
      modifies this`history, this`tasks
      ensures history == old(history).(wire := old(history.wire) + [Sent(frame)])
      ensures tasks == AddOp(old(tasks), Started(Write, open))
    {
      history := history.(wire := history.wire + [Sent(frame)]);
      tasks := AddOp(tasks, Started(Write, open));
    }

    method OnWrite(live: bool, ok: bool)
      modifies this
      ensures View() == if ok then StartOp(Without(old(View()), Write, live), Read) else Without(old(View()), Write, live)
    {
      tasks := tasks.(chain := tasks.chain - multiset{Started(Write, live)});
      if !ok {
        return;
      }
      tasks := AddOp(tasks, Started(Read, open));
    }

    method HandleControlEvent(inbound: Inbound)
      modifies this`authenticated, this`subscriptions
      ensures authenticated == NextAuthenticated(old(authenticated), inbound)
      ensures subscriptions == NextAcked(old(subscriptions), inbound)
    {
      match inbound
      case LoginAck =>
        authenticated := true;
      case LoginRefused(_) =>
        authenticated := false;
      case SubscribeAck(sub) =>
        subscriptions := subscriptions + [sub];
      case UnsubscribeAck(sub) =>
        Erase(sub);
      case _ =>
    }

    /** Finds the first occurrence and erases it, if there is one. */
    method Erase(sub: Subscription)
      modifies this`subscriptions
      ensures subscriptions == RemoveFirst(old(subscriptions), sub)
    {
      var i := 0;
      while i < |subscriptions| && subscriptions[i] != sub
        invariant 0 <= i <= |subscriptions| && sub !in subscriptions[..i]
      {
        i := i + 1;
      }
      RemoveFirstAt(subscriptions, sub, i);
      if i < |subscriptions| {
        subscriptions := subscriptions[..i] + subscriptions[i + 1..];
      }
    }

    method OnRead(inbound: Inbound)
      modifies this
      ensures View() == OnReadDone(old(View()), inbound)
    {
      Receive(inbound);
      if inbound.Malformed? {
        closes := closes + 1;
      } else {
        FlushOrListen();
      }
    }

    /** The read is over and its message has been handled. */
    method Receive(inbound: Inbound)
      modifies this
      ensures View() == HandleControl(Without(old(View()), Read, true).(wire := old(history.wire) + [Received(inbound)]), inbound)
    {
      tasks := tasks.(chain := tasks.chain - multiset{Started(Read, true)});
      history := history.(wire := history.wire + [Received(inbound)]);
      if !inbound.Malformed? {
        HandleControlEvent(inbound);
      }
    }

    /** Flush one queued request, or read on; a public session with nothing to do asks to close first. */
    method FlushOrListen()
      modifies this`pendingSubscriptions, this`history, this`tasks, this`closes
      ensures pendingSubscriptions == Rest(old(pendingSubscriptions))
      ensures history == if old(pendingSubscriptions) == [] then old(history)
                         else old(history).(wire := old(history.wire) + [Sent(SubscribeFrame(old(pendingSubscriptions)[0]))])
      ensures tasks == AddOp(old(tasks), Started(if old(pendingSubscriptions) == [] then Read else Write, open))
      ensures closes == if old(Idle(View())) then old(closes) + 1 else old(closes)
    {
      var request := ReadSubscriptionRequest();
      if request.Some? {
        AsyncWrite(SubscribeFrame(request.value));
      } else {
        if subscriptions == [] && pendingSubscriptions == [] && !isPrivate {
          closes := closes + 1;
        }
        tasks := AddOp(tasks, Started(Read, open));
      }
    }

    method Cancel(tickQueued: bool)
      modifies this`tasks, this`history
      ensures View() == CancelTimer(old(View()), tickQueued)
    {
      if !tickQueued && tasks.waits != multiset{} {
        tasks := tasks.(waits := multiset{Aborted});
        history := history.(timerCancelled := true);
      }
    }

    method OnReadError(live: bool, tickQueued: bool)
      modifies this
      ensures View() == CancelTimer(Without(old(View()), Read, live), tickQueued)
    {
      tasks := tasks.(chain := tasks.chain - multiset{Started(Read, live)});
      Cancel(tickQueued);
    }

    method Close()
      modifies this`closes
      ensures View() == RequestClose(old(View()))
    {
      closes := closes + 1;
    }

    method OnClose(tickQueued: bool)
      requires closes > 0
      modifies this
      ensures View() == CancelTimer(old(View()).(closes := old(closes) - 1), tickQueued)
    {
      closes := closes - 1;
      Cancel(tickQueued);
    }

    function SecondsSinceLastPong(now: int): (ms: int)
      reads this
      ensures ms == PongAge(View(), now)
    {
      var base := if lastPongMs > connectedAtMs then lastPongMs else connectedAtMs;
      if base == 0 then 0 else now - base
    }

    predicate IsStale(now: int)
      reads this
      ensures IsStale(now) <==> Stale(View(), now)
    {
      SecondsSinceLastPong(now) > STALE_AFTER_MS
    }

    predicate IsExpired()
      reads this
      ensures IsExpired() <==> Expired(View())
    {
      tasks.chain == multiset{} && tasks.waits == multiset{}
    }

    /** The stale branch of ping(): the transport goes down and the wait is not renewed. */
    method HardClose(due: int)
      modifies this`staleClosed, this`open, this`tasks
      ensures staleClosed && !open && tasks == DropWait(old(tasks), Armed(due))
    {
      staleClosed := true;
      open := false;
      tasks := DropWait(tasks, Armed(due));
    }

    method Rearm(due: int, now: int)
      modifies this`timerExpiry, this`tasks
      ensures timerExpiry == now + PING_INTERVAL_MS
      ensures tasks == AddWait(DropWait(old(tasks), Armed(due)), Armed(now + PING_INTERVAL_MS))
    {
      timerExpiry := now + PING_INTERVAL_MS;
      tasks := AddWait(DropWait(tasks, Armed(due)), Armed(timerExpiry));
    }

    method OnPingTimer(due: int, now: int)
      modifies this
      ensures View() == OnTick(old(View()), due, now)
    {
      if IsStale(now) {
        HardClose(due);
      } else {
        Rearm(due, now);
      }
    }

    /** The io thread runs one completion. */
    method Complete(e: Event, now: int)
      requires SessionSpec.Enabled(View(), e, now)
      modifies this
      ensures View() == Apply(old(View()), e, now)
    {
      match e
      case OpDone(op, live, ok) =>
        match op {
          case Resolve => OnResolve(live, ok);
          case Connect => OnConnect(live, ok);
          case TlsHandshake => OnSslHandshake(live, ok);
          case WsHandshake => OnHandshake(live, ok, now);
          case Write => OnWrite(live, ok);
        }
      case ReadDone(inbound) => OnRead(inbound);
      case ReadFailed(live, tickQueued) => OnReadError(live, tickQueued);
      case TimerFired(due) => OnPingTimer(due, now);
      case TimerAborted => tasks := DropWait(tasks, Aborted);
      case CloseDone(tickQueued) => OnClose(tickQueued);
      case Pong => lastPongMs := now;
      case TransportLost => open := false;
    }
  }
}
