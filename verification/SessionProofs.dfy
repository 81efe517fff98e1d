module SessionProofs {
  import opened Wrappers
  import opened SubscriptionCodec
  import opened SessionSpec

  lemma RequestsSnoc(wire: seq<WireEvent>, e: WireEvent)
    ensures Requests(wire + [e]) == if e.Sent? && e.frame.SubscribeFrame? then Requests(wire) + [e.frame.sub] else Requests(wire)
    ensures LastLogin(wire + [e]) == if e.Received? && IsLoginReply(e.inbound) then Some(e.inbound.LoginAck?) else LastLogin(wire)
  {
    assert (wire + [e])[..|wire|] == wire;
  }

  lemma WireShapeSnoc(isPrivate: bool, connectedAtMs: int, wire: seq<WireEvent>, e: WireEvent)
    requires WireShape(isPrivate, connectedAtMs, wire) && wire != []
    requires e.Sent? ==> e.frame.SubscribeFrame? && wire[|wire| - 1].Received?
    ensures WireShape(isPrivate, connectedAtMs, wire + [e])
  {
  }

  lemma SoleElement<T>(m: multiset<T>, x: T)
    requires |m| <= 1 && x in m
    ensures m == multiset{x} && m - multiset{x} == multiset{}
  {
    assert m - multiset{x} == multiset{} by {
      assert |m - multiset{x}| == 0;
    }
    assert m == multiset{x} + (m - multiset{x});
  }

  lemma StartInv(isPrivate: bool, request: Subscription, now: int)
    requires now > 0
    ensures Inv(Start(isPrivate, request, now), now)
  {
  }

  lemma EnqueueInv(s: Session, sub: Subscription, now: int)
    requires Inv(s, now)
    ensures Inv(Enqueue(s, sub), now)
  {
  }

  lemma WithoutInv(s: Session, op: Op, live: bool, now: int)
    requires Inv(s, now) && Started(op, live) in s.tasks.chain
    ensures Inv(Without(s, op, live), now) && Without(s, op, live).tasks.chain == multiset{}
  {
    SoleElement(s.tasks.chain, Started(op, live));
  }

  lemma StartOpInv(s: Session, op: Op, now: int)
    requires Inv(s, now) && s.tasks.chain == multiset{} && (AfterHandshake(op) <==> s.connectedAtMs > 0)
    ensures Inv(StartOp(s, op), now)
  {
  }

  lemma OpenedLogin(s: Session, now: int)
    requires BeforeHandshake(s) && s.connectedAtMs == 0 && now > 0
    ensures Login(Opened(s, now))
  {
    RequestsSnoc(s.wire, Sent(LoginFrame(now)));
    RequestsSnoc(s.wire, Sent(NextFrame(s.pending)));
  }

  lemma OpenedQueue(s: Session, now: int)
    requires BeforeHandshake(s) && s.connectedAtMs == 0 && Queue(s)
    ensures Queue(Opened(s, now))
  {
    RequestsSnoc(s.wire, Sent(LoginFrame(now)));
    RequestsSnoc(s.wire, Sent(NextFrame(s.pending)));
  }

  lemma OpenedInv(s: Session, now: int)
    requires Inv(s, now) && s.connectedAtMs == 0 && s.tasks.chain == multiset{} && now > 0
    ensures Inv(Opened(s, now), now)
  {
    OpenedLogin(s, now);
    OpenedQueue(s, now);
  }

  lemma OpDoneInv(s: Session, op: Op, live: bool, ok: bool, now: int)
    requires Inv(s, now) && Started(op, live) in s.tasks.chain && op != Read && now > 0
    ensures Inv(OnOpDone(s, op, live, ok, now), now)
  {
    WithoutInv(s, op, live, now);
    if ok && op.WsHandshake? {
      OpenedInv(Without(s, op, live), now);
    } else if ok {
      StartOpInv(Without(s, op, live), NextOp(op), now);
    }
  }

  lemma ReceiveLogin(s: Session, inbound: Inbound)
    requires Login(s) && s.connectedAtMs > 0
    ensures Login(HandleControl(s.(wire := s.wire + [Received(inbound)]), inbound))
  {
    RequestsSnoc(s.wire, Received(inbound));
    WireShapeSnoc(s.isPrivate, s.connectedAtMs, s.wire, Received(inbound));
  }

  lemma ReceiveQueue(s: Session, inbound: Inbound)
    requires Queue(s)
    ensures Queue(HandleControl(s.(wire := s.wire + [Received(inbound)]), inbound))
  {
    RequestsSnoc(s.wire, Received(inbound));
  }

  lemma ReceiveInv(s: Session, inbound: Inbound, now: int)
    requires Inv(s, now) && s.connectedAtMs > 0
    ensures Inv(HandleControl(s.(wire := s.wire + [Received(inbound)]), inbound), now)
  {
    ReceiveLogin(s, inbound);
    ReceiveQueue(s, inbound);
  }

  lemma AnswerQueue(s: Session, malformed: bool)
    requires Queue(s)
    ensures Queue(Answer(s, malformed))
  {
    if !malformed && s.pending != [] {
      RequestsSnoc(s.wire, Sent(SubscribeFrame(s.pending[0])));
      assert s.accepted == Requests(s.wire) + [s.pending[0]] + s.pending[1..];
    }
  }

  lemma AnswerInv(s: Session, malformed: bool, now: int)
    requires Inv(s, now) && s.connectedAtMs > 0 && s.tasks.chain == multiset{}
    requires s.wire != [] && s.wire[|s.wire| - 1].Received?
    ensures Inv(Answer(s, malformed), now)
  {
    AnswerQueue(s, malformed);
    if !malformed && s.pending != [] {
      var frame := Sent(SubscribeFrame(s.pending[0]));
      RequestsSnoc(s.wire, frame);
      WireShapeSnoc(s.isPrivate, s.connectedAtMs, s.wire, frame);
    }
  }

  lemma ReadInv(s: Session, inbound: Inbound, now: int)
    requires Inv(s, now) && Started(Read, true) in s.tasks.chain
    ensures Inv(OnReadDone(s, inbound), now)
  {
    WithoutInv(s, Read, true, now);
    var s0 := Without(s, Read, true);
    ReceiveInv(s0, inbound, now);
    AnswerInv(HandleControl(s0.(wire := s0.wire + [Received(inbound)]), inbound), inbound.Malformed?, now);
  }

  lemma CancelInv(s: Session, tickQueued: bool, now: int)
    requires Inv(s, now)
    ensures Inv(CancelTimer(s, tickQueued), now)
  {
  }

  lemma TickInv(s: Session, due: int, now: int)
    requires Inv(s, now) && Armed(due) in s.tasks.waits && due <= now
    ensures Inv(OnTick(s, due, now), now)
  {
    SoleElement(s.tasks.waits, Armed(due));
    assert OnTick(s, due, now).tasks.waits == if Stale(s, now) then multiset{} else multiset{Armed(now + PING_INTERVAL_MS)};
  }

  lemma ReadFailedInv(s: Session, e: Event, now: int)
    requires Inv(s, now) && Enabled(s, e, now) && e.ReadFailed?
    ensures Inv(Apply(s, e, now), now)
  {
    WithoutInv(s, Read, e.live, now);
    CancelInv(Without(s, Read, e.live), e.tickQueued, now);
  }

  lemma TimerAbortedInv(s: Session, now: int)
    requires Inv(s, now) && Aborted in s.tasks.waits
    ensures Inv(s.(tasks := DropWait(s.tasks, Aborted)), now)
  {
    SoleElement(s.tasks.waits, Aborted);
  }

  lemma ClosesInv(s: Session, closes: nat, now: int)
    requires Inv(s, now)
    ensures Inv(s.(closes := closes), now)
  {
  }

  lemma CloseDoneInv(s: Session, e: Event, now: int)
    requires Inv(s, now) && Enabled(s, e, now) && e.CloseDone?
    ensures Inv(Apply(s, e, now), now)
  {
    ClosesInv(s, s.closes - 1, now);
    CancelInv(s.(closes := s.closes - 1), e.tickQueued, now);
  }

  lemma TransportLostInv(s: Session, now: int)
    requires Inv(s, now)
    ensures Inv(s.(open := false), now)
  {
  }

  lemma PongInv(s: Session, now: int)
    requires Inv(s, now) && Started(Read, true) in s.tasks.chain && now > 0
    ensures Inv(s.(lastPongMs := now), now)
  {
  }

  lemma HealthEventInv(s: Session, e: Event, now: int)
    requires Inv(s, now) && Enabled(s, e, now) && now > 0
    requires !e.OpDone? && !e.ReadDone? && !e.ReadFailed? && !e.CloseDone?
    ensures Inv(Apply(s, e, now), now)
  {
    match e
    case TimerFired(due) => TickInv(s, due, now);
    case TimerAborted => TimerAbortedInv(s, now);
    case Pong => PongInv(s, now);
    case TransportLost => TransportLostInv(s, now);
  }

  /** Every callback keeps the session invariant. */
  lemma ApplyInv(s: Session, e: Event, now: int)
    requires Inv(s, now) && Enabled(s, e, now) && now > 0
    ensures Inv(Apply(s, e, now), now)
  {
    if e.OpDone? {
      OpDoneInv(s, e.op, e.live, e.ok, now);
    } else if e.ReadDone? {
      ReadInv(s, e.inbound, now);
    } else if e.ReadFailed? {
      ReadFailedInv(s, e, now);
    } else if e.CloseDone? {
      CloseDoneInv(s, e, now);
    } else {
      HealthEventInv(s, e, now);
    }
  }
}
