/** Concrete runs on which the promises of the order stream fail. */
module OrderStreamExample {
  import opened Wrappers
  import opened SubscriptionCodec
  import opened SessionSpec
  import SessionProofs
  import SessionRelease
  import SessionRuns
  import SessionTheorems
  import opened OrderStreamSpec
  import OrderStreamProofs

  const ORDERS := Subscription("orders", "", "FUTURES")

  /** A run together with the state it has reached. */
  ghost predicate Reaches(states: seq<System>, steps: seq<Step>, m: System) {
    && Run(states, steps) && states[0] == Init(1) && states[|steps|] == m
    && SessionsInv(m) && m.placed == []
  }

  lemma Extend(states: seq<System>, steps: seq<Step>, m: System, step: Step) returns (n: System, states': seq<System>, steps': seq<Step>)
    requires Reaches(states, steps, m) && Possible(m, step) && !step.Submit?
    ensures n == Next(m, step) && steps' == steps + [step] && Reaches(states', steps', n)
  {
    n := Next(m, step);
    states' := states + [n];
    steps' := steps + [step];
    OrderStreamProofs.NextSessions(m, step);
    if step.EnsureOrderStream? {
      OrderStreamProofs.SubscribeKeepsHistory(m, step.request);
    }
    forall i | 0 <= i < |steps'| ensures Possible(states'[i], steps'[i]) && states'[i + 1] == Next(states'[i], steps'[i]) {
      if i < |steps| {
        assert states'[i] == states[i] && states'[i + 1] == states[i + 1] && steps'[i] == steps[i];
      }
    }
  }

  /** The only outstanding operation of a freshly started or connecting session is `op`, and it can succeed. */
  predicate At(s: Session, op: Op) {
    s.open && s.tasks.chain == multiset{Started(op, true)} && s.lastPongMs == 0
  }

  lemma Advance(s: Session, op: Op, now: int)
    requires At(s, op) && op != Read
    ensures var t := Apply(s, OpDone(op, true, true), now);
      && At(t, NextOp(op)) && t.connectedAtMs == (if op.WsHandshake? then now else s.connectedAtMs)
      && |t.wire| == |s.wire| + if op.WsHandshake? then 1 else 0
  {
    assert Without(s, op, true).tasks.chain == multiset{};
    if op.WsHandshake? {
      assert Apply(s, OpDone(op, true, true), now) == Opened(Without(s, op, true), now);
    } else {
      assert Apply(s, OpDone(op, true, true), now) == StartOp(Without(s, op, true), NextOp(op));
    }
  }

  lemma AdvanceRun(states: seq<System>, steps: seq<Step>, m: System, op: Op) returns (n: System, states': seq<System>, steps': seq<Step>)
    requires Reaches(states, steps, m) && |m.sessions| == 1 && At(m.sessions[0], op) && op != Read
    ensures Reaches(states', steps', n) && |n.sessions| == 1 && At(n.sessions[0], NextOp(op)) && n.now == m.now
    ensures n.sessions[0].connectedAtMs == if op.WsHandshake? then m.now else m.sessions[0].connectedAtMs
    ensures |n.sessions[0].wire| == |m.sessions[0].wire| + if op.WsHandshake? then 1 else 0
  {
    Advance(m.sessions[0], op, m.now);
    n, states', steps' := Extend(states, steps, m, Deliver(0, OpDone(op, true, true)));
  }

  lemma FirstSession() returns (m: System, states: seq<System>, steps: seq<Step>)
    ensures Reaches(states, steps, m) && |m.sessions| == 1 && At(m.sessions[0], Resolve) && m.now == 1 && m.sessions[0].wire == []
  {
    var start := Start(true, ORDERS, 1);
    assert start.tasks.chain == multiset{Started(Resolve, true)};
    assert Subscribed([], ORDERS, 1) == [start];
    m, states, steps := Extend([Init(1)], [], Init(1), EnsureOrderStream(ORDERS));
  }

  lemma Connected() returns (m: System, states: seq<System>, steps: seq<Step>)
    ensures Reaches(states, steps, m) && |m.sessions| == 1 && At(m.sessions[0], Read) && m.now == 1 && m.sessions[0].connectedAtMs == 1 && |m.sessions[0].wire| == 1
  {
    m, states, steps := FirstSession();
    m, states, steps := AdvanceRun(states, steps, m, Resolve);
    m, states, steps := AdvanceRun(states, steps, m, Connect);
    m, states, steps := AdvanceRun(states, steps, m, TlsHandshake);
    m, states, steps := AdvanceRun(states, steps, m, WsHandshake);
    m, states, steps := AdvanceRun(states, steps, m, Write);
  }

  /** The first session falls silent for more than 60 s and is replaced; its read is still outstanding. */
  lemma Superseded() returns (m: System, states: seq<System>, steps: seq<Step>)
    ensures Reaches(states, steps, m) && |m.sessions| == 2 && SessionAlive(m)
    ensures Started(Read, true) in m.sessions[0].tasks.chain && Current(m).connectedAtMs == 0
  {
    m, states, steps := Connected();
    m, states, steps := Extend(states, steps, m, Elapse(STALE_AFTER_MS + 1));
    assert Stale(m.sessions[0], m.now);
    OrderStreamProofs.SubscribeRevives(m, ORDERS);
    assert Closed(m.sessions)[0].tasks == m.sessions[0].tasks;
    m, states, steps := Extend(states, steps, m, EnsureOrderStream(ORDERS));
  }

  /** Then the first session's login reply arrives late: the next order goes out although the new session has not connected. */
  lemma UncoveredOrder() returns (m: System, states: seq<System>, steps: seq<Step>)
    ensures Reaches(states, steps, m)
    ensures var n := SubmitOrder(m, ORDERS); |n.placed| == 1 && !Covered(n.placed[0])
  {
    m, states, steps := Superseded();
    OrderStreamProofs.LateAckOpensGuard(m, 0, ORDERS);
    m, states, steps := Extend(states, steps, m, Deliver(0, ReadDone(LoginAck)));
  }

  /** A notice arrives before the login reply, and the subscription goes out at once. */
  lemma EarlySubscription() returns (m: System, states: seq<System>, steps: seq<Step>)
    ensures Reaches(states, steps, m) && |m.sessions| == 1 && SessionTheorems.SubscribedBeforeAck(m.sessions[0].wire)
  {
    m, states, steps := Connected();
    SessionRuns.ReadDoneFacts(m.sessions[0], Notice(NoMarker));
    m, states, steps := Extend(states, steps, m, Deliver(0, ReadDone(Notice(NoMarker))));
    OrderStreamProofs.LoginOrderOnRuns(1, states, steps, |steps|, 0);
  }

  lemma LoggedIn() returns (m: System, states: seq<System>, steps: seq<Step>)
    ensures Reaches(states, steps, m) && |m.sessions| == 1 && m.flag && m.now == 1
    ensures !Expired(m.sessions[0]) && Base(m.sessions[0]) == 1
  {
    m, states, steps := Connected();
    var s := m.sessions[0];
    SessionRuns.ReadDoneFacts(s, LoginAck);
    SessionTheorems.CallbackHealth(s, ReadDone(LoginAck), m.now);
    assert Apply(s, ReadDone(LoginAck), m.now) == OnReadDone(s, LoginAck);
    m, states, steps := Extend(states, steps, m, Deliver(0, ReadDone(LoginAck)));
    assert m.sessions[0].tasks.chain != multiset{};
  }

  /** The transport is lost without notice; the session stays alive for the guard, and the next order goes out on it. */
  lemma OrderOnDeadSession() returns (m: System, states: seq<System>, steps: seq<Step>)
    ensures Reaches(states, steps, m) && HasCurrent(m) && SessionRelease.Dead(Current(m))
    ensures |SubmitOrder(m, ORDERS).placed| == 1
  {
    m, states, steps := LoggedIn();
    m, states, steps := Extend(states, steps, m, Deliver(0, TransportLost));
  }
}
