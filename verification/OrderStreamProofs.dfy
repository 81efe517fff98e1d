/** What every run of the order stream keeps. */
module OrderStreamProofs {
  import opened Wrappers
  import opened SubscriptionCodec
  import opened SessionSpec
  import SessionProofs
  import SessionRuns
  import SessionTheorems
  import opened OrderStreamSpec

  lemma SetGood(sessions: seq<Session>, i: nat, s: Session, now: int)
    requires AllGood(sessions, now) && i < |sessions| && Good(s, now)
    ensures AllGood(sessions[i := s], now)
  {
  }

  lemma AppendGood(sessions: seq<Session>, s: Session, now: int)
    requires AllGood(sessions, now) && Good(s, now)
    ensures AllGood(sessions + [s], now)
  {
  }

  lemma StartGood(request: Subscription, now: int)
    requires now > 0
    ensures Good(Start(true, request, now), now)
  {
    SessionProofs.StartInv(true, request, now);
    SessionTheorems.StartFirstFlush(true, request, now);
  }

  lemma EnqueueGood(s: Session, request: Subscription, now: int)
    requires Good(s, now)
    ensures Good(Enqueue(s, request), now)
  {
    SessionProofs.EnqueueInv(s, request, now);
    SessionTheorems.EnqueueFirstFlush(s, request);
  }

  lemma CloseGood(s: Session, now: int)
    requires Good(s, now)
    ensures Good(RequestClose(s), now)
  {
    SessionProofs.ClosesInv(s, s.closes + 1, now);
  }

  lemma ReadLogin(s: Session, inbound: Inbound)
    ensures OnReadDone(s, inbound).isPrivate == s.isPrivate
    ensures OnReadDone(s, inbound).authenticated == NextAuthenticated(s.authenticated, inbound)
  {
  }

  lemma OpLogin(s: Session, op: Op, live: bool, ok: bool, now: int)
    ensures var t := OnOpDone(s, op, live, ok, now); t.isPrivate == s.isPrivate && t.authenticated == s.authenticated
  {
  }

  /** Only a login reply changes the session's own login flag, and nothing changes its kind. */
  lemma ApplyLogin(s: Session, e: Event, now: int)
    ensures Apply(s, e, now).isPrivate == s.isPrivate
    ensures Apply(s, e, now).authenticated == if e.ReadDone? then NextAuthenticated(s.authenticated, e.inbound) else s.authenticated
  {
    if e.ReadDone? {
      ReadLogin(s, e.inbound);
    } else if e.OpDone? {
      OpLogin(s, e.op, e.live, e.ok, now);
    }
  }

  lemma ApplyGood(s: Session, e: Event, now: int)
    requires Good(s, now) && SessionSpec.Enabled(s, e, now) && now > 0
    ensures Good(Apply(s, e, now), now)
  {
    SessionProofs.ApplyInv(s, e, now);
    SessionTheorems.ApplyFirstFlush(s, e, now);
    ApplyLogin(s, e, now);
  }

  lemma TimeGood(s: Session, now: int, later: int)
    requires Good(s, now) && now <= later
    ensures Good(s, later)
  {
    SessionRuns.InvInTime(s, now, later);
  }

  lemma RoutedGood(sessions: seq<Session>, request: Subscription, now: int)
    requires AllGood(sessions, now) && sessions != []
    ensures AllGood(Routed(sessions, request), now)
  {
    EnqueueGood(Last(sessions), request, now);
    SetGood(sessions, |sessions| - 1, Enqueue(Last(sessions), request), now);
  }

  lemma ClosedGood(sessions: seq<Session>, now: int)
    requires AllGood(sessions, now)
    ensures AllGood(Closed(sessions), now)
  {
    if sessions != [] && !Expired(Last(sessions)) {
      CloseGood(Last(sessions), now);
      SetGood(sessions, |sessions| - 1, RequestClose(Last(sessions)), now);
    }
  }

  lemma SubscribeSessions(m: System, request: Subscription)
    requires SessionsInv(m)
    ensures SessionsInv(Subscribe(m, request))
  {
    if SessionAlive(m) {
      RoutedGood(m.sessions, request, m.now);
    } else {
      ClosedGood(m.sessions, m.now);
      StartGood(request, m.now);
      AppendGood(Closed(m.sessions), Start(true, request, m.now), m.now);
    }
  }

  lemma DeliverSessions(m: System, generation: nat, e: Event)
    requires SessionsInv(m) && Possible(m, Deliver(generation, e))
    ensures SessionsInv(DeliverTo(m, generation, e))
  {
    ApplyGood(m.sessions[generation], e, m.now);
    SetGood(m.sessions, generation, Apply(m.sessions[generation], e, m.now), m.now);
  }

  lemma NextSessions(m: System, step: Step)
    requires SessionsInv(m) && Possible(m, step)
    ensures SessionsInv(Next(m, step))
  {
    match step
    case Elapse(ms) =>
      forall i | 0 <= i < |m.sessions| ensures Good(m.sessions[i], m.now + ms) {
        TimeGood(m.sessions[i], m.now, m.now + ms);
      }
    case Deliver(generation, e) => DeliverSessions(m, generation, e);
    case EnsureOrderStream(request) => SubscribeSessions(m, request);
    case Submit(request) => SubscribeSessions(m, request);
  }

  // ----- fail closed -------------------------------------------------------------------------

  /** A step keeps the flag honest if and only if it vouches for it. */
  lemma HonestExactly(m: System, step: Step)
    requires Honest(m) && Possible(m, step)
    ensures Honest(Next(m, step)) <==> Vouched(m, step)
  {
    match step
    case Elapse(_) =>
    case Deliver(generation, e) => HonestDelivery(m, generation, e);
    case EnsureOrderStream(request) => HonestSubscribe(m, request);
    case Submit(request) => HonestSubscribe(m, request);
  }

  lemma HonestDelivery(m: System, generation: nat, e: Event)
    requires Honest(m) && Possible(m, Deliver(generation, e))
    ensures Honest(DeliverTo(m, generation, e)) <==> Vouched(m, Deliver(generation, e))
  {
    ApplyLogin(m.sessions[generation], e, m.now);
  }

  lemma HonestSubscribe(m: System, request: Subscription)
    requires Honest(m)
    ensures Honest(Subscribe(m, request))
  {
  }

  /** The simple case of a run on which the flag is set only by the current session's own login reply. */
  lemma OwnAckVouches(m: System, step: Step)
    requires OwnAck(m, step)
    ensures Vouched(m, step)
  {
  }

  lemma {:induction false} HonestAlong(states: seq<System>, steps: seq<Step>, n: nat)
    requires Run(states, steps) && n <= |steps| && Honest(states[0])
    ensures (forall i :: 0 <= i <= n ==> Honest(states[i])) <==> (forall i :: 0 <= i < n ==> Vouched(states[i], steps[i]))
  {
    if n > 0 {
      HonestAlong(states, steps, n - 1);
      var m, step := states[n - 1], steps[n - 1];
      assert states[n] == Next(m, step);
      if Honest(m) {
        HonestExactly(m, step);
      }
      assert (forall i :: 0 <= i <= n ==> Honest(states[i])) <==> (forall i :: 0 <= i <= n - 1 ==> Honest(states[i])) && Honest(states[n]);
      assert (forall i :: 0 <= i < n ==> Vouched(states[i], steps[i])) <==>
             (forall i :: 0 <= i < n - 1 ==> Vouched(states[i], steps[i])) && Vouched(m, step);
    }
  }

  /** On every run the flag always speaks for the current session if and only if every step vouches for it. */
  lemma HonestOnRuns(now: int, states: seq<System>, steps: seq<Step>)
    requires Run(states, steps) && states[0] == Init(now)
    ensures (forall i :: 0 <= i < |states| ==> Honest(states[i])) <==> (forall i :: 0 <= i < |steps| ==> Vouched(states[i], steps[i]))
  {
    HonestAlong(states, steps, |steps|);
  }

  /** An order that the guard lets through is covered if and only if the session it goes out on counts as logged in. */
  lemma CoveredExactly(m: System)
    requires SessionsInv(m) && Alive(m)
    ensures Covered(Placement(m.now, |m.sessions| - 1, Current(m))) <==> Current(m).authenticated
  {
    var s := Current(m);
    assert Good(s, m.now);
    assert WireShape(s.isPrivate, s.connectedAtMs, s.wire);
  }

  lemma PlacedStep(m: System, step: Step)
    requires SessionsInv(m) && Possible(m, step)
    ensures var n := Next(m, step);
      if step.Submit? && Alive(m) then
        |n.placed| == |m.placed| + 1 && n.placed[..|m.placed|] == m.placed && (Covered(n.placed[|m.placed|]) <==> Current(m).authenticated)
      else n.placed == m.placed
  {
    match step
    case Elapse(_) =>
    case Deliver(_, _) =>
    case EnsureOrderStream(request) => SubscribeKeepsHistory(m, request);
    case Submit(request) =>
      if Alive(m) {
        CoveredExactly(m);
      } else {
        SubscribeKeepsHistory(m, request);
      }
  }

  ghost predicate AllCovered(placed: seq<Placement>) {
    forall k :: 0 <= k < |placed| ==> Covered(placed[k])
  }

  /** The guard lets an order through on a session that is not logged in. */
  predicate Blind(m: System, step: Step) {
    step.Submit? && Alive(m) && !Current(m).authenticated
  }

  lemma AllCoveredSnoc(placed: seq<Placement>, more: seq<Placement>)
    requires |more| == |placed| + 1 && more[..|placed|] == placed
    ensures AllCovered(more) <==> AllCovered(placed) && Covered(more[|placed|])
  {
    assert forall k :: 0 <= k < |placed| ==> more[k] == more[..|placed|][k];
  }

  lemma CoveredStep(m: System, step: Step)
    requires SessionsInv(m) && Possible(m, step)
    ensures AllCovered(Next(m, step).placed) <==> AllCovered(m.placed) && !Blind(m, step)
  {
    PlacedStep(m, step);
    if step.Submit? && Alive(m) {
      AllCoveredSnoc(m.placed, Next(m, step).placed);
    }
  }

  lemma {:induction false} CoveredAlong(states: seq<System>, steps: seq<Step>, n: nat)
    requires n <= |steps| < |states| && states[0].placed == []
    requires forall i :: 0 <= i < n ==> (AllCovered(states[i + 1].placed) <==> AllCovered(states[i].placed) && !Blind(states[i], steps[i]))
    ensures AllCovered(states[n].placed) <==> forall i :: 0 <= i < n ==> !Blind(states[i], steps[i])
  {
    if n > 0 {
      CoveredAlong(states, steps, n - 1);
      assert AllCovered(states[n - 1 + 1].placed) <==> AllCovered(states[n - 1].placed) && !Blind(states[n - 1], steps[n - 1]);
    }
  }

  /** On every run all orders are covered if and only if none was let through on a session that is not logged in. */
  lemma OrdersCoveredExactly(now: int, states: seq<System>, steps: seq<Step>, n: nat)
    requires now > 0 && Run(states, steps) && states[0] == Init(now) && n <= |steps|
    ensures AllCovered(states[n].placed) <==> forall i :: 0 <= i < n ==> !Blind(states[i], steps[i])
  {
    forall i | 0 <= i < n
      ensures AllCovered(states[i + 1].placed) <==> AllCovered(states[i].placed) && !Blind(states[i], steps[i])
    {
      SessionsRun(states, steps, i);
      CoveredStep(states[i], steps[i]);
    }
    CoveredAlong(states, steps, n);
  }

  lemma SubscribeKeepsHistory(m: System, request: Subscription)
    ensures var n := Subscribe(m, request);
      n.placed == m.placed && n.lines == m.lines && n.deadLogged == m.deadLogged && n.now == m.now
  {
  }

  lemma SubmitLines(m: System, request: Subscription)
    requires LinesAlternate(m)
    ensures LinesAlternate(SubmitOrder(m, request))
  {
    SubscribeKeepsHistory(m, request);
  }

  lemma LinesStep(m: System, step: Step)
    requires LinesAlternate(m) && Possible(m, step)
    ensures LinesAlternate(Next(m, step))
  {
    match step
    case Elapse(_) =>
    case Deliver(_, _) =>
    case EnsureOrderStream(request) => SubscribeKeepsHistory(m, request);
    case Submit(request) => SubmitLines(m, request);
  }

  /** On every run the guard's dead and recovered lines alternate. */
  lemma {:induction false} LinesOnRuns(now: int, states: seq<System>, steps: seq<Step>, n: nat)
    requires Run(states, steps) && states[0] == Init(now) && n <= |steps|
    ensures LinesAlternate(states[n])
  {
    if n > 0 {
      LinesOnRuns(now, states, steps, n - 1);
      LinesStep(states[n - 1], steps[n - 1]);
    }
  }

  /**
   Fail closed. On every run on which each step that sets the flag vouches for it, every order that the
   guard lets through was covered: its session was held, handshaken, heard from within 60 s, and had its
   own login, the first frame on its own connection, acknowledged.
   */
  lemma FailClosed(now: int, states: seq<System>, steps: seq<Step>)
    requires now > 0 && Run(states, steps) && states[0] == Init(now)
    requires forall i :: 0 <= i < |steps| ==> Vouched(states[i], steps[i])
    ensures forall n, k :: 0 <= n < |states| && 0 <= k < |states[n].placed| ==> Covered(states[n].placed[k])
  {
    HonestOnRuns(now, states, steps);
    forall n | 0 <= n < |states| ensures AllCovered(states[n].placed) {
      assert forall i :: 0 <= i < n ==> Honest(states[i]);
      OrdersCoveredExactly(now, states, steps, n);
    }
  }

  /** On every run, each session that has heard something subscribed before its login was acknowledged
      exactly when the first message it heard was neither the successful login reply nor malformed. */
  lemma LoginOrderOnRuns(now: int, states: seq<System>, steps: seq<Step>, n: nat, g: nat)
    requires now > 0 && Run(states, steps) && states[0] == Init(now)
    requires n < |states| && g < |states[n].sessions| && |states[n].sessions[g].wire| >= 2
    ensures var wire := states[n].sessions[g].wire;
      && wire[0] == Sent(LoginFrame(states[n].sessions[g].connectedAtMs)) && wire[1].Received?
      && (SessionTheorems.SubscribedBeforeAck(wire) <==> wire[1] != Received(LoginAck) && !wire[1].inbound.Malformed?)
  {
    SessionsRun(states, steps, n);
    var s := states[n].sessions[g];
    assert Good(s, states[n].now);
    SessionTheorems.AckBeforeSubscribe(s, states[n].now);
    SessionTheorems.InvFrame(s, states[n].now, 0);
  }

  /**
   On every run each session has at most one operation and one timer wait outstanding, and what it was
   asked to subscribe to is what it wrote followed by what it still has queued, in order, with nothing
   queued twice.
   */
  lemma SingleChainOnRuns(now: int, states: seq<System>, steps: seq<Step>, n: nat, g: nat)
    requires now > 0 && Run(states, steps) && states[0] == Init(now)
    requires n < |states| && g < |states[n].sessions|
    ensures var s := states[n].sessions[g];
      && |s.tasks.chain| <= 1 && |s.tasks.waits| <= 1
      && s.accepted == Requests(s.wire) + s.pending
      && forall i, j :: 0 <= i < j < |s.pending| ==> s.pending[i] != s.pending[j]
  {
    SessionsRun(states, steps, n);
    assert Good(states[n].sessions[g], states[n].now);
  }

  lemma {:induction false} SessionsRun(states: seq<System>, steps: seq<Step>, n: nat)
    requires Run(states, steps) && n <= |steps| && SessionsInv(states[0])
    ensures SessionsInv(states[n])
  {
    if n > 0 {
      SessionsRun(states, steps, n - 1);
      NextSessions(states[n - 1], steps[n - 1]);
    }
  }

  lemma SupersededDelivery(m: System, g: nat, e: Event)
    requires g < |m.sessions| - 1
    ensures var n := DeliverTo(m, g, e);
      && HasCurrent(n) && Current(n) == Current(m) && n.now == m.now && n.placed == m.placed
      && n.flag == if AuthSignal(e).Some? then AuthSignal(e).value else m.flag
  {
  }

  /** The acknowledgement of a superseded session opens the guard for one that has not even connected. */
  lemma LateAckOpensGuard(m: System, g: nat, request: Subscription)
    requires SessionsInv(m) && g < |m.sessions| - 1 && Started(Read, true) in m.sessions[g].tasks.chain
    requires SessionAlive(m) && Current(m).connectedAtMs == 0
    ensures Possible(m, Deliver(g, ReadDone(LoginAck)))
    ensures var n := SubmitOrder(DeliverTo(m, g, ReadDone(LoginAck)), request);
      |n.placed| == |m.placed| + 1 && !Covered(n.placed[|m.placed|])
  {
    SupersededDelivery(m, g, ReadDone(LoginAck));
    assert Alive(DeliverTo(m, g, ReadDone(LoginAck)));
  }

  // ----- healing -----------------------------------------------------------------------------

  lemma StartAlive(request: Subscription, now: int)
    ensures var s := Start(true, request, now); !Expired(s) && !Stale(s, now) && s.pending == [request]
  {
  }

  lemma EnqueueAlive(s: Session, request: Subscription, now: int)
    requires !Expired(s) && !Stale(s, now)
    ensures var t := Enqueue(s, request); !Expired(t) && !Stale(t, now) && (request in t.acked || request in t.pending)
  {
    assert request in s.pending + [request];
  }

  /** After a subscription the current session is held, not stale, and has the request queued or acknowledged. */
  lemma SubscribeRevives(m: System, request: Subscription)
    ensures var n := Subscribe(m, request);
      && SessionAlive(n)
      && (request in Current(n).acked || request in Current(n).pending)
      && (if SessionAlive(m) then |n.sessions| == |m.sessions| && n.flag == m.flag
          else |n.sessions| == |m.sessions| + 1 && !n.flag && Current(n) == Start(true, request, m.now))
  {
    StartAlive(request, m.now);
    if SessionAlive(m) {
      EnqueueAlive(Current(m), request, m.now);
      assert Current(Subscribe(m, request)) == Enqueue(Current(m), request);
    }
  }

  /** A refused submission places nothing, and leaves a live session that was rebuilt exactly when the old one was gone or stale. */
  lemma RefusalHeals(m: System, request: Subscription)
    requires !Alive(m)
    ensures var n := SubmitOrder(m, request);
      && n.placed == m.placed && n.deadLogged
      && SessionAlive(n)
      && (request in Current(n).acked || request in Current(n).pending)
      && (SessionAlive(m) <==> |n.sessions| == |m.sessions|)
      && !n.flag
  {
    SubscribeRevives(m, request);
    SubscribeKeepsHistory(m, request);
  }

  /** The last thing the run told the private stream about authentication. */
  function LastSignal(steps: seq<Step>): Option<bool> {
    if steps == [] then None
    else
      var last := steps[|steps| - 1];
      if last.Deliver? && AuthSignal(last.event).Some? then AuthSignal(last.event) else LastSignal(steps[..|steps| - 1])
  }

  lemma FlagStep(m: System, step: Step)
    requires Possible(m, step)
    ensures var n := Next(m, step);
      && |n.sessions| >= |m.sessions|
      && (|n.sessions| == |m.sessions| ==>
            n.flag == if step.Deliver? && AuthSignal(step.event).Some? then AuthSignal(step.event).value else m.flag)
  {
  }

  lemma {:induction false} FlagFollowsSignals(states: seq<System>, steps: seq<Step>, n: nat)
    requires Run(states, steps) && n <= |steps|
    ensures |states[n].sessions| >= |states[0].sessions|
    ensures |states[n].sessions| == |states[0].sessions| ==>
              states[n].flag == if LastSignal(steps[..n]).Some? then LastSignal(steps[..n]).value else states[0].flag
  {
    if n > 0 {
      FlagFollowsSignals(states, steps, n - 1);
      FlagStep(states[n - 1], steps[n - 1]);
      assert steps[..n][..n - 1] == steps[..n - 1];
    }
  }

  /** Until the session is rebuilt again, the guard passes exactly when the session is alive and the last login news was good. */
  lemma GuardAfterHealing(states: seq<System>, steps: seq<Step>, request: Subscription)
    requires Run(states, steps) && !states[0].flag
    requires |states[|steps|].sessions| == |states[0].sessions|
    ensures var m := states[|steps|];
      |SubmitOrder(m, request).placed| > |m.placed| <==> SessionAlive(m) && LastSignal(steps) == Some(true)
  {
    FlagFollowsSignals(states, steps, |steps|);
    assert steps[..|steps|] == steps;
    SubscribeKeepsHistory(states[|steps|], request);
  }

  function Logins(wire: seq<WireEvent>): nat {
    if wire == [] then 0
    else Logins(wire[..|wire| - 1]) + if wire[|wire| - 1].Sent? && wire[|wire| - 1].frame.LoginFrame? then 1 else 0
  }

  function LoginReplies(wire: seq<WireEvent>): nat {
    if wire == [] then 0
    else LoginReplies(wire[..|wire| - 1]) + if wire[|wire| - 1].Received? && IsLoginReply(wire[|wire| - 1].inbound) then 1 else 0
  }

  lemma {:induction false} OneLogin(isPrivate: bool, connectedAtMs: int, wire: seq<WireEvent>)
    requires isPrivate && WireShape(isPrivate, connectedAtMs, wire) && wire != []
    ensures Logins(wire) == 1
  {
    if |wire| == 1 {
      assert Logins(wire[..0]) == 0;
    } else {
      OneLogin(isPrivate, connectedAtMs, wire[..|wire| - 1]);
    }
  }

  lemma {:induction false} RepliesAppend(wire: seq<WireEvent>, more: seq<WireEvent>)
    ensures LoginReplies(wire + more) >= LoginReplies(wire)
    ensures more != [] && more[0].Received? && IsLoginReply(more[0].inbound) ==> LoginReplies(wire + more) > LoginReplies(wire)
  {
    if more == [] {
      assert wire + more == wire;
    } else {
      RepliesAppend(wire, more[..|more| - 1]);
      assert (wire + more)[..|wire + more| - 1] == wire + more[..|more| - 1];
      if |more| == 1 {
        assert wire + more[..0] == wire;
      }
    }
  }

  lemma {:induction false} RepliedOnce(wire: seq<WireEvent>)
    requires LastLogin(wire).Some?
    ensures LoginReplies(wire) >= 1
  {
    if !(wire[|wire| - 1].Received? && IsLoginReply(wire[|wire| - 1].inbound)) {
      RepliedOnce(wire[..|wire| - 1]);
    }
  }

  lemma ReadReplies(s: Session, inbound: Inbound)
    requires s.tasks.chain == multiset{Started(Read, true)}
    ensures LoginReplies(OnReadDone(s, inbound).wire) >= LoginReplies(s.wire) + if IsLoginReply(inbound) then 1 else 0
  {
    SessionRuns.ReadDoneFacts(s, inbound);
    var more := [Received(inbound)] + if inbound.Malformed? || s.pending == [] then [] else [Sent(SubscribeFrame(s.pending[0]))];
    assert OnReadDone(s, inbound).wire == s.wire + more;
    RepliesAppend(s.wire, more);
  }

  /** Replies are never unsaid, and a login reply is one more. */
  lemma RepliesGrow(s: Session, e: Event, now: int)
    requires Inv(s, now) && SessionSpec.Enabled(s, e, now)
    ensures var t := Apply(s, e, now);
      LoginReplies(t.wire) >= LoginReplies(s.wire) + if e.ReadDone? && IsLoginReply(e.inbound) then 1 else 0
  {
    if e.ReadDone? {
      SessionProofs.SoleElement(s.tasks.chain, Started(Read, true));
      ReadReplies(s, e.inbound);
      assert Apply(s, e, now) == OnReadDone(s, e.inbound);
    } else if SessionRuns.Opens(e) {
      SessionRuns.OpenedFacts(s, e.live, now);
      RepliesAppend(s.wire, [Sent(if LogsIn(s) then LoginFrame(now) else NextFrame(s.pending))]);
    } else {
      SessionRuns.QuietEvents(s, e, now);
    }
  }

  predicate RepliesOnCurrent(m: System, step: Step) {
    step.Deliver? && step.generation == |m.sessions| - 1 && step.event.ReadDone? && IsLoginReply(step.event.inbound)
  }

  lemma CurrentAfter(m: System, generation: nat, e: Event)
    requires generation < |m.sessions|
    ensures HasCurrent(DeliverTo(m, generation, e))
    ensures Current(DeliverTo(m, generation, e)) == if generation == |m.sessions| - 1 then Apply(Current(m), e, m.now) else Current(m)
  {
  }

  lemma CurrentReplied(m: System, e: Event)
    requires SessionsInv(m) && HasCurrent(m) && SessionSpec.Enabled(Current(m), e, m.now)
    ensures LoginReplies(Apply(Current(m), e, m.now).wire) >= LoginReplies(Current(m).wire) + if e.ReadDone? && IsLoginReply(e.inbound) then 1 else 0
  {
    CurrentGood(m);
    RepliesGrow(Current(m), e, m.now);
  }

  lemma DeliveredReplies(m: System, generation: nat, e: Event)
    requires generation < |m.sessions|
    requires generation == |m.sessions| - 1 ==>
      LoginReplies(Apply(Current(m), e, m.now).wire) >= LoginReplies(Current(m).wire) + if e.ReadDone? && IsLoginReply(e.inbound) then 1 else 0
    ensures
      LoginReplies(Current(DeliverTo(m, generation, e)).wire) >=
      LoginReplies(Current(m).wire) + if RepliesOnCurrent(m, Deliver(generation, e)) then 1 else 0
  {
    CurrentAfter(m, generation, e);
  }

  lemma CurrentGood(m: System)
    requires SessionsInv(m) && HasCurrent(m)
    ensures Good(Current(m), m.now)
  {
  }

  lemma SubscribedReplies(m: System, request: Subscription)
    requires HasCurrent(m) && SessionAlive(m)
    ensures Current(Subscribe(m, request)).wire == Current(m).wire
  {
  }

  /** The replies on the newest session, as long as it is alive and hence the newest. */
  lemma CurrentReplies(m: System, step: Step)
    requires SessionsInv(m) && Possible(m, step) && SessionAlive(m)
    ensures HasCurrent(Next(m, step))
    ensures LoginReplies(Current(Next(m, step)).wire) >= LoginReplies(Current(m).wire) + if RepliesOnCurrent(m, step) then 1 else 0
  {
    match step
    case Elapse(_) =>
    case Deliver(generation, e) =>
      if generation == |m.sessions| - 1 {
        CurrentReplied(m, e);
      }
      DeliveredReplies(m, generation, e);
    case EnsureOrderStream(request) => SubscribedReplies(m, request);
    case Submit(request) => SubscribedReplies(m, request);
  }

  ghost predicate AnsweredOnce(m: System) {
    forall g :: 0 <= g < |m.sessions| ==> LoginReplies(m.sessions[g].wire) <= Logins(m.sessions[g].wire)
  }

  /** Since m0 the login of the newest session has been refused, no order has gone out and nothing was rebuilt. */
  predicate StillRefused(m0: System, m: System) {
    && HasCurrent(m) && LoginReplies(Current(m).wire) >= 1
    && !m.flag && m.placed == m0.placed && |m.sessions| == |m0.sessions|
  }

  lemma RefusedOverStep(m0: System, m: System, step: Step)
    requires SessionsInv(m) && Possible(m, step) && StillRefused(m0, m) && SessionAlive(m)
    requires OwnAck(m, step) && AnsweredOnce(Next(m, step))
    ensures StillRefused(m0, Next(m, step))
  {
    NextSessions(m, step);
    CurrentReplies(m, step);
    OnlyLogin(Next(m, step));
    FlagStep(m, step);
    AliveKeepsSessions(m, step);
    PlacedStep(m, step);
  }

  lemma AliveKeepsSessions(m: System, step: Step)
    requires Possible(m, step) && SessionAlive(m)
    ensures |Next(m, step).sessions| == |m.sessions|
  {
  }

  predicate RefusalKept(m0: System, m: System, n: System) {
    StillRefused(m0, m) ==> StillRefused(m0, n)
  }

  lemma {:induction false} RefusedAlong(states: seq<System>, n0: nat, n: nat)
    requires n0 <= n < |states| && StillRefused(states[n0], states[n0])
    requires forall i :: n0 <= i < n ==> RefusalKept(states[n0], states[i], states[i + 1])
    ensures StillRefused(states[n0], states[n])
  {
    if n > n0 {
      RefusedAlong(states, n0, n - 1);
      assert RefusalKept(states[n0], states[n - 1], states[n - 1 + 1]);
    }
  }

  lemma RefusalOnRun(now: int, states: seq<System>, steps: seq<Step>, n0: nat, i: nat)
    requires now > 0 && Run(states, steps) && states[0] == Init(now) && n0 <= i < |steps|
    requires OwnAck(states[i], steps[i]) && AnsweredOnce(states[i + 1]) && SessionAlive(states[i])
    ensures RefusalKept(states[n0], states[i], states[i + 1])
  {
    SessionsRun(states, steps, i);
    if StillRefused(states[n0], states[i]) {
      RefusedOverStep(states[n0], states[i], steps[i]);
    }
  }

  /**
   A failed login is never retried. If the venue answers no login more often than it was sent and the flag
   is set only by the current session's own reply, then once that session's login has been refused and for
   as long as it stays alive, it has sent one login in all, every submission is refused and nothing is rebuilt.
   */
  lemma FailedLoginSticks(now: int, states: seq<System>, steps: seq<Step>, n0: nat, n: nat)
    requires now > 0 && Run(states, steps) && states[0] == Init(now) && n0 <= n <= |steps|
    requires forall i :: 0 <= i < |steps| ==> OwnAck(states[i], steps[i])
    requires forall i :: 0 <= i <= |steps| ==> AnsweredOnce(states[i])
    requires HasCurrent(states[n0]) && LastLogin(Current(states[n0]).wire) == Some(false)
    requires forall i :: n0 <= i < n ==> SessionAlive(states[i])
    ensures HasCurrent(states[n]) && Logins(Current(states[n]).wire) == 1
    ensures !states[n].flag && states[n].placed == states[n0].placed && |states[n].sessions| == |states[n0].sessions|
  {
    RefusedFlag(now, states, steps, n0);
    RepliedOnce(Current(states[n0]).wire);
    forall i | n0 <= i < n ensures RefusalKept(states[n0], states[i], states[i + 1]) {
      RefusalOnRun(now, states, steps, n0, i);
    }
    RefusedAlong(states, n0, n);
    SessionsRun(states, steps, n);
    OnlyLogin(states[n]);
    assert AnsweredOnce(states[n]);
  }

  lemma RefusedFlag(now: int, states: seq<System>, steps: seq<Step>, n: nat)
    requires now > 0 && Run(states, steps) && states[0] == Init(now) && n <= |steps|
    requires forall i :: 0 <= i < |steps| ==> OwnAck(states[i], steps[i])
    requires HasCurrent(states[n]) && LastLogin(Current(states[n]).wire) == Some(false)
    ensures !states[n].flag
  {
    forall i | 0 <= i < |steps| ensures Vouched(states[i], steps[i]) {
      OwnAckVouches(states[i], steps[i]);
    }
    HonestOnRuns(now, states, steps);
    SessionsRun(states, steps, n);
    assert Good(Current(states[n]), states[n].now) && Honest(states[n]);
  }

  lemma OnlyLogin(m: System)
    requires SessionsInv(m) && HasCurrent(m)
    ensures Logins(Current(m).wire) <= 1
  {
    var s := Current(m);
    assert Good(s, m.now);
    if s.wire != [] {
      OneLogin(s.isPrivate, s.connectedAtMs, s.wire);
    }
  }

  // ----- zombies -----------------------------------------------------------------------------

  lemma OpWaits(s: Session, op: Op, live: bool, ok: bool, now: int)
    requires !(op.WsHandshake? && ok)
    ensures OnOpDone(s, op, live, ok, now).tasks.waits == s.tasks.waits
  {
  }

  lemma WaitsKeptByChain(s: Session, e: Event, now: int)
    requires e.OpDone? && !(e.op.WsHandshake? && e.ok)
    ensures Apply(s, e, now).tasks.waits == s.tasks.waits && Base(Apply(s, e, now)) == Base(s)
  {
    OpWaits(s, e.op, e.live, e.ok, now);
    SessionTheorems.OpHealth(s, e.op, e.live, e.ok, now);
    assert Apply(s, e, now) == OnOpDone(s, e.op, e.live, e.ok, now);
  }

  lemma WaitsKeptByRead(s: Session, inbound: Inbound, now: int)
    ensures Apply(s, ReadDone(inbound), now).tasks.waits == s.tasks.waits && Base(Apply(s, ReadDone(inbound), now)) == Base(s)
  {
    assert Apply(s, ReadDone(inbound), now) == OnReadDone(s, inbound);
  }

  /** Only a finished handshake and a tick start a wait, and the pong age never jumps up. */
  lemma WaitsKept(s: Session, e: Event, now: int)
    requires Inv(s, now) && !(e.OpDone? && e.op.WsHandshake? && e.ok) && !e.TimerFired?
    ensures Apply(s, e, now).tasks.waits != multiset{} ==> s.tasks.waits != multiset{}
    ensures Base(Apply(s, e, now)) >= Base(s)
  {
    if e.OpDone? {
      WaitsKeptByChain(s, e, now);
    } else if e.ReadDone? {
      WaitsKeptByRead(s, e.inbound, now);
    }
  }

  lemma PunctualTick(s: Session, due: int, now: int)
    requires Inv(s, now) && Armed(due) in s.tasks.waits
    ensures Punctual(Apply(s, TimerFired(due), now), now)
  {
    SessionProofs.SoleElement(s.tasks.waits, Armed(due));
    assert Apply(s, TimerFired(due), now) == OnTick(s, due, now);
  }

  lemma PunctualHandshake(s: Session, live: bool, now: int)
    requires Inv(s, now) && Started(WsHandshake, live) in s.tasks.chain && now > 0
    ensures Punctual(Apply(s, OpDone(WsHandshake, live, true), now), now)
  {
    assert Apply(s, OpDone(WsHandshake, live, true), now) == Opened(Without(s, WsHandshake, live), now);
  }

  lemma PunctualApply(s: Session, e: Event, now: int)
    requires Good(s, now) && Punctual(s, now) && SessionSpec.Enabled(s, e, now) && now > 0
    ensures Punctual(Apply(s, e, now), now)
  {
    if e.OpDone? && e.op.WsHandshake? && e.ok {
      PunctualHandshake(s, e.live, now);
    } else if e.TimerFired? {
      PunctualTick(s, e.due, now);
    } else {
      WaitsKept(s, e, now);
    }
  }

  lemma PunctualElapse(s: Session, now: int, later: int)
    requires Good(s, now) && Punctual(s, now) && now <= later
    requires forall w :: w in s.tasks.waits ==> InTime(w, now, later)
    ensures Punctual(s, later)
  {
    if s.tasks.waits != multiset{} {
      var w :| w in s.tasks.waits;
      assert InTime(w, now, later);
    }
  }

  lemma PunctualSame(s: Session, t: Session, now: int)
    requires Punctual(s, now) && t.tasks.waits == s.tasks.waits && Base(t) == Base(s)
    ensures Punctual(t, now)
  {
  }

  lemma PunctualRouted(sessions: seq<Session>, request: Subscription, now: int)
    requires AllPunctual(sessions, now) && sessions != []
    ensures AllPunctual(Routed(sessions, request), now)
  {
    PunctualSame(Last(sessions), Enqueue(Last(sessions), request), now);
  }

  lemma PunctualClosed(sessions: seq<Session>, now: int)
    requires AllPunctual(sessions, now)
    ensures AllPunctual(Closed(sessions), now)
  {
    if sessions != [] {
      PunctualSame(Last(sessions), RequestClose(Last(sessions)), now);
    }
  }

  lemma PunctualStart(request: Subscription, now: int)
    ensures Punctual(Start(true, request, now), now)
  {
    assert Start(true, request, now).tasks.waits == multiset{};
  }

  lemma PunctualSubscribe(m: System, request: Subscription)
    requires AllPunctual(m.sessions, m.now)
    ensures AllPunctual(Subscribe(m, request).sessions, m.now)
  {
    if SessionAlive(m) {
      PunctualRouted(m.sessions, request, m.now);
    } else {
      PunctualClosed(m.sessions, m.now);
      PunctualStart(request, m.now);
    }
  }

  lemma PunctualStep(m: System, step: Step)
    requires SessionsInv(m) && AllPunctual(m.sessions, m.now) && Possible(m, step) && Prompt(m, step)
    ensures AllPunctual(Next(m, step).sessions, Next(m, step).now)
  {
    match step
    case Elapse(ms) =>
      forall i | 0 <= i < |m.sessions| ensures Punctual(m.sessions[i], m.now + ms) {
        PunctualElapse(m.sessions[i], m.now, m.now + ms);
      }
    case Deliver(generation, e) => PunctualApply(m.sessions[generation], e, m.now);
    case EnsureOrderStream(request) => PunctualSubscribe(m, request);
    case Submit(request) => PunctualSubscribe(m, request);
  }

  lemma {:induction false} PunctualRun(states: seq<System>, steps: seq<Step>, n: nat)
    requires Run(states, steps) && n <= |steps|
    requires SessionsInv(states[0]) && AllPunctual(states[0].sessions, states[0].now)
    requires forall i :: 0 <= i < |steps| ==> Prompt(states[i], steps[i])
    ensures SessionsInv(states[n]) && AllPunctual(states[n].sessions, states[n].now)
  {
    if n > 0 {
      PunctualRun(states, steps, n - 1);
      NextSessions(states[n - 1], steps[n - 1]);
      PunctualStep(states[n - 1], steps[n - 1]);
    }
  }

  /**
   Zombie bound. On every run with ideal timers a session silent for more than 80 s has no running
   timer, so it was hard-closed unless its timer had been cancelled, and if it has nothing outstanding
   on the transport either, the weak reference has expired.
   */
  lemma ZombieBound(now: int, states: seq<System>, steps: seq<Step>, n: nat, g: nat)
    requires now > 0 && Run(states, steps) && states[0] == Init(now)
    requires forall i :: 0 <= i < |steps| ==> Prompt(states[i], steps[i])
    requires n < |states| && g < |states[n].sessions|
    requires var s := states[n].sessions[g]; s.connectedAtMs > 0 && states[n].now - Base(s) > 80_000
    ensures var s := states[n].sessions[g];
      && s.tasks.waits == multiset{}
      && (!s.timerCancelled ==> s.staleClosed && !s.open)
      && (s.tasks.chain == multiset{} ==> Expired(s))
  {
    PunctualRun(states, steps, n);
    var s := states[n].sessions[g];
    assert Punctual(s, states[n].now) && Good(s, states[n].now);
  }

  /** On such a run a tick hard-closes a session exactly when it was silent for more than 60 s, and then for at most 80 s. */
  lemma HardCloseWindow(now: int, states: seq<System>, steps: seq<Step>, n: nat)
    requires now > 0 && Run(states, steps) && states[0] == Init(now)
    requires forall i :: 0 <= i < |steps| ==> Prompt(states[i], steps[i])
    requires n < |steps| && steps[n].Deliver? && steps[n].event.TimerFired?
    ensures var g := steps[n].generation;
      var s, t := states[n].sessions[g], states[n + 1].sessions[g];
      var silent := states[n].now - Base(s);
      && silent <= 80_000
      && (silent > 60_000 ==> t.staleClosed && !t.open && t.tasks.waits == multiset{})
      && (silent <= 60_000 ==>
            t.staleClosed == s.staleClosed && t.open == s.open && t.tasks.waits == multiset{Armed(states[n].now + 20_000)})
  {
    PunctualRun(states, steps, n);
    var g, due := steps[n].generation, steps[n].event.due;
    var s := states[n].sessions[g];
    assert Good(s, states[n].now) && Punctual(s, states[n].now);
    SessionProofs.SoleElement(s.tasks.waits, Armed(due));
    assert states[n + 1].sessions[g] == OnTick(s, due, states[n].now);
  }
}
