/** What the client and the guard decide, in terms of times, outstanding work and received messages alone. */
module OrderStreamGuard {
  import opened Wrappers
  import opened SubscriptionCodec
  import opened SessionSpec
  import SessionTheorems
  import opened OrderStreamSpec
  import OrderStreamProofs

  /** Something of the session is outstanding, and it is still connecting or its handshake or last pong is at most 60 s ago. */
  predicate Usable(s: Session, now: int) {
    && (s.tasks.chain != multiset{} || s.tasks.waits != multiset{})
    && (s.connectedAtMs == 0 || now - s.connectedAtMs <= 60_000 || now - s.lastPongMs <= 60_000)
  }

  predicate NewestUsable(m: System) {
    m.sessions != [] && Usable(m.sessions[|m.sessions| - 1], m.now)
  }

  lemma AliveIsUsable(m: System)
    requires SessionsInv(m)
    ensures SessionAlive(m) <==> NewestUsable(m)
  {
    if m.sessions != [] {
      var s := m.sessions[|m.sessions| - 1];
      assert Good(s, m.now);
      SessionTheorems.StaleExactly(s, m.now);
    }
  }

  /**
   A subscription keeps the generations if and only if the newest one is usable: then that one takes the
   request unless it has it already, and nothing else changes. Otherwise the newest one is asked to close
   if it is still held, a fresh session with just this request follows it, and the flag goes down.
   */
  lemma SubscribeExactly(m: System, request: Subscription)
    requires SessionsInv(m)
    ensures var n, g := Subscribe(m, request), |m.sessions| - 1;
      && (|n.sessions| == |m.sessions| <==> NewestUsable(m))
      && (forall i :: 0 <= i < g ==> n.sessions[i] == m.sessions[i])
      && (NewestUsable(m) ==>
            && n.flag == m.flag
            && n.sessions[g].acked == m.sessions[g].acked && n.sessions[g].closes == m.sessions[g].closes
            && n.sessions[g].pending ==
               m.sessions[g].pending + if request in m.sessions[g].acked || request in m.sessions[g].pending then [] else [request])
      && (!NewestUsable(m) ==>
            && |n.sessions| == |m.sessions| + 1 && !n.flag
            && n.sessions[|m.sessions|].pending == [request] && n.sessions[|m.sessions|].tasks.chain == multiset{Started(Resolve, true)}
            && n.sessions[|m.sessions|].createdAt == m.now && n.sessions[|m.sessions|].isPrivate
            && (m.sessions != [] ==>
                  n.sessions[g].closes == m.sessions[g].closes +
                  if m.sessions[g].tasks.chain == multiset{} && m.sessions[g].tasks.waits == multiset{} then 0 else 1))
  {
    AliveIsUsable(m);
    if !SessionAlive(m) {
      Replaced(m, request);
    }
  }

  lemma Replaced(m: System, request: Subscription)
    requires !SessionAlive(m)
    ensures var n, k, g := Subscribe(m, request), |m.sessions|, |m.sessions| - 1;
      && |n.sessions| == k + 1 && !n.flag && (forall i :: 0 <= i < g ==> n.sessions[i] == m.sessions[i])
      && n.sessions[k].pending == [request] && n.sessions[k].tasks.chain == multiset{Started(Resolve, true)}
      && n.sessions[k].createdAt == m.now && n.sessions[k].isPrivate
      && (m.sessions != [] ==> n.sessions[g].closes == m.sessions[g].closes + if Expired(m.sessions[g]) then 0 else 1)
  {
    FreshSession(request, m.now);
    assert Subscribe(m, request).sessions == Closed(m.sessions) + [Start(true, request, m.now)];
    assert |Closed(m.sessions)| == |m.sessions|;
  }

  lemma FreshSession(request: Subscription, now: int)
    ensures var s := Start(true, request, now);
      s.pending == [request] && s.tasks.chain == multiset{Started(Resolve, true)} && s.createdAt == now && s.isPrivate
  {
  }

  // ----- login news ----------------------------------------------------------------------------

  /** The message makes the session log the words that stand for a successful login. */
  predicate GoodNews(inbound: Inbound) {
    || inbound == LoginAck
    || inbound in {LoginRefused(SaysAuthenticated), Notice(SaysAuthenticated), ErrorEvent(SaysAuthenticated)}
    || inbound in {Data(SaysAuthenticated), Malformed(SaysAuthenticated)}
  }

  /** Or those that stand for a failed one. */
  predicate BadNews(inbound: Inbound) {
    || inbound in {LoginRefused(NoMarker), LoginRefused(SaysLoginFailed), Notice(SaysLoginFailed), ErrorEvent(SaysLoginFailed)}
    || inbound in {Data(SaysLoginFailed), Malformed(SaysLoginFailed)}
  }

  /** The last login news of any session since the newest one was built was good. */
  predicate NewsIsGood(states: seq<System>, steps: seq<Step>, n: nat)
    requires n <= |steps| < |states|
  {
    if n == 0 || |states[n].sessions| > |states[n - 1].sessions| then false
    else if steps[n - 1].Deliver? && steps[n - 1].event.ReadDone? && GoodNews(steps[n - 1].event.inbound) then true
    else if steps[n - 1].Deliver? && steps[n - 1].event.ReadDone? && BadNews(steps[n - 1].event.inbound) then false
    else NewsIsGood(states, steps, n - 1)
  }

  lemma SignalIsNews(e: Event)
    ensures AuthSignal(e) == Some(true) <==> e.ReadDone? && GoodNews(e.inbound)
    ensures AuthSignal(e) == Some(false) <==> e.ReadDone? && BadNews(e.inbound)
  {
  }

  lemma RebuildResetsFlag(m: System, step: Step)
    requires Possible(m, step) && |Next(m, step).sessions| > |m.sessions|
    ensures !Next(m, step).flag
  {
  }

  lemma {:induction false} FlagIsNews(now: int, states: seq<System>, steps: seq<Step>, n: nat)
    requires Run(states, steps) && states[0] == Init(now) && n <= |steps|
    ensures states[n].flag <==> NewsIsGood(states, steps, n)
  {
    if n > 0 {
      FlagIsNews(now, states, steps, n - 1);
      OrderStreamProofs.FlagStep(states[n - 1], steps[n - 1]);
      if |states[n].sessions| > |states[n - 1].sessions| {
        RebuildResetsFlag(states[n - 1], steps[n - 1]);
      } else if steps[n - 1].Deliver? {
        SignalIsNews(steps[n - 1].event);
      }
    }
  }

  /**
   On every run the guard lets an order through if and only if the newest session is usable and the last
   login news since it was built was good. Then exactly one order is placed, on that session as it stands;
   otherwise none is, and the order stream is subscribed to again.
   */
  lemma SubmitExactly(now: int, states: seq<System>, steps: seq<Step>, n: nat, request: Subscription)
    requires now > 0 && Run(states, steps) && states[0] == Init(now) && n <= |steps|
    ensures var m, after := states[n], SubmitOrder(states[n], request);
      if NewestUsable(m) && NewsIsGood(states, steps, n) then
        after.placed == m.placed + [Placement(m.now, |m.sessions| - 1, m.sessions[|m.sessions| - 1])] && after.sessions == m.sessions && after.flag
      else
        after.placed == m.placed && after.sessions == Subscribe(m, request).sessions && !after.flag
  {
    OrderStreamProofs.SessionsRun(states, steps, n);
    FlagIsNews(now, states, steps, n);
    AliveIsUsable(states[n]);
    OrderStreamProofs.SubscribeKeepsHistory(states[n], request);
  }

  /** The same for a re-subscription: on every run it builds a new session exactly when the newest one is not usable. */
  lemma SubscribeOnRuns(now: int, states: seq<System>, steps: seq<Step>, n: nat, request: Subscription)
    requires now > 0 && Run(states, steps) && states[0] == Init(now) && n <= |steps|
    ensures |Subscribe(states[n], request).sessions| == |states[n].sessions| + if NewestUsable(states[n]) then 0 else 1
  {
    OrderStreamProofs.SessionsRun(states, steps, n);
    SubscribeExactly(states[n], request);
  }

  // ----- lines ---------------------------------------------------------------------------------

  /** The last submission among the first n steps placed no order. */
  predicate LastRefused(states: seq<System>, steps: seq<Step>, n: nat)
    requires n <= |steps| < |states|
  {
    n > 0 && if steps[n - 1].Submit? then |states[n].placed| == |states[n - 1].placed| else LastRefused(states, steps, n - 1)
  }

  /** What a step adds to the lines, given whether it submits, whether it places an order, and whether the last submission was refused. */
  function LineOf(submits: bool, places: bool, refusedBefore: bool): seq<Line> {
    if submits && places && refusedBefore then [StreamRecovered]
    else if submits && !places && !refusedBefore then [StreamDead]
    else []
  }

  lemma StepLines(m: System, step: Step)
    requires Possible(m, step)
    ensures var n := Next(m, step);
      && n.lines == m.lines + LineOf(step.Submit?, |n.placed| > |m.placed|, m.deadLogged)
      && |n.placed| >= |m.placed| && (!step.Submit? ==> |n.placed| == |m.placed|)
      && n.deadLogged == if step.Submit? then |n.placed| == |m.placed| else m.deadLogged
  {
    if step.EnsureOrderStream? || step.Submit? {
      OrderStreamProofs.SubscribeKeepsHistory(m, step.request);
    }
  }

  lemma {:induction false} RefusalRemembered(now: int, states: seq<System>, steps: seq<Step>, n: nat)
    requires Run(states, steps) && states[0] == Init(now) && n <= |steps|
    ensures states[n].deadLogged <==> LastRefused(states, steps, n)
  {
    if n > 0 {
      RefusalRemembered(now, states, steps, n - 1);
      StepLines(states[n - 1], steps[n - 1]);
    }
  }

  /**
   On every run the guard logs one line when a submission is refused after one that placed its order, or as
   the first one, one when an order is placed again after a refusal, and nothing else.
   */
  lemma LinesExactly(now: int, states: seq<System>, steps: seq<Step>, n: nat)
    requires Run(states, steps) && states[0] == Init(now) && n < |steps|
    ensures states[0].lines == []
    ensures states[n + 1].lines ==
            states[n].lines + LineOf(steps[n].Submit?, |states[n + 1].placed| > |states[n].placed|, LastRefused(states, steps, n))
  {
    RefusalRemembered(now, states, steps, n);
    StepLines(states[n], steps[n]);
  }
}
