/** What becomes of a generation that can no longer read: it is never heard of again, and within a minute it is replaced. */
module OrderStreamRelease {
  import opened Wrappers
  import opened SubscriptionCodec
  import opened SessionSpec
  import SessionProofs
  import SessionRuns
  import SessionTheorems
  import opened SessionRelease
  import opened OrderStreamSpec
  import OrderStreamProofs
  import OrderStreamLives

  /** Once dead after its handshake, a session's pong age is measured from the same moment for good. */
  lemma DeadBase(s: Session, a: SessionRuns.Action, now: int)
    requires Inv(s, now) && Dead(s) && SessionRuns.Can(s, a, now) && s.connectedAtMs > 0
    ensures var t := SessionRuns.Act(s, a, now); Base(t) == Base(s) && t.connectedAtMs > 0
  {
    if a.Callback? {
      SessionTheorems.CallbackHealth(s, a.event, now);
      BaseUnheard(s, Apply(s, a.event, now), a.event, now);
    }
  }

  lemma BaseUnheard(s: Session, t: Session, e: Event, now: int)
    requires SessionTheorems.SameHealth(SessionTheorems.Health(s, e, now), t) && !SessionRuns.Opens(e) && !e.Pong?
    ensures Base(t) == Base(s) && t.connectedAtMs == s.connectedAtMs
  {
  }

  /** Dead before its handshake: nothing it has outstanding can ever read or write, so it will never log in. */
  predicate Mute(s: Session) {
    && !s.authenticated
    && (Expired(s) || (!s.open && forall p :: p in s.tasks.chain && AfterHandshake(p.op) ==> !p.live))
  }

  lemma DeadIsMute(s: Session, now: int)
    requires Inv(s, now) && Dead(s) && s.connectedAtMs == 0
    ensures Mute(s)
  {
  }

  lemma MuteOp(s: Session, op: Op, live: bool, ok: bool, now: int)
    requires Mute(s) && Started(op, live) in s.tasks.chain && op != Read && (ok ==> live)
    ensures Mute(Apply(s, OpDone(op, live, ok), now))
  {
    if ok && op.WsHandshake? {
      SessionRuns.OpenedFacts(s, live, now);
    }
  }

  lemma MuteEvent(s: Session, e: Event, now: int)
    requires Mute(s) && SessionSpec.Enabled(s, e, now) && !e.OpDone?
    ensures Mute(Apply(s, e, now))
  {
  }

  lemma MuteStays(s: Session, a: SessionRuns.Action, now: int)
    requires Mute(s) && SessionRuns.Can(s, a, now)
    ensures Mute(SessionRuns.Act(s, a, now))
  {
    if a.Callback? && a.event.OpDone? {
      MuteOp(s, a.event.op, a.event.live, a.event.ok, now);
    } else if a.Callback? {
      MuteEvent(s, a.event, now);
    }
  }

  /** From m to n a dead generation g stays dead, is measured from the same moment if it had connected, and mute if it was. */
  predicate StaysDead(m: System, n: System, g: nat) {
    g < |m.sessions| && Dead(m.sessions[g]) ==>
      && g < |n.sessions| && Dead(n.sessions[g])
      && (m.sessions[g].connectedAtMs > 0 ==> n.sessions[g].connectedAtMs > 0 && Base(n.sessions[g]) == Base(m.sessions[g]))
      && (Mute(m.sessions[g]) ==> Mute(n.sessions[g]))
  }

  lemma DeadOverStep(m: System, step: Step, g: nat)
    requires SessionsInv(m) && Possible(m, step)
    ensures StaysDead(m, Next(m, step), g)
  {
    if g < |m.sessions| && Dead(m.sessions[g]) {
      var s, a := m.sessions[g], OrderStreamLives.ActionOf(m, step, g);
      assert Good(s, m.now);
      OrderStreamLives.StepActs(m, step, g);
      if a.Some? {
        DeadAct(s, a.value, m.now);
        if s.connectedAtMs > 0 {
          DeadBase(s, a.value, m.now);
        }
        if Mute(s) {
          MuteStays(s, a.value, m.now);
        }
      }
    }
  }

  lemma {:induction false} DeadAlong(states: seq<System>, n: nat, j: nat, g: nat)
    requires n <= j < |states| && forall i :: n <= i < j ==> StaysDead(states[i], states[i + 1], g)
    ensures StaysDead(states[n], states[j], g)
  {
    if n < j {
      DeadAlong(states, n, j - 1, g);
      assert StaysDead(states[j - 1], states[j], g);
    }
  }

  /** So it is on every run, from any moment to any later one. */
  lemma DeadOnRuns(states: seq<System>, steps: seq<Step>, n: nat, j: nat, g: nat)
    requires Run(states, steps) && SessionsInv(states[0]) && n <= j <= |steps|
    ensures StaysDead(states[n], states[j], g)
  {
    forall i | n <= i < j ensures StaysDead(states[i], states[i + 1], g) {
      OrderStreamProofs.SessionsRun(states, steps, i);
      DeadOverStep(states[i], steps[i], g);
    }
    DeadAlong(states, n, j, g);
  }

  /**
   On every run, a generation that has died after its handshake, by a hard close, a failed write or
   anything else, is replaced by the next re-subscription or submission more than 60 s after it was last
   heard from; the submission is refused.
   */
  lemma ReplacedAfterDeath(now: int, states: seq<System>, steps: seq<Step>, n: nat, j: nat, request: Subscription)
    requires now > 0 && Run(states, steps) && states[0] == Init(now) && n <= j <= |steps|
    requires HasCurrent(states[n]) && |states[j].sessions| == |states[n].sessions|
    requires Dead(Current(states[n])) && Current(states[n]).connectedAtMs > 0
    requires states[j].now - Base(Current(states[n])) > STALE_AFTER_MS
    ensures forall m :: m in [Subscribe(states[j], request), SubmitOrder(states[j], request)] ==>
      && |m.sessions| == |states[j].sessions| + 1 && Current(m) == Start(true, request, states[j].now)
      && !m.flag && m.placed == states[j].placed
  {
    DeadOnRuns(states, steps, n, j, |states[n].sessions| - 1);
    assert !SessionAlive(states[j]);
    OrderStreamProofs.SubscribeRevives(states[j], request);
    OrderStreamProofs.SubscribeKeepsHistory(states[j], request);
  }

  /** The same as soon as nothing holds it any more, whether or not it ever connected. */
  lemma ReplacedWhenExpired(m: System, request: Subscription)
    requires HasCurrent(m) && Expired(Current(m))
    ensures var n := Subscribe(m, request);
      |n.sessions| == |m.sessions| + 1 && Current(n) == Start(true, request, m.now) && !n.flag
    ensures SubmitOrder(m, request).sessions == Subscribe(m, request).sessions && SubmitOrder(m, request).placed == m.placed
  {
    OrderStreamProofs.SubscribeRevives(m, request);
    OrderStreamProofs.SubscribeKeepsHistory(m, request);
  }

  /**
   Blind for a minute at most. On every run on which each step vouches for the flag, an order that goes out
   on a session which can no longer read goes out at most 60 s after that session died.
   */
  lemma BlindAtMostAMinute(now: int, states: seq<System>, steps: seq<Step>, n: nat, j: nat)
    requires now > 0 && Run(states, steps) && states[0] == Init(now) && n <= j <= |steps|
    requires forall i :: 0 <= i < |steps| ==> Vouched(states[i], steps[i])
    requires HasCurrent(states[n]) && |states[j].sessions| == |states[n].sessions|
    requires Dead(Current(states[n])) && Alive(states[j])
    ensures Current(states[n]).connectedAtMs > 0 && states[j].now - states[n].now <= STALE_AFTER_MS
  {
    var g := |states[n].sessions| - 1;
    OrderStreamProofs.SessionsRun(states, steps, n);
    assert Good(Current(states[n]), states[n].now);
    if Current(states[n]).connectedAtMs == 0 {
      DeadIsMute(Current(states[n]), states[n].now);
    }
    OrderStreamProofs.HonestOnRuns(now, states, steps);
    assert Honest(states[j]);
    DeadOnRuns(states, steps, n, j, g);
  }

  /** What a refused submission leaves behind can read, unless the session it kept could not; a replacement always can. */
  lemma HealedCanRead(m: System, request: Subscription)
    requires !Alive(m)
    ensures Dead(Current(SubmitOrder(m, request))) <==> SessionAlive(m) && Dead(Current(m))
  {
    OrderStreamProofs.SubscribeRevives(m, request);
    assert Started(Resolve, true) in Start(true, request, m.now).tasks.chain;
  }
}
