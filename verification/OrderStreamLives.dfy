/** Every generation of the order stream lives the life of one session: what holds on all session runs holds for each of them. */
module OrderStreamLives {
  import opened Wrappers
  import opened SubscriptionCodec
  import opened SessionSpec
  import SessionProofs
  import SessionRuns
  import SessionTheorems
  import opened OrderStreamSpec
  import OrderStreamProofs

  predicate Subscribes(step: Step) { step.EnsureOrderStream? || step.Submit? }

  /** The step passes a request to the client: always on a re-subscription, on a submission only if it is refused. */
  predicate Requests(m: System, step: Step) { step.EnsureOrderStream? || (step.Submit? && !Alive(m)) }

  /** What a step means for generation g. */
  function ActionOf(m: System, step: Step, g: nat): Option<SessionRuns.Action>
    requires g < |m.sessions|
  {
    if step.Deliver? then
      if step.generation == g then Some(SessionRuns.Callback(step.event)) else None
    else if Subscribes(step) && Requests(m, step) && g == |m.sessions| - 1 then
      if SessionAlive(m) then Some(SessionRuns.Accept(step.request))
      else if !Expired(Current(m)) then Some(SessionRuns.AskToClose)
      else None
    else None
  }

  lemma SubscribeActs(m: System, step: Step, g: nat)
    requires g < |m.sessions| && Subscribes(step) && Requests(m, step)
    ensures var n, a := Subscribe(m, step.request), ActionOf(m, step, g);
      && g < |n.sessions| && n.now == m.now
      && n.sessions[g] == if a.Some? then SessionRuns.Act(m.sessions[g], a.value, m.now) else m.sessions[g]
  {
  }

  /** A step acts on generation g by at most one action of its own, and time passes only without one. */
  lemma StepActs(m: System, step: Step, g: nat)
    requires g < |m.sessions| && Possible(m, step)
    ensures var n, a := Next(m, step), ActionOf(m, step, g);
      && g < |n.sessions| && m.now <= n.now && (a.Some? ==> n.now == m.now && SessionRuns.Can(m.sessions[g], a.value, m.now))
      && n.sessions[g] == if a.Some? then SessionRuns.Act(m.sessions[g], a.value, m.now) else m.sessions[g]
  {
    if Subscribes(step) && Requests(m, step) {
      SubscribeActs(m, step, g);
    }
  }

  /** A new generation starts with the request of the step that builds it. */
  lemma StepStarts(m: System, step: Step)
    requires Possible(m, step) && |Next(m, step).sessions| > |m.sessions|
    ensures var n := Next(m, step);
      && Subscribes(step) && |n.sessions| == |m.sessions| + 1 && n.now == m.now
      && n.sessions[|m.sessions|] == Start(true, step.request, m.now)
  {
  }

  /** A run of one session up to a state and a time. */
  ghost predicate LifeTo(states: seq<Session>, actions: seq<SessionRuns.Action>, times: seq<int>, request: Subscription, s: Session, now: int) {
    SessionRuns.Life(states, actions, times, true, request) && states[|actions|] == s && times[|actions|] == now
  }

  lemma LifeWaits(states: seq<Session>, actions: seq<SessionRuns.Action>, times: seq<int>, request: Subscription, s: Session, now: int, later: int)
    requires LifeTo(states, actions, times, request, s, now) && now <= later
    ensures LifeTo(states, actions, times[..|actions|] + [later], request, s, later)
  {
  }

  lemma LifeActs(
      states: seq<Session>, actions: seq<SessionRuns.Action>, times: seq<int>, request: Subscription, s: Session, now: int, a: SessionRuns.Action)
    requires LifeTo(states, actions, times, request, s, now) && SessionRuns.Can(s, a, now)
    ensures LifeTo(states + [SessionRuns.Act(s, a, now)], actions + [a], times + [now], request, SessionRuns.Act(s, a, now), now)
  {
    var states', actions', times' := states + [SessionRuns.Act(s, a, now)], actions + [a], times + [now];
    forall i | 0 <= i < |actions'|
      ensures times'[i] <= times'[i + 1] && SessionRuns.Can(states'[i], actions'[i], times'[i])
      ensures states'[i + 1] == SessionRuns.Act(states'[i], actions'[i], times'[i])
    {
      if i < |actions| {
        assert states'[i] == states[i] && states'[i + 1] == states[i + 1] && actions'[i] == actions[i];
      }
    }
  }

  lemma LifeOverStep(
      m: System, step: Step, g: nat, lives: seq<Session>, actions: seq<SessionRuns.Action>, times: seq<int>, request: Subscription)
      returns (lives': seq<Session>, actions': seq<SessionRuns.Action>, times': seq<int>)
    requires g < |m.sessions| && Possible(m, step) && LifeTo(lives, actions, times, request, m.sessions[g], m.now)
    ensures g < |Next(m, step).sessions| && LifeTo(lives', actions', times', request, Next(m, step).sessions[g], Next(m, step).now)
  {
    var n, a := Next(m, step), ActionOf(m, step, g);
    StepActs(m, step, g);
    if a.Some? {
      LifeActs(lives, actions, times, request, m.sessions[g], m.now, a.value);
      lives', actions', times' := lives + [n.sessions[g]], actions + [a.value], times + [m.now];
    } else {
      LifeWaits(lives, actions, times, request, m.sessions[g], m.now, n.now);
      lives', actions', times' := lives, actions, times[..|actions|] + [n.now];
    }
  }

  lemma LifeStarts(m: System, step: Step) returns (lives: seq<Session>, request: Subscription)
    requires m.now > 0 && Possible(m, step) && |Next(m, step).sessions| > |m.sessions|
    ensures var n := Next(m, step); |n.sessions| == |m.sessions| + 1 && LifeTo(lives, [], [n.now], request, n.sessions[|m.sessions|], n.now)
  {
    StepStarts(m, step);
    request := step.request;
    lives := [Start(true, request, m.now)];
  }

  lemma LifeBorn(now: int, states: seq<System>, steps: seq<Step>, n: nat, g: nat) returns (lives: seq<Session>, request: Subscription)
    requires now > 0 && Run(states, steps) && states[0] == Init(now) && 0 < n <= |steps|
    requires |states[n - 1].sessions| <= g < |states[n].sessions|
    ensures LifeTo(lives, [], [states[n].now], request, states[n].sessions[g], states[n].now)
  {
    OrderStreamProofs.SessionsRun(states, steps, n - 1);
    lives, request := LifeStarts(states[n - 1], steps[n - 1]);
  }

  lemma LifeContinues(
      states: seq<System>, steps: seq<Step>, n: nat, g: nat, lives: seq<Session>, actions: seq<SessionRuns.Action>, times: seq<int>, request: Subscription)
      returns (lives': seq<Session>, actions': seq<SessionRuns.Action>, times': seq<int>)
    requires Run(states, steps) && 0 < n <= |steps| && g < |states[n - 1].sessions|
    requires LifeTo(lives, actions, times, request, states[n - 1].sessions[g], states[n - 1].now)
    ensures g < |states[n].sessions| && LifeTo(lives', actions', times', request, states[n].sessions[g], states[n].now)
  {
    lives', actions', times' := LifeOverStep(states[n - 1], steps[n - 1], g, lives, actions, times, request);
  }

  /** At every moment of every run each generation has reached its state by a life of its own. */
  lemma {:induction false} LifeOf(now: int, states: seq<System>, steps: seq<Step>, n: nat, g: nat)
      returns (lives: seq<Session>, actions: seq<SessionRuns.Action>, times: seq<int>, request: Subscription)
    requires now > 0 && Run(states, steps) && states[0] == Init(now) && n <= |steps| && g < |states[n].sessions|
    ensures LifeTo(lives, actions, times, request, states[n].sessions[g], states[n].now)
  {
    if n == 0 {
      assert false;
    } else if g < |states[n - 1].sessions| {
      lives, actions, times, request := LifeOf(now, states, steps, n - 1, g);
      lives, actions, times := LifeContinues(states, steps, n, g, lives, actions, times, request);
    } else {
      lives, request := LifeBorn(now, states, steps, n, g);
      actions, times := [], [states[n].now];
    }
  }

  /** So every frame of every generation has its place: one login, first and freshly signed, then single subscribes that answer a message. */
  lemma FramesOnRuns(now: int, states: seq<System>, steps: seq<Step>, n: nat, g: nat, i: nat)
    requires now > 0 && Run(states, steps) && states[0] == Init(now) && n <= |steps| && g < |states[n].sessions|
    requires i < |states[n].sessions[g].wire| && states[n].sessions[g].wire[i].Sent?
    ensures states[n].sessions[g].isPrivate && SessionTheorems.FrameInPlace(states[n].sessions[g], i)
  {
    var lives, actions, times, request := LifeOf(now, states, steps, n, g);
    SessionTheorems.FramesOnLives(lives, actions, times, true, request, |actions|, i);
  }
}
