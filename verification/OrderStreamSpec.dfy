/**
 The private order stream and the guard in front of order submission, as one state machine.

 Generation i is the i-th session that the client ever built; the client's weak reference points to the
 newest one. Each step is atomic: a completion callback on one session, a re-subscription, a submission,
 or time passing. `placed` and `lines` are history.
 */
module OrderStreamSpec {
  import opened Wrappers
  import opened SubscriptionCodec
  import opened SessionSpec
  import SessionTheorems

  /** An order let through by the guard: when, on which generation, and what that session looked like. */
  datatype Placement = Placement(at: int, generation: nat, session: Session)

  /** The two transition lines the guard logs. */
  datatype Line = StreamDead | StreamRecovered

  datatype System = System(
    now: int,
    sessions: seq<Session>,
    flag: bool,
    deadLogged: bool,
    lines: seq<Line>,
    placed: seq<Placement>)

  datatype Step =
    | Elapse(ms: nat)
    | Deliver(generation: nat, event: Event)
    | EnsureOrderStream(request: Subscription)
    | Submit(request: Subscription)

  /** What the private stream reads out of the lines that an event makes the session log. */
  function AuthSignal(e: Event): Option<bool> {
    if !e.ReadDone? then None
    else match e.inbound
      case LoginAck => Some(true)
      case LoginRefused(text) => Some(text == SaysAuthenticated)
      case Notice(text) => Signal(text)
      case ErrorEvent(text) => Signal(text)
      case Data(text) => Signal(text)
      case Malformed(text) => Signal(text)
      case _ => None
  }

  function Signal(marker: Marker): Option<bool> {
    match marker
    case NoMarker => None
    case SaysAuthenticated => Some(true)
    case SaysLoginFailed => Some(false)
  }

  function Init(now: int): System {
    System(now, [], false, false, [], [])
  }

  function Last(sessions: seq<Session>): Session
    requires sessions != []
  {
    sessions[|sessions| - 1]
  }

  /** The weak reference locks, and the session behind it is not stale. */
  predicate NewestAlive(sessions: seq<Session>, now: int) {
    sessions != [] && !Expired(Last(sessions)) && !Stale(Last(sessions), now)
  }

  function Routed(sessions: seq<Session>, request: Subscription): seq<Session>
    requires sessions != []
  {
    sessions[|sessions| - 1 := Enqueue(Last(sessions), request)]
  }

  /** The newest session, if it is still held, is asked to close. */
  function Closed(sessions: seq<Session>): seq<Session> {
    if sessions == [] || Expired(Last(sessions)) then sessions
    else sessions[|sessions| - 1 := RequestClose(Last(sessions))]
  }

  /** A request goes to the newest session, or to a new one that replaces it when it is gone or stale. */
  function Subscribed(sessions: seq<Session>, request: Subscription, now: int): seq<Session> {
    if NewestAlive(sessions, now) then Routed(sessions, request)
    else Closed(sessions) + [Start(true, request, now)]
  }

  predicate HasCurrent(m: System) { m.sessions != [] }

  function Current(m: System): Session
    requires HasCurrent(m)
  {
    Last(m.sessions)
  }

  predicate SessionAlive(m: System) {
    NewestAlive(m.sessions, m.now)
  }

  predicate Alive(m: System) {
    SessionAlive(m) && m.flag
  }

  /** A rebuild resets the flag. */
  function Subscribe(m: System, request: Subscription): System {
    m.(sessions := Subscribed(m.sessions, request, m.now), flag := m.flag && SessionAlive(m))
  }

  function SubmitOrder(m: System, request: Subscription): System {
    if Alive(m) then
      m.(deadLogged := false,
         lines := if m.deadLogged then m.lines + [StreamRecovered] else m.lines,
         placed := m.placed + [Placement(m.now, |m.sessions| - 1, Current(m))])
    else
      var n := Subscribe(m, request);
      n.(deadLogged := true, lines := if n.deadLogged then n.lines else n.lines + [StreamDead])
  }

  function DeliverTo(m: System, generation: nat, e: Event): System
    requires generation < |m.sessions|
  {
    m.(sessions := m.sessions[generation := Apply(m.sessions[generation], e, m.now)],
       flag := if AuthSignal(e).Some? then AuthSignal(e).value else m.flag)
  }

  predicate Possible(m: System, step: Step) {
    match step
    case Deliver(generation, e) => generation < |m.sessions| && SessionSpec.Enabled(m.sessions[generation], e, m.now)
    case _ => true
  }

  function Next(m: System, step: Step): System
    requires Possible(m, step)
  {
    match step
    case Elapse(ms) => m.(now := m.now + ms)
    case Deliver(generation, e) => DeliverTo(m, generation, e)
    case EnsureOrderStream(request) => Subscribe(m, request)
    case Submit(request) => SubmitOrder(m, request)
  }

  /** A run of the system: every state follows from the one before by one possible step. */
  ghost predicate Run(states: seq<System>, steps: seq<Step>) {
    && |states| == |steps| + 1
    && (forall i :: 0 <= i < |steps| ==> Possible(states[i], steps[i]) && states[i + 1] == Next(states[i], steps[i]))
  }

  /** A step sets the flag only on the strength of the current session's own login reply. */
  predicate OwnAck(m: System, step: Step) {
    step.Deliver? && AuthSignal(step.event) == Some(true) ==>
      step.generation == |m.sessions| - 1 && step.event == ReadDone(LoginAck)
  }

  /**
   A step vouches for the flag: if it sets it, the current session counts as logged in by then. A late
   reply of another session, or a text that merely contains the words, vouches only if it does so anyway.
   */
  predicate Vouched(m: System, step: Step) {
    step.Deliver? && AuthSignal(step.event) == Some(true) ==>
      && HasCurrent(m)
      && if step.generation == |m.sessions| - 1 then NextAuthenticated(Current(m).authenticated, step.event.inbound)
         else Current(m).authenticated
  }

  /** With ideal timers no time passes while a tick or an aborted wait is due. */
  predicate Prompt(m: System, step: Step) {
    step.Elapse? ==> forall i, w :: 0 <= i < |m.sessions| && w in m.sessions[i].tasks.waits ==> InTime(w, m.now, m.now + step.ms)
  }

  predicate InTime(w: Wait, now: int, later: int) {
    if w.Aborted? then later == now else later <= now || later <= w.due
  }

  // ----- invariants --------------------------------------------------------------------------

  /** The flag vouches for the current session only. */
  predicate Honest(m: System) {
    m.flag ==> HasCurrent(m) && Current(m).authenticated
  }

  ghost predicate Good(s: Session, now: int) {
    s.isPrivate && Inv(s, now) && SessionTheorems.FirstFlush(s)
  }

  ghost predicate AllGood(sessions: seq<Session>, now: int) {
    forall i :: 0 <= i < |sessions| ==> Good(sessions[i], now)
  }

  /** A session whose timer is running was heard from at most 80 s ago. */
  predicate Punctual(s: Session, now: int) {
    s.tasks.waits != multiset{} ==> now - Base(s) <= STALE_AFTER_MS + PING_INTERVAL_MS
  }

  ghost predicate AllPunctual(sessions: seq<Session>, now: int) {
    forall i :: 0 <= i < |sessions| ==> Punctual(sessions[i], now)
  }

  ghost predicate SessionsInv(m: System) {
    m.now > 0 && AllGood(m.sessions, m.now)
  }

  /** What an order let through by the guard may rely on. */
  ghost predicate Covered(p: Placement) {
    && !Expired(p.session)
    && p.session.connectedAtMs > 0 && p.at - Base(p.session) <= STALE_AFTER_MS
    && p.session.wire != [] && p.session.wire[0] == Sent(LoginFrame(p.session.connectedAtMs))
    && LastLogin(p.session.wire) == Some(true)
  }

  /** Dead and recovered lines alternate, starting with a dead one. */
  ghost predicate LinesAlternate(m: System) {
    && (forall i :: 0 <= i < |m.lines| ==> m.lines[i] == if i % 2 == 0 then StreamDead else StreamRecovered)
    && (m.deadLogged <==> |m.lines| % 2 == 1)
  }
}
