/**
 The WebSocket session as a state machine: one function per completion callback.

 Time is the wall clock in milliseconds. An asynchronous operation that has been started and whose
 callback has not run yet is an element of `chain` (resolve, connect, handshakes, write, read) or of
 `waits` (the ping timer). Exactly these callbacks hold a reference to the session, so the session
 object dies when both are empty. `accepted` and `wire` are history: the code keeps no such fields.
 */
module SessionSpec {
  import opened Wrappers
  import opened SubscriptionCodec

  const PING_INTERVAL_MS := 20000
  const STALE_AFTER_MS := 3 * PING_INTERVAL_MS

  datatype Op = Resolve | Connect | TlsHandshake | WsHandshake | Write | Read

  /** A started operation. It can succeed only if the transport was open when it was started. */
  datatype Started = Started(op: Op, live: bool)

  /** An outstanding wait on the ping timer: still counting down to `due`, or cancelled. */
  datatype Wait = Armed(due: int) | Aborted

  /** What is outstanding for a session in the io thread. */
  datatype Tasks = Tasks(chain: multiset<Started>, waits: multiset<Wait>)

  function AddOp(tasks: Tasks, p: Started): Tasks { tasks.(chain := tasks.chain + multiset{p}) }

  function AddWait(tasks: Tasks, w: Wait): Tasks { tasks.(waits := tasks.waits + multiset{w}) }

  function DropWait(tasks: Tasks, w: Wait): Tasks { tasks.(waits := tasks.waits - multiset{w}) }

  datatype Frame = LoginFrame(signedAt: int) | SubscribeFrame(sub: Subscription) | EmptyFrame

  /** Which of the two texts that the private stream looks for stands in a logged line; the first one is looked for first. */
  datatype Marker = NoMarker | SaysAuthenticated | SaysLoginFailed

  /**
   One inbound message, after JSON parsing. `Malformed` stands for every message whose handling throws a
   JSON error. `text` is what the venue's own words make of the logged line: the message of a refused login,
   and for data and malformed messages the error of a handler or parser that may quote its input.
   */
  datatype Inbound =
    | Notice(text: Marker)
    | LoginAck
    | LoginRefused(text: Marker)
    | ErrorEvent(text: Marker)
    | SubscribeAck(sub: Subscription)
    | UnsubscribeAck(sub: Subscription)
    | Data(text: Marker)
    | NotAnObject
    | Malformed(text: Marker)

  datatype WireEvent = Sent(frame: Frame) | Received(inbound: Inbound)

  datatype Session = Session(
    isPrivate: bool,
    createdAt: int,
    timerExpiry: int,
    loginSent: bool,
    authenticated: bool,
    acked: seq<Subscription>,
    pending: seq<Subscription>,
    lastPongMs: int,
    connectedAtMs: int,
    staleClosed: bool,
    tasks: Tasks,
    open: bool,
    closes: nat,
    timerCancelled: bool,
    accepted: seq<Subscription>,
    wire: seq<WireEvent>)

  /** What the io thread can deliver to a session. `live` says which started operation completes. */
  datatype Event =
    | OpDone(op: Op, live: bool, ok: bool)
    | ReadDone(inbound: Inbound)
    | ReadFailed(live: bool, tickQueued: bool)
    | TimerFired(due: int)
    | TimerAborted
    | CloseDone(tickQueued: bool)
    | Pong
    | TransportLost

  // ----- health ------------------------------------------------------------------------------

  /** The moment from which the pong age is measured; 0 before the handshake. */
  function Base(s: Session): int {
    if s.lastPongMs > s.connectedAtMs then s.lastPongMs else s.connectedAtMs
  }

  function PongAge(s: Session, now: int): int {
    if Base(s) == 0 then 0 else now - Base(s)
  }

  predicate Stale(s: Session, now: int) {
    PongAge(s, now) > STALE_AFTER_MS
  }

  /** No callback holds the session any more: a weak reference to it no longer locks. */
  predicate Expired(s: Session) {
    s.tasks.chain == multiset{} && s.tasks.waits == multiset{}
  }

  // ----- subscription queue ------------------------------------------------------------------

  function Enqueue(s: Session, sub: Subscription): Session {
    if sub in s.acked || sub in s.pending then s
    else s.(pending := s.pending + [sub], accepted := s.accepted + [sub])
  }

  function Rest(subs: seq<Subscription>): seq<Subscription> {
    if subs == [] then [] else subs[1..]
  }

  /** The frame that flushes the oldest queued request. */
  function NextFrame(pending: seq<Subscription>): Frame {
    if pending == [] then EmptyFrame else SubscribeFrame(pending[0])
  }

  function StartOp(s: Session, op: Op): Session {
    s.(tasks := AddOp(s.tasks, Started(op, s.open)))
  }

  function RemoveFirst(subs: seq<Subscription>, sub: Subscription): seq<Subscription> {
    if subs == [] then []
    else if subs[0] == sub then subs[1..]
    else [subs[0]] + RemoveFirst(subs[1..], sub)
  }

  function NextAuthenticated(authenticated: bool, inbound: Inbound): bool {
    inbound.LoginAck? || (authenticated && !inbound.LoginRefused?)
  }

  function NextAcked(acked: seq<Subscription>, inbound: Inbound): seq<Subscription> {
    match inbound
    case SubscribeAck(sub) => acked + [sub]
    case UnsubscribeAck(sub) => RemoveFirst(acked, sub)
    case _ => acked
  }

  /** Control events touch only the login flag and the list of acknowledged subscriptions. */
  function HandleControl(s: Session, inbound: Inbound): Session {
    s.(authenticated := NextAuthenticated(s.authenticated, inbound), acked := NextAcked(s.acked, inbound))
  }

  // ----- timer -------------------------------------------------------------------------------

  predicate Cancels(s: Session, tickQueued: bool) {
    !tickQueued && s.tasks.waits != multiset{}
  }

  /** Cancelling aborts the outstanding wait (there is never more than one, see SingleChain) unless its tick is already queued. */
  function CancelTimer(s: Session, tickQueued: bool): Session {
    s.(tasks := s.tasks.(waits := if Cancels(s, tickQueued) then multiset{Aborted} else s.tasks.waits),
       timerCancelled := s.timerCancelled || Cancels(s, tickQueued))
  }

  predicate MayBeQueued(s: Session, now: int) {
    forall w :: w in s.tasks.waits && w.Armed? ==> w.due <= now
  }

  // ----- callbacks ---------------------------------------------------------------------------

  function Create(isPrivate: bool, now: int): Session {
    Session(isPrivate, now, now + PING_INTERVAL_MS, false, false, [], [], 0, 0, false,
            Tasks(multiset{}, multiset{}), true, 0, false, [], [])
  }

  function Start(isPrivate: bool, request: Subscription, now: int): Session {
    StartOp(Enqueue(Create(isPrivate, now), request), Resolve)
  }

  function Without(s: Session, op: Op, live: bool): Session {
    s.(tasks := s.tasks.(chain := s.tasks.chain - multiset{Started(op, live)}))
  }

  /** The operation that a successful one starts next. */
  function NextOp(op: Op): Op {
    match op
    case Resolve => Connect
    case Connect => TlsHandshake
    case TlsHandshake => WsHandshake
    case WsHandshake => Write
    case Write => Read
    case Read => Read
  }

  predicate LogsIn(s: Session) { s.isPrivate && !s.loginSent }

  /** A finished handshake starts the timer wait and writes the first frame: the login on a private session. */
  function Opened(s: Session, now: int): Session {
    s.(connectedAtMs := now,
       tasks := AddOp(AddWait(s.tasks, Armed(s.timerExpiry)), Started(Write, s.open)),
       loginSent := s.loginSent || LogsIn(s),
       pending := if LogsIn(s) then s.pending else Rest(s.pending),
       wire := s.wire + [Sent(if LogsIn(s) then LoginFrame(now) else NextFrame(s.pending))])
  }

  /** onResolve, onConnect, onSSLHandshake, onHandshake and onWrite: an error ends the chain. */
  function OnOpDone(s: Session, op: Op, live: bool, ok: bool, now: int): Session {
    var s0 := Without(s, op, live);
    if !ok then s0
    else if op.WsHandshake? then Opened(s0, now)
    else StartOp(s0, NextOp(op))
  }

  /** A public session with nothing acknowledged and nothing queued has no reason to stay. */
  predicate Idle(s: Session) { s.acked == [] && s.pending == [] && !s.isPrivate }

  /** What onRead starts once the message has been handled: flush one request, or read on. */
  function Answer(s: Session, malformed: bool): Session {
    s.(pending := if malformed then s.pending else Rest(s.pending),
       wire := if malformed || s.pending == [] then s.wire else s.wire + [Sent(SubscribeFrame(s.pending[0]))],
       tasks := if malformed then s.tasks else AddOp(s.tasks, Started(if s.pending == [] then Read else Write, s.open)),
       closes := if malformed || Idle(s) then s.closes + 1 else s.closes)
  }

  function OnReadDone(s: Session, inbound: Inbound): Session {
    var s0 := Without(s, Read, true);
    Answer(HandleControl(s0.(wire := s0.wire + [Received(inbound)]), inbound), inbound.Malformed?)
  }

  /** A tick hard-closes a stale session and drops the wait; otherwise it pings and waits again. */
  function OnTick(s: Session, due: int, now: int): Session {
    var rest := DropWait(s.tasks, Armed(due));
    s.(staleClosed := s.staleClosed || Stale(s, now),
       open := s.open && !Stale(s, now),
       timerExpiry := if Stale(s, now) then s.timerExpiry else now + PING_INTERVAL_MS,
       tasks := if Stale(s, now) then rest else AddWait(rest, Armed(now + PING_INTERVAL_MS)))
  }

  function RequestClose(s: Session): Session {
    s.(closes := s.closes + 1)
  }

  function Apply(s: Session, e: Event, now: int): Session {
    match e
    case OpDone(op, live, ok) => OnOpDone(s, op, live, ok, now)
    case ReadDone(inbound) => OnReadDone(s, inbound)
    case ReadFailed(live, tickQueued) => CancelTimer(Without(s, Read, live), tickQueued)
    case TimerFired(due) => OnTick(s, due, now)
    case TimerAborted => s.(tasks := DropWait(s.tasks, Aborted))
    case CloseDone(tickQueued) => CancelTimer(s.(closes := if s.closes > 0 then s.closes - 1 else 0), tickQueued)
    case Pong => s.(lastPongMs := now)
    case TransportLost => s.(open := false)
  }

  /** When an event can happen: what asio and the peer may deliver in a given state. */
  predicate Enabled(s: Session, e: Event, now: int) {
    match e
    case OpDone(op, live, ok) => Started(op, live) in s.tasks.chain && op != Read && (ok ==> live)
    case ReadDone(_) => Started(Read, true) in s.tasks.chain
    case ReadFailed(live, tickQueued) => Started(Read, live) in s.tasks.chain && (tickQueued ==> MayBeQueued(s, now))
    case TimerFired(due) => Armed(due) in s.tasks.waits && due <= now
    case TimerAborted => Aborted in s.tasks.waits
    case CloseDone(tickQueued) => s.closes > 0 && !Expired(s) && (tickQueued ==> MayBeQueued(s, now))
    case Pong => s.open && Started(Read, true) in s.tasks.chain
    case TransportLost => !Expired(s)
  }

  // ----- what the history says ---------------------------------------------------------------

  function Requests(wire: seq<WireEvent>): (subs: seq<Subscription>) {
    if wire == [] then []
    else
      var last := wire[|wire| - 1];
      Requests(wire[..|wire| - 1]) + if last.Sent? && last.frame.SubscribeFrame? then [last.frame.sub] else []
  }

  predicate IsLoginReply(inbound: Inbound) { inbound.LoginAck? || inbound.LoginRefused? }

  /** The venue's last answer to the login on this connection. */
  function LastLogin(wire: seq<WireEvent>): Option<bool> {
    if wire == [] then None
    else
      var last := wire[|wire| - 1];
      if last.Received? && IsLoginReply(last.inbound) then Some(last.inbound.LoginAck?) else LastLogin(wire[..|wire| - 1])
  }

  predicate NoDuplicates(subs: seq<Subscription>) {
    forall i, j :: 0 <= i < j < |subs| ==> subs[i] != subs[j]
  }

  /** Only the first frame goes out unprompted; every later one is a subscribe that answers one inbound message. */
  ghost predicate WireShape(isPrivate: bool, connectedAtMs: int, wire: seq<WireEvent>) {
    && (wire != [] ==> wire[0].Sent? && (if isPrivate then wire[0].frame == LoginFrame(connectedAtMs) else wire[0].frame.SubscribeFrame?))
    && (forall i :: 1 <= i < |wire| && wire[i].Sent? ==> wire[i].frame.SubscribeFrame? && wire[i - 1].Received?)
  }

  // ----- invariant ---------------------------------------------------------------------------

  predicate AfterHandshake(op: Op) { op.Write? || op.Read? }

  ghost predicate SingleChain(s: Session) {
    && |s.tasks.chain| <= 1 && |s.tasks.waits| <= 1
    && (forall p :: p in s.tasks.chain ==> (AfterHandshake(p.op) <==> s.connectedAtMs > 0) && (s.open ==> p.live))
  }

  ghost predicate BeforeHandshake(s: Session) {
    s.connectedAtMs == 0 ==>
      && s.tasks.waits == multiset{} && s.wire == [] && !s.loginSent && !s.authenticated && s.acked == []
      && s.lastPongMs == 0 && !s.staleClosed && !s.timerCancelled && s.pending != []
      && s.timerExpiry == s.createdAt + PING_INTERVAL_MS
  }

  ghost predicate Clocks(s: Session, now: int) {
    && 0 < s.createdAt <= now && 0 <= s.lastPongMs <= now && 0 <= s.connectedAtMs <= now
    && (s.connectedAtMs > 0 ==> s.createdAt <= s.connectedAtMs)
    && (forall w :: w in s.tasks.waits && w.Armed? ==> w.due == s.timerExpiry && w.due <= Base(s) + STALE_AFTER_MS + PING_INTERVAL_MS)
  }

  ghost predicate Queue(s: Session) {
    && s.accepted == Requests(s.wire) + s.pending
    && NoDuplicates(s.pending)
  }

  ghost predicate Login(s: Session) {
    && WireShape(s.isPrivate, s.connectedAtMs, s.wire)
    && (s.connectedAtMs > 0 ==> s.wire != [] && (s.isPrivate <==> s.loginSent))
    && (s.authenticated <==> LastLogin(s.wire) == Some(true))
  }

  ghost predicate TimerEnds(s: Session) {
    && (s.staleClosed ==> !s.open)
    && (s.connectedAtMs > 0 && s.tasks.waits == multiset{} ==> s.staleClosed || s.timerCancelled)
    && (Aborted in s.tasks.waits ==> s.timerCancelled)
  }

  ghost predicate Inv(s: Session, now: int) {
    SingleChain(s) && BeforeHandshake(s) && Clocks(s, now) && Queue(s) && Login(s) && TimerEnds(s)
  }
}
