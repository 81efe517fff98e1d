/** The client, the private stream and the submit guard as the objects of the code, proved against OrderStreamSpec. */
module OrderStream {
  import opened Wrappers
  import opened SubscriptionCodec
  import opened SessionSpec
  import opened OrderStreamSpec
  import opened WsSession

  ghost function Views(sessions: seq<WebSocketSession>): (views: seq<Session>)
    reads sessions
    ensures |views| == |sessions| && forall i :: 0 <= i < |sessions| ==> views[i] == sessions[i].View()
  {
    seq(|sessions|, i requires 0 <= i < |sessions| reads sessions => sessions[i].View())
  }

  /** Owns no session: it only remembers the newest one weakly. `built` lists every session it ever created. */
  class WebSocketClient {
    var built: seq<WebSocketSession>

    ghost predicate Valid()
      reads this
    {
      forall i, j :: 0 <= i < j < |built| ==> built[i] != built[j]
    }

    constructor ()
      ensures Valid() && built == []
    {
      built := [];
    }

    predicate IsSessionAlive(now: int)
      reads this, built
      ensures IsSessionAlive(now) <==> NewestAlive(Views(built), now)
    {
      built != [] && !built[|built| - 1].IsExpired() && !built[|built| - 1].IsStale(now)
    }

    method Route(request: Subscription)
      requires Valid() && built != []
      modifies built
      ensures Views(built) == Routed(old(Views(built)), request)
    {
      built[|built| - 1].WriteSubscriptionRequest(request);
    }

    /** Asks the newest session to close if the weak reference still locks. */
    method CloseNewest()
      requires Valid()
      modifies built
      ensures Views(built) == Closed(old(Views(built)))
    {
      if built != [] && !built[|built| - 1].IsExpired() {
        built[|built| - 1].Close();
      }
    }

    method Build(request: Subscription, now: int)
      requires Valid()
      modifies this
      ensures Valid() && |built| == |old(built)| + 1 && built[..|old(built)|] == old(built) && fresh(built[|old(built)|])
      ensures Views(built) == old(Views(built)) + [Start(true, request, now)]
    {
      var ws := new WebSocketSession(true, now);
      ws.Run(request);
      built := built + [ws];
    }

    /** Routes the request to the newest session, or replaces it when it is gone or stale. */
    method Subscribe(request: Subscription, now: int) returns (rebuilt: bool)
      requires Valid()
      modifies this, built
      ensures Valid() && |built| == |old(built)| + (if rebuilt then 1 else 0) && built[..|old(built)|] == old(built)
      ensures rebuilt ==> fresh(built[|built| - 1])
      ensures rebuilt <==> !old(IsSessionAlive(now))
      ensures Views(built) == Subscribed(old(Views(built)), request, now)
    {
      if IsSessionAlive(now) {
        Route(request);
        return false;
      }
      CloseNewest();
      Build(request, now);
      return true;
    }
  }

  /** Holds the login flag that health checks read; the flag follows the logged lines and is reset by a rebuild. */
  class PrivateStream {
    const client: WebSocketClient
    var authenticated: bool

    constructor ()
      ensures fresh(client) && client.Valid() && client.built == [] && !authenticated
    {
      client := new WebSocketClient();
      authenticated := false;
    }

    method SubscribeOrders(request: Subscription, now: int)
      requires client.Valid()
      modifies this, client, client.built
      ensures client.Valid() && old(client.built) <= client.built && fresh(set s | s in client.built[|old(client.built)|..])
      ensures Views(client.built) == Subscribed(old(Views(client.built)), request, now)
      ensures authenticated == (old(authenticated) && old(client.IsSessionAlive(now)))
    {
      var rebuilt := client.Subscribe(request, now);
      if rebuilt {
        authenticated := false;
      }
    }

    /** The logger callback: two texts move the flag, all others leave it alone. */
    method OnLogMessage(says: Marker)
      modifies this`authenticated
      ensures authenticated == if Signal(says).Some? then Signal(says).value else old(authenticated)
    {
      if says == SaysAuthenticated {
        authenticated := true;
      } else if says == SaysLoginFailed {
        authenticated := false;
      }
    }

    predicate IsAlive(now: int)
      reads this, client, client.built
    {
      client.IsSessionAlive(now) && authenticated
    }
  }

  /** What the session logs about an event, as far as the private stream can tell. */
  function Logged(e: Event): (says: Marker)
    ensures Signal(says) == AuthSignal(e)
  {
    if !e.ReadDone? then NoMarker
    else match e.inbound
      case LoginAck => SaysAuthenticated
      case LoginRefused(text) => if text == SaysAuthenticated then SaysAuthenticated else SaysLoginFailed
      case Notice(text) => text
      case ErrorEvent(text) => text
      case Data(text) => text
      case Malformed(text) => text
      case _ => NoMarker
  }

  /** The part of the gateway that stands in front of order submission. */
  class SubmitGuard {
    const stream: PrivateStream
    var streamDeadLogged: bool
    ghost var lines: seq<Line>
    ghost var placed: seq<Placement>

    ghost predicate Valid()
      reads stream.client
    {
      stream.client.Valid()
    }

    ghost function View(now: int): System
      reads this, stream, stream.client, stream.client.built
    {
      System(now, Views(stream.client.built), stream.authenticated, streamDeadLogged, lines, placed)
    }

    constructor (ghost now: int)
      ensures Valid() && fresh(stream) && fresh(stream.client) && View(now) == Init(now)
    {
      stream := new PrivateStream();
      streamDeadLogged := false;
      lines, placed := [], [];
    }

    method EnsureOrderStream(request: Subscription, now: int)
      requires Valid()
      modifies stream, stream.client, stream.client.built
      ensures Valid() && View(now) == OrderStreamSpec.Subscribe(old(View(now)), request)
    {
      stream.SubscribeOrders(request, now);
    }

    /** True when the order may go out; otherwise the refusal has triggered the heal. */
    method GuardPrivateStream(request: Subscription, now: int) returns (passes: bool)
      requires Valid()
      modifies this, stream, stream.client, stream.client.built
      ensures Valid() && (passes <==> old(Alive(View(now))))
      ensures View(now) == SubmitOrder(old(View(now)), request).(placed := old(placed))
    {
      if stream.IsAlive(now) {
        LogRecovered();
        return true;
      }
      EnsureOrderStream(request, now);
      LogDead();
      return false;
    }

    method LogRecovered()
      modifies this`streamDeadLogged, this`lines
      ensures !streamDeadLogged && lines == if old(streamDeadLogged) then old(lines) + [StreamRecovered] else old(lines)
    {
      if streamDeadLogged {
        lines := lines + [StreamRecovered];
      }
      streamDeadLogged := false;
    }

    method LogDead()
      modifies this`streamDeadLogged, this`lines
      ensures streamDeadLogged && lines == if old(streamDeadLogged) then old(lines) else old(lines) + [StreamDead]
    {
      if !streamDeadLogged {
        lines := lines + [StreamDead];
      }
      streamDeadLogged := true;
    }

    /** The submission as far as the guard goes: the order is placed exactly when the guard passes. */
    method Submit(request: Subscription, now: int) returns (passes: bool)
      requires Valid()
      modifies this, stream, stream.client, stream.client.built
      ensures Valid() && View(now) == SubmitOrder(old(View(now)), request)
    {
      ghost var m := View(now);
      passes := GuardPrivateStream(request, now);
      if passes {
        placed := placed + [Placement(now, |m.sessions| - 1, Current(m))];
      }
    }

    /** The io thread completes one operation of one session, and the logger callback runs. */
    method Dispatch(generation: nat, e: Event, now: int)
      requires Valid() && Possible(View(now), Deliver(generation, e))
      modifies stream, stream.client.built
      ensures Valid() && View(now) == DeliverTo(old(View(now)), generation, e)
    {
      stream.client.built[generation].Complete(e, now);
      stream.OnLogMessage(Logged(e));
    }
  }
}
