/** The order in which the operations of a session complete: resolve, connect, TLS, WebSocket handshake, then writes and reads. */
module SessionChain {
  import opened Wrappers
  import opened SubscriptionCodec
  import opened SessionSpec
  import opened SessionProofs
  import opened SessionRuns
  import SessionTheorems

  /** The operations that completed successfully among the first n actions. */
  function Completed(actions: seq<Action>, n: nat): seq<Op>
    requires n <= |actions|
  {
    if n == 0 then []
    else Completed(actions, n - 1) + CompletedBy(actions[n - 1])
  }

  function CompletedBy(a: Action): seq<Op> {
    if a.Callback? && a.event.OpDone? && a.event.ok then [a.event.op]
    else if a.Callback? && a.event.ReadDone? then [Read]
    else []
  }

  predicate Follows(earlier: Op, later: Op) {
    || (earlier, later) in {(Resolve, Connect), (Connect, TlsHandshake), (TlsHandshake, WsHandshake), (WsHandshake, Write)}
    || (earlier, later) in {(Write, Read), (Read, Read), (Read, Write)}
  }

  /** `op` may come after these operations. */
  predicate ComesNext(done: seq<Op>, op: Op) {
    if done == [] then op == Resolve else Follows(done[|done| - 1], op)
  }

  ghost predicate InOrder(done: seq<Op>) {
    forall i :: 0 <= i < |done| ==> ComesNext(done[..i], done[i])
  }

  /** Whatever is outstanding comes next. */
  ghost predicate Expects(s: Session, done: seq<Op>) {
    InOrder(done) && forall p :: p in s.tasks.chain ==> ComesNext(done, p.op)
  }

  lemma InOrderSnoc(done: seq<Op>, op: Op)
    requires InOrder(done) && ComesNext(done, op)
    ensures InOrder(done + [op])
  {
    forall i | 0 <= i < |done + [op]| ensures ComesNext((done + [op])[..i], (done + [op])[i]) {
      assert (done + [op])[..i] == done[..i];
      if i == |done| {
        assert done[..i] == done;
      }
    }
  }

  lemma OpChain(s: Session, op: Op, live: bool, ok: bool, now: int)
    requires s.tasks.chain == multiset{Started(op, live)} && op != Read
    ensures OnOpDone(s, op, live, ok, now).tasks.chain == if ok then multiset{Started(NextOp(op), s.open)} else multiset{}
  {
    assert Without(s, op, live).tasks.chain == multiset{};
  }

  lemma NextComesNext(done: seq<Op>, op: Op)
    requires op != Read
    ensures ComesNext(done + [op], NextOp(op))
  {
  }

  lemma OpExpects(s: Session, op: Op, live: bool, ok: bool, now: int, done: seq<Op>)
    requires Inv(s, now) && Started(op, live) in s.tasks.chain && op != Read && Expects(s, done)
    ensures Expects(OnOpDone(s, op, live, ok, now), done + if ok then [op] else [])
  {
    SoleElement(s.tasks.chain, Started(op, live));
    OpChain(s, op, live, ok, now);
    if ok {
      InOrderSnoc(done, op);
      NextComesNext(done, op);
    } else {
      assert done + [] == done;
    }
  }

  lemma ReadExpects(s: Session, inbound: Inbound, done: seq<Op>)
    requires s.tasks.chain == multiset{Started(Read, true)} && Expects(s, done)
    ensures Expects(OnReadDone(s, inbound), done + [Read])
  {
    ReadDoneFacts(s, inbound);
    assert Started(Read, true) in s.tasks.chain;
    InOrderSnoc(done, Read);
  }

  lemma QuietChain(s: Session, e: Event, now: int)
    requires !e.OpDone? && !e.ReadDone?
    ensures Apply(s, e, now).tasks.chain == if e.ReadFailed? then s.tasks.chain - multiset{Started(Read, e.live)} else s.tasks.chain
  {
  }

  lemma OpDoneExpects(s: Session, e: Event, now: int, done: seq<Op>)
    requires Inv(s, now) && e.OpDone? && SessionSpec.Enabled(s, e, now) && Expects(s, done)
    ensures Expects(Apply(s, e, now), done + CompletedBy(Callback(e)))
  {
    OpExpects(s, e.op, e.live, e.ok, now, done);
    assert Apply(s, e, now) == OnOpDone(s, e.op, e.live, e.ok, now);
  }

  lemma ReadDoneExpects(s: Session, e: Event, now: int, done: seq<Op>)
    requires Inv(s, now) && e.ReadDone? && SessionSpec.Enabled(s, e, now) && Expects(s, done)
    ensures Expects(Apply(s, e, now), done + CompletedBy(Callback(e)))
  {
    SoleElement(s.tasks.chain, Started(Read, true));
    ReadExpects(s, e.inbound, done);
    assert Apply(s, e, now) == OnReadDone(s, e.inbound);
  }

  lemma QuietExpects(s: Session, e: Event, now: int, done: seq<Op>)
    requires !e.OpDone? && !e.ReadDone? && Expects(s, done)
    ensures Expects(Apply(s, e, now), done)
  {
    QuietChain(s, e, now);
  }

  lemma CallbackExpects(s: Session, e: Event, now: int, done: seq<Op>)
    requires Inv(s, now) && SessionSpec.Enabled(s, e, now) && Expects(s, done)
    ensures Expects(Apply(s, e, now), done + CompletedBy(Callback(e)))
  {
    if e.OpDone? {
      OpDoneExpects(s, e, now, done);
    } else if e.ReadDone? {
      ReadDoneExpects(s, e, now, done);
    } else {
      QuietExpects(s, e, now, done);
      assert done + CompletedBy(Callback(e)) == done;
    }
  }

  lemma ActExpects(s: Session, a: Action, now: int, done: seq<Op>)
    requires Inv(s, now) && Can(s, a, now) && Expects(s, done)
    ensures Expects(Act(s, a, now), done + CompletedBy(a))
  {
    if a.Callback? {
      CallbackExpects(s, a.event, now, done);
    } else {
      assert done + [] == done;
    }
  }

  /**
   On every run the operations complete in this order and no other, and whatever is outstanding is what comes
   next: nothing is written before resolve, connect, TLS and the WebSocket handshake have succeeded in turn,
   and every write is followed by a read.
   */
  lemma {:induction false} OrderOnLives(states: seq<Session>, actions: seq<Action>, times: seq<int>, isPrivate: bool, request: Subscription, n: nat)
    requires Life(states, actions, times, isPrivate, request) && n <= |actions|
    ensures InOrder(Completed(actions, n)) && forall p :: p in states[n].tasks.chain ==> ComesNext(Completed(actions, n), p.op)
  {
    if n > 0 {
      OrderOnLives(states, actions, times, isPrivate, request, n - 1);
      SessionTheorems.LifeInv(states, actions, times, isPrivate, request, n - 1);
      ActExpects(states[n - 1], actions[n - 1], times[n - 1], Completed(actions, n - 1));
    }
  }
}
