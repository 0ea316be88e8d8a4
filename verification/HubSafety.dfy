/** What follows for every interleaving of the hub and the broadcaster. */
module HubSafety {
  import opened HubSteps
  import opened HubInvariant
  import B = Broadcaster

  /** A subscriber is in a topic's fanout exactly when the topic is among its own, and no fanout is empty. */
  lemma IndexesAgree(es: seq<Event>, s: SubscriberId, t: Topic)
    ensures var w := Run(INITIAL, es);
            && (t in w.topics ==> w.topics[t] in w.fanouts && w.fanouts[w.topics[t]].subscribers != {})
            && ((t in w.topics && s in w.fanouts[w.topics[t]].subscribers) <==> (s in w.subscribers && t in w.subscribers[s].topics))
  {
    InitialGood();
    RunKeeps(INITIAL, es);
    var w := Run(INITIAL, es);
    assert StreamedOk(w, s, t);
    if t in w.topics {
      assert TopicOk(w, t) && FanOk(w, w.topics[t]) && MemberOk(w, s, w.topics[t]);
    }
  }

  /** Every listed topic has a subscription of its own, which the hub has not given up; every other it has. */
  lemma OneSubscriptionEach(es: seq<Event>, f: FanId, g: FanId)
    requires f in Run(INITIAL, es).fanouts && g in Run(INITIAL, es).fanouts
    ensures var w := Run(INITIAL, es);
            var fan := w.fanouts[f];
            && (fan.sub !in w.dropped <==> fan.topic in w.topics && w.topics[fan.topic] == f)
            && (fan.sub == w.fanouts[g].sub ==> f == g)
            && (fan.sub !in w.dropped && w.fanouts[g].sub !in w.dropped && fan.topic == w.fanouts[g].topic ==> f == g)
  {
    InitialGood();
    RunKeeps(INITIAL, es);
    var w := Run(INITIAL, es);
    assert FanOk(w, f) && FanOk(w, g) && PairOk(w, f, g);
  }

  /** After a teardown, and until it streams again, no fanout mentions the subscriber. */
  lemma {:induction false} GoneUntilStreaming(w: World, s: SubscriberId, es: seq<Event>)
    requires Inv(w) && s in w.subscribers && w.subscribers[s].topics == {}
    requires forall e <- es :: !(e.StreamFrom? && e.s == s)
    ensures var v := Run(w, es);
            && s in v.subscribers && v.subscribers[s].topics == {}
            && forall f :: f in v.fanouts ==> s !in v.fanouts[f].subscribers
    decreases |es|
  {
    if es == [] {
      forall f | f in w.fanouts ensures s !in w.fanouts[f].subscribers { assert MemberOk(w, s, f); }
    } else {
      assert es[0] in es && forall e <- es[1..] :: e in es;
      StepKeeps(w, es[0]);
      GoneStep(w, s, es[0]);
      GoneUntilStreaming(Next(w, es[0]), s, es[1..]);
    }
  }

  lemma GoneStep(w: World, s: SubscriberId, e: Event)
    requires s in w.subscribers && w.subscribers[s].topics == {} && !(e.StreamFrom? && e.s == s)
    ensures s in Next(w, e).subscribers && Next(w, e).subscribers[s].topics == {}
  {
    hide B.Next;
  }

  lemma TeardownForgets(es: seq<Event>, s: SubscriberId, more: seq<Event>)
    requires s in Run(INITIAL, es).subscribers && forall e <- more :: !(e.StreamFrom? && e.s == s)
    ensures var v := Run(UntrackStep(Run(INITIAL, es), s), more);
            forall f :: f in v.fanouts ==> s !in v.fanouts[f].subscribers
  {
    InitialGood();
    RunKeeps(INITIAL, es);
    UntrackKeeps(Run(INITIAL, es), s);
    GoneUntilStreaming(UntrackStep(Run(INITIAL, es), s), s, more);
  }

  /**
   What one fanout puts in a subscriber's outbox is an in-order, duplicate-free part of what
   was published on its topic while it lasted, and no outbox holds more than it has room for.
   */
  lemma DeliveredInOrder(es: seq<Event>, c: ConnId, i: nat, j: nat)
    requires c in Run(INITIAL, es).conns && i < |Run(INITIAL, es).conns[c].sent|
    ensures var w := Run(INITIAL, es);
            var sent := w.conns[c].sent;
            var d := sent[i];
            && d.fan in w.fanouts && d.to in w.subscribers && w.subscribers[d.to].conn == c
            && d.msg.index < |w.b.log| && w.b.log[d.msg.index] == (w.fanouts[d.fan].topic, d.msg.payload)
            && (i < j < |sent| && sent[j].fan == d.fan && sent[j].to == d.to ==> d.msg.index < sent[j].msg.index)
            && w.conns[c].taken <= |sent| <= w.conns[c].taken + OUTBOX
  {
    InitialGood();
    RunKeeps(INITIAL, es);
    var w := Run(INITIAL, es);
    assert DeliveryOk(w, c, i);
    if i < j { assert OrderOk(w, c, i, j); }
  }

  // ----- A pump delivers -----

  /** Pump f has msg still to send to s. */
  ghost predicate Owed(w: World, f: FanId, s: SubscriberId, msg: B.Msg) {
    f in w.fanouts && w.fanouts[f].pump.Sending? && w.fanouts[f].pump.msg == msg && s in w.fanouts[f].pump.left
  }

  ghost predicate Delivered(w: World, f: FanId, s: SubscriberId, msg: B.Msg) {
    && s in w.subscribers && w.subscribers[s].conn in w.conns
    && Delivery(f, s, msg) in w.conns[w.subscribers[s].conn].sent
  }

  /** Whenever pump f sends to s in the run, its connection's outbox has room. */
  ghost predicate RoomForEach(w: World, es: seq<Event>, f: FanId, s: SubscriberId)
    decreases |es|
  {
    es != [] ==>
      && (es[0] == PumpSend(f, s) && s in w.subscribers && w.subscribers[s].conn in w.conns ==>
            var conn := w.conns[w.subscribers[s].conn]; |conn.sent| - conn.taken < 16)
      && RoomForEach(Next(w, es[0]), es[1..], f, s)
  }

  ghost predicate ConnsKnown(w: World) {
    forall s <- w.subscribers :: w.subscribers[s].conn in w.conns
  }

  lemma {:induction false} RunKnowsConns(w: World, es: seq<Event>)
    requires ConnsKnown(w)
    ensures ConnsKnown(Run(w, es))
    decreases |es|
  {
    if es != [] {
      StepKnowsConns(w, es[0]);
      RunKnowsConns(Next(w, es[0]), es[1..]);
    }
  }

  lemma StepKnowsConns(w: World, e: Event)
    requires ConnsKnown(w)
    ensures ConnsKnown(Next(w, e))
  {
    hide B.Next;
  }

  lemma StepDelivers(w: World, e: Event, f: FanId, s: SubscriberId, msg: B.Msg)
    requires s in w.subscribers && ConnsKnown(w) && (Owed(w, f, s, msg) || Delivered(w, f, s, msg)) && RoomForEach(w, [e], f, s)
    ensures s in Next(w, e).subscribers && (Owed(Next(w, e), f, s, msg) || Delivered(Next(w, e), f, s, msg))
  {
    hide B.Next;
    if e.PumpSend? {
      SendDelivers(w, e.f, e.s, f, s, msg);
    }
  }

  lemma SendDelivers(w: World, g: FanId, x: SubscriberId, f: FanId, s: SubscriberId, msg: B.Msg)
    requires s in w.subscribers && ConnsKnown(w) && (Owed(w, f, s, msg) || Delivered(w, f, s, msg)) && RoomForEach(w, [PumpSend(g, x)], f, s)
    ensures var v := PumpSendStep(w, g, x); s in v.subscribers && (Owed(v, f, s, msg) || Delivered(v, f, s, msg))
  {
  }

  lemma {:induction false} RunDelivers(w: World, es: seq<Event>, f: FanId, s: SubscriberId, msg: B.Msg)
    requires s in w.subscribers && ConnsKnown(w) && (Owed(w, f, s, msg) || Delivered(w, f, s, msg)) && RoomForEach(w, es, f, s)
    ensures Owed(Run(w, es), f, s, msg) || Delivered(Run(w, es), f, s, msg)
    decreases |es|
  {
    hide Next, Owed, Delivered, ConnsKnown;
    if es != [] {
      StepKnowsConns(w, es[0]);
      StepDelivers(w, es[0], f, s, msg);
      RunDelivers(Next(w, es[0]), es[1..], f, s, msg);
    }
  }

  /**
   Whoever is in the fanout when its pump turns to the subscribers with a message is in the
   end sent that message, unless the outbox is full when its turn comes; and until it is
   sent the pump goes on to no other.
   */
  lemma EveryoneIsServed(before: seq<Event>, f: FanId, s: SubscriberId, after: seq<Event>)
    requires var w := Run(INITIAL, before);
             && f in w.fanouts && w.fanouts[f].pump.Got? && s in w.fanouts[f].subscribers
             && RoomForEach(Next(w, PumpSnapshot(f)), after, f, s)
    ensures var w := Run(INITIAL, before);
            var msg, v := w.fanouts[f].pump.msg, Run(Next(w, PumpSnapshot(f)), after);
            Owed(v, f, s, msg) || Delivered(v, f, s, msg)
  {
    InitialGood();
    RunKeeps(INITIAL, before);
    RunKnowsConns(INITIAL, before);
    var w := Run(INITIAL, before);
    assert MemberOk(w, s, f);
    RunDelivers(Next(w, PumpSnapshot(f)), after, f, s, w.fanouts[f].pump.msg);
  }

  /** Whatever the hub and everyone else do, the broadcaster never panics. */
  lemma HubNeverPanics(es: seq<Event>)
    ensures !Run(INITIAL, es).b.panicked
  {
    InitialGood();
    RunKeeps(INITIAL, es);
  }
}
