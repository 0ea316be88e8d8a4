/**
 The invariant of the hub, and that every step of it or of the broadcaster keeps it.

 The two indexes agree, no fanout is empty, and every topic that is listed has the one
 subscription the hub has not given up. What a pump has taken lies before what its
 subscription still buffers, and what a connection was sent of one topic lies before what
 the pump has yet to send it, so that deliveries keep the order of publication.
 */
module HubInvariant {
  import opened Results
  import opened HubSteps
  import B = Broadcaster

  // ----- Invariants -----

  /** A fanout is listed under its topic, or empty and unsubscribed. */
  ghost predicate FanOk(w: World, f: FanId)
    requires f in w.fanouts
  {
    var fan := w.fanouts[f];
    && fan.sub in w.b.subs && w.b.subs[fan.sub].topic == fan.topic
    && (if fan.topic in w.topics && w.topics[fan.topic] == f then fan.subscribers != {} && fan.sub !in w.dropped
        else fan.subscribers == {} && fan.sub in w.dropped)
  }

  ghost predicate TopicOk(w: World, t: Topic)
    requires t in w.topics
  {
    w.topics[t] in w.fanouts && w.fanouts[w.topics[t]].topic == t
  }

  /** The two indexes agree. */
  ghost predicate MemberOk(w: World, s: SubscriberId, f: FanId) {
    f in w.fanouts ==> (s in w.fanouts[f].subscribers <==> Streams(w, s, f))
  }

  ghost predicate StreamedOk(w: World, s: SubscriberId, t: Topic) {
    s in w.subscribers && t in w.subscribers[s].topics ==> t in w.topics
  }

  ghost predicate PairOk(w: World, f: FanId, g: FanId) {
    f in w.fanouts && g in w.fanouts && w.fanouts[f].sub == w.fanouts[g].sub ==> f == g
  }

  ghost predicate IndexOk(w: World) {
    && (forall f {:trigger FanOk(w, f)} :: f in w.fanouts ==> FanOk(w, f))
    && (forall t {:trigger TopicOk(w, t)} :: t in w.topics ==> TopicOk(w, t))
    && (forall s, f {:trigger MemberOk(w, s, f)} :: MemberOk(w, s, f))
    && (forall s, t {:trigger StreamedOk(w, s, t)} :: StreamedOk(w, s, t))
    && (forall f, g {:trigger PairOk(w, f, g)} :: PairOk(w, f, g))
    && (forall bs :: bs in w.dropped ==> bs in w.b.subs)
  }

  /** What pump f can have put in the outbox of s: messages before this index. */
  ghost function Limit(w: World, f: FanId, s: SubscriberId): int
    requires f in w.fanouts && w.fanouts[f].sub in w.b.subs
  {
    var pump, got := w.fanouts[f].pump, w.b.subs[w.fanouts[f].sub].received;
    if pump.Got? || (pump.Sending? && s in pump.left) then pump.msg.index
    else if got == [] then 0 else got[|got| - 1].index + 1
  }

  ghost predicate PumpOk(w: World, f: FanId)
    requires f in w.fanouts
  {
    var fan := w.fanouts[f];
    && fan.sub in w.b.subs && w.b.subs[fan.sub].topic == fan.topic
    && (!fan.pump.Waiting? ==>
          var got := w.b.subs[fan.sub].received;
          got != [] && got[|got| - 1] == fan.pump.msg)
  }

  ghost predicate DeliveryOk(w: World, c: ConnId, i: nat)
    requires c in w.conns && i < |w.conns[c].sent|
  {
    var d := w.conns[c].sent[i];
    && d.fan in w.fanouts && w.fanouts[d.fan].sub in w.b.subs && d.to in w.subscribers && w.subscribers[d.to].conn == c
    && d.msg.index < Limit(w, d.fan, d.to)
    && d.msg.index < |w.b.log| && w.b.log[d.msg.index] == (w.fanouts[d.fan].topic, d.msg.payload)
  }

  /** Of two deliveries from one fanout to one subscriber, the later one was published later. */
  ghost predicate OrderOk(w: World, c: ConnId, i: nat, j: nat) {
    c in w.conns && i < j < |w.conns[c].sent| && w.conns[c].sent[i].fan == w.conns[c].sent[j].fan && w.conns[c].sent[i].to == w.conns[c].sent[j].to
    ==> w.conns[c].sent[i].msg.index < w.conns[c].sent[j].msg.index
  }

  ghost predicate FlowOk(w: World) {
    && B.Inv(w.b)
    && (forall f {:trigger PumpOk(w, f)} :: f in w.fanouts ==> PumpOk(w, f))
    && (forall c, i {:trigger DeliveryOk(w, c, i)} :: c in w.conns && 0 <= i < |w.conns[c].sent| ==> DeliveryOk(w, c, i))
    && (forall c, i, j {:trigger OrderOk(w, c, i, j)} :: 0 <= i < j ==> OrderOk(w, c, i, j))
    && (forall c :: c in w.conns ==> w.conns[c].taken <= |w.conns[c].sent| <= w.conns[c].taken + OUTBOX)
  }

  ghost predicate Inv(w: World) {
    IndexOk(w) && FlowOk(w)
  }

  // ----- Steps that leave the indexes alone -----

  lemma IndexKeep(w: World, v: World)
    requires IndexOk(w) && v.topics == w.topics && v.dropped == w.dropped && v.fanouts.Keys == w.fanouts.Keys
    requires forall f :: f in w.fanouts ==>
      v.fanouts[f].topic == w.fanouts[f].topic && v.fanouts[f].sub == w.fanouts[f].sub && v.fanouts[f].subscribers == w.fanouts[f].subscribers
    requires forall s :: s in w.subscribers ==> s in v.subscribers && v.subscribers[s].topics == w.subscribers[s].topics
    requires forall s :: s in v.subscribers && s !in w.subscribers ==> v.subscribers[s].topics == {}
    requires forall x :: x in w.b.subs ==> x in v.b.subs && v.b.subs[x].topic == w.b.subs[x].topic
    ensures IndexOk(v)
  {
    forall f | f in v.fanouts ensures FanOk(v, f) { assert FanOk(w, f); }
    forall t | t in v.topics ensures TopicOk(v, t) { assert TopicOk(w, t); }
    forall s, f ensures MemberOk(v, s, f) { assert MemberOk(w, s, f); }
    forall s, t ensures StreamedOk(v, s, t) { assert StreamedOk(w, s, t); }
    forall f, g ensures PairOk(v, f, g) { assert PairOk(w, f, g); }
  }

  // ----- Steps that deliver nothing -----

  /** The broadcaster may go on, as long as no pump's own messages change behind its back. */
  ghost predicate FlowFrame(w: World, v: World) {
    && (forall f :: f in w.fanouts ==> f in v.fanouts && v.fanouts[f].topic == w.fanouts[f].topic && v.fanouts[f].sub == w.fanouts[f].sub)
    && (forall s :: s in w.subscribers ==> s in v.subscribers && v.subscribers[s].conn == w.subscribers[s].conn)
    && (forall c :: c in v.conns ==>
          if c in w.conns then v.conns[c].sent == w.conns[c].sent && v.conns[c].taken == w.conns[c].taken
          else v.conns[c].sent == [] && v.conns[c].taken == 0)
    && |w.b.log| <= |v.b.log| && (forall i :: 0 <= i < |w.b.log| ==> v.b.log[i] == w.b.log[i])
  }

  lemma FlowKeep(w: World, v: World)
    requires FlowOk(w) && FlowFrame(w, v) && B.Inv(v.b)
    requires forall f :: f in v.fanouts ==> PumpOk(v, f)
    requires forall f, s :: f in w.fanouts && f in v.fanouts && w.fanouts[f].sub in w.b.subs && v.fanouts[f].sub in v.b.subs ==>
      Limit(w, f, s) <= Limit(v, f, s)
    ensures FlowOk(v)
  {
    hide Limit, B.Inv;
    forall c, i | c in v.conns && 0 <= i < |v.conns[c].sent|
      ensures DeliveryOk(v, c, i)
    {
      assert DeliveryOk(w, c, i);
      assert PumpOk(v, w.conns[c].sent[i].fan);
    }
    forall c, i, j | 0 <= i < j ensures OrderOk(v, c, i, j) { assert OrderOk(w, c, i, j); }
  }

  /** Nothing at all happens in the broadcaster or to a pump. */
  lemma FlowSame(w: World, v: World)
    requires FlowOk(w) && FlowFrame(w, v) && v.b == w.b
    requires forall f :: f in v.fanouts ==> f in w.fanouts && v.fanouts[f].pump == w.fanouts[f].pump
    ensures FlowOk(v)
  {
    hide B.Inv;
    forall f | f in v.fanouts ensures PumpOk(v, f) { assert PumpOk(w, f); }
    FlowKeep(w, v);
  }

  lemma ConnectionsKeep(w: World, v: World)
    requires Inv(w) && v.b == w.b && v.topics == w.topics && v.dropped == w.dropped && v.fanouts == w.fanouts
    requires forall s :: s in w.subscribers ==> s in v.subscribers && v.subscribers[s] == w.subscribers[s]
    requires forall s :: s in v.subscribers && s !in w.subscribers ==> v.subscribers[s].topics == {}
    requires forall c :: c in v.conns ==>
      if c in w.conns then v.conns[c].sent == w.conns[c].sent && v.conns[c].taken == w.conns[c].taken
      else v.conns[c].sent == [] && v.conns[c].taken == 0
    ensures Inv(v)
  {
    assert IndexOk(v) by { IndexKeep(w, v); }
    FlowSame(w, v);
  }

  // ----- The broadcaster's own steps -----

  lemma BroadcasterFrame(b: B.World, e: B.Event, s: B.SubId)
    requires B.Inv(b) && s in b.subs
    ensures var n := B.Next(b, e);
            && s in n.subs && n.subs[s].topic == b.subs[s].topic
            && (e != B.Receive(s) ==> n.subs[s].received == b.subs[s].received)
  {
  }

  lemma BroadcasterLog(b: B.World, e: B.Event)
    ensures var n := B.Next(b, e);
            |b.log| <= |n.log| && forall i :: 0 <= i < |b.log| ==> n.log[i] == b.log[i]
  {
  }

  lemma BroadcasterKeeps(w: World, e: B.Event)
    requires Inv(w)
    ensures Inv(BroadcasterStep(w, e))
  {
    var v := BroadcasterStep(w, e);
    if v != w {
      B.StepKeeps(w.b, e);
      BroadcasterLog(w.b, e);
      forall x | x in w.b.subs
        ensures x in v.b.subs && v.b.subs[x].topic == w.b.subs[x].topic
        ensures e != B.Receive(x) ==> v.b.subs[x].received == w.b.subs[x].received
      {
        BroadcasterFrame(w.b, e, x);
      }
      assert forall f :: f in w.fanouts ==> e != B.Receive(w.fanouts[f].sub);
      hide B.Next, B.Inv;
      assert IndexOk(v) by { IndexKeep(w, v); }
      hide IndexOk;
      forall f | f in v.fanouts ensures PumpOk(v, f) { assert PumpOk(w, f); }
      FlowKeep(w, v);
    }
  }

  // ----- Streaming and untracking -----

  lemma StreamFromKeeps(w: World, s: SubscriberId, topic: Topic, f: FanId, bs: B.SubId)
    requires Inv(w)
    ensures Inv(StreamFromStep(w, s, topic, f, bs))
  {
    var v := StreamFromStep(w, s, topic, f, bs);
    if v != w {
      if topic in w.topics {
        JoinKeeps(w, s, topic);
      } else {
        NewFanKeeps(w, s, topic, f, bs);
      }
    }
  }

  lemma JoinKeeps(w: World, s: SubscriberId, topic: Topic)
    requires Inv(w) && s in w.subscribers && topic in w.topics && w.topics[topic] in w.fanouts
    ensures Inv(Joined(w, s, w.topics[topic]))
  {
    var v := Joined(w, s, w.topics[topic]);
    assert FlowOk(v) by { FlowSame(w, v); }
    hide FlowOk, Joined;
    JoinIndex(w, s, topic);
  }

  lemma JoinIndex(w: World, s: SubscriberId, topic: Topic)
    requires IndexOk(w) && s in w.subscribers && topic in w.topics && w.topics[topic] in w.fanouts
    ensures IndexOk(Joined(w, s, w.topics[topic]))
  {
    var f := w.topics[topic];
    var v := Joined(w, s, f);
    assert TopicOk(w, topic) && FanOk(w, f);
    forall g | g in v.fanouts ensures FanOk(v, g) { assert FanOk(w, g); }
    forall t | t in v.topics ensures TopicOk(v, t) { assert TopicOk(w, t); }
    forall x, g ensures MemberOk(v, x, g) { assert MemberOk(w, x, g); }
    forall x, t ensures StreamedOk(v, x, t) { assert StreamedOk(w, x, t); }
    forall g, h ensures PairOk(v, g, h) { assert PairOk(w, g, h); }
  }

  /** Streaming keeps the indexes agreeing. */
  lemma StreamIndex(w: World, s: SubscriberId, topic: Topic, f: FanId, bs: B.SubId)
    requires IndexOk(w)
    ensures IndexOk(StreamFromStep(w, s, topic, f, bs))
  {
    if s in w.subscribers {
      if topic in w.topics {
        assert TopicOk(w, topic);
        JoinIndex(w, s, topic);
      } else if !w.b.closed && w.b.publishing.None? && bs !in w.b.subs && f !in w.fanouts {
        NewFanLists(w, s, topic, f, bs);
        NewFanMembers(w, s, topic, f, bs);
      }
    }
    hide IndexOk, Joined;
  }

  lemma NewFanKeeps(w: World, s: SubscriberId, topic: Topic, f: FanId, bs: B.SubId)
    requires Inv(w) && s in w.subscribers && topic !in w.topics && f !in w.fanouts
    requires !w.b.closed && w.b.publishing.None? && bs !in w.b.subs
    ensures Inv(StreamFromStep(w, s, topic, f, bs))
  {
    var v := StreamFromStep(w, s, topic, f, bs);
    assert FlowOk(v) by { NewFanFlow(w, s, topic, f, bs); }
    hide FlowOk, StreamFromStep;
    NewFanLists(w, s, topic, f, bs);
    NewFanMembers(w, s, topic, f, bs);
  }

  lemma NewFanLists(w: World, s: SubscriberId, topic: Topic, f: FanId, bs: B.SubId)
    requires IndexOk(w) && s in w.subscribers && topic !in w.topics && f !in w.fanouts
    requires !w.b.closed && w.b.publishing.None? && bs !in w.b.subs
    ensures var v := StreamFromStep(w, s, topic, f, bs);
            && (forall g {:trigger FanOk(v, g)} :: g in v.fanouts ==> FanOk(v, g))
            && (forall t {:trigger TopicOk(v, t)} :: t in v.topics ==> TopicOk(v, t))
            && (forall g, h {:trigger PairOk(v, g, h)} :: PairOk(v, g, h))
            && (forall x :: x in v.dropped ==> x in v.b.subs)
  {
    var v := StreamFromStep(w, s, topic, f, bs);
    forall g | g in v.fanouts ensures FanOk(v, g) { if g != f { assert FanOk(w, g); } }
    forall t | t in v.topics ensures TopicOk(v, t) { if t != topic { assert TopicOk(w, t); } }
    forall g, h ensures PairOk(v, g, h) {
      assert PairOk(w, g, h);
      if g in w.fanouts { assert FanOk(w, g); }
      if h in w.fanouts { assert FanOk(w, h); }
    }
  }

  lemma NewFanMembers(w: World, s: SubscriberId, topic: Topic, f: FanId, bs: B.SubId)
    requires IndexOk(w) && s in w.subscribers && topic !in w.topics && f !in w.fanouts
    requires !w.b.closed && w.b.publishing.None? && bs !in w.b.subs
    ensures var v := StreamFromStep(w, s, topic, f, bs);
            && (forall x, g {:trigger MemberOk(v, x, g)} :: MemberOk(v, x, g))
            && (forall x, t {:trigger StreamedOk(v, x, t)} :: StreamedOk(v, x, t))
  {
    var v := StreamFromStep(w, s, topic, f, bs);
    forall x, g ensures MemberOk(v, x, g) {
      assert MemberOk(w, x, g) && StreamedOk(w, x, topic);
      if g in w.fanouts { assert FanOk(w, g); }
    }
    forall x, t ensures StreamedOk(v, x, t) { assert StreamedOk(w, x, t); }
  }

  lemma NewFanFlow(w: World, s: SubscriberId, topic: Topic, f: FanId, bs: B.SubId)
    requires FlowOk(w) && s in w.subscribers && topic !in w.topics && f !in w.fanouts
    requires !w.b.closed && w.b.publishing.None? && bs !in w.b.subs
    ensures FlowOk(StreamFromStep(w, s, topic, f, bs))
  {
    var v := StreamFromStep(w, s, topic, f, bs);
    B.StepKeeps(w.b, B.Subscribe(topic, bs));
    assert B.Next(w.b, B.Subscribe(topic, bs)) == v.b;
    hide B.Inv, B.Next;
    forall g | g in v.fanouts ensures PumpOk(v, g) { if g != f { assert PumpOk(w, g); } }
    FlowKeep(w, v);
  }

  lemma EnterAllKeeps(b: B.World, subs: set<B.SubId>)
    requires B.Inv(b)
    ensures B.Inv(EnterAll(b, subs))
  {
    var n := EnterAll(b, subs);
    forall s | s in n.subs ensures B.SubOk(n, s) { assert B.SubOk(b, s); }
    forall t, s ensures B.ListedOk(n, t, s) { assert B.ListedOk(b, t, s); }
  }

  lemma UntrackKeeps(w: World, s: SubscriberId)
    requires Inv(w) && s in w.subscribers
    ensures Inv(UntrackStep(w, s))
  {
    var v := UntrackStep(w, s);
    assert FlowOk(v) by { UntrackFlow(w, s); }
    hide FlowOk;
    UntrackedFans(w, s);
    UntrackedMembers(w, s);
  }

  lemma UntrackFlow(w: World, s: SubscriberId)
    requires FlowOk(w) && s in w.subscribers
    ensures FlowOk(UntrackStep(w, s))
  {
    var v := UntrackStep(w, s);
    var emptied := set f | f in w.fanouts && Empties(w, s, f) :: w.fanouts[f].sub;
    EnterAllKeeps(w.b, emptied);
    hide B.Inv, Empties, Streams;
    forall f | f in v.fanouts ensures PumpOk(v, f) { assert PumpOk(w, f); }
    FlowKeep(w, v);
  }

  lemma UntrackedFans(w: World, s: SubscriberId)
    requires IndexOk(w) && s in w.subscribers
    ensures var v := UntrackStep(w, s);
            && (forall f {:trigger FanOk(v, f)} :: f in v.fanouts ==> FanOk(v, f))
            && (forall t {:trigger TopicOk(v, t)} :: t in v.topics ==> TopicOk(v, t))
            && (forall f, g {:trigger PairOk(v, f, g)} :: PairOk(v, f, g))
            && (forall bs :: bs in v.dropped ==> bs in v.b.subs)
  {
    var v := UntrackStep(w, s);
    var emptied := set f | f in w.fanouts && Empties(w, s, f) :: w.fanouts[f].sub;
    forall f | f in v.fanouts ensures FanOk(v, f) {
      assert FanOk(w, f);
      if w.fanouts[f].sub in emptied {
        var g :| g in w.fanouts && Empties(w, s, g) && w.fanouts[g].sub == w.fanouts[f].sub;
        assert PairOk(w, f, g);
      }
    }
    forall t | t in v.topics ensures TopicOk(v, t) { assert TopicOk(w, t); }
    forall f, g ensures PairOk(v, f, g) { assert PairOk(w, f, g); }
    forall f | f in w.fanouts ensures w.fanouts[f].sub in w.b.subs { assert FanOk(w, f); }
  }

  lemma UntrackedMembers(w: World, s: SubscriberId)
    requires IndexOk(w) && s in w.subscribers
    ensures var v := UntrackStep(w, s);
            && (forall x, f {:trigger MemberOk(v, x, f)} :: MemberOk(v, x, f))
            && (forall x, t {:trigger StreamedOk(v, x, t)} :: StreamedOk(v, x, t))
  {
    var v := UntrackStep(w, s);
    forall x, f ensures MemberOk(v, x, f) {
      assert MemberOk(w, x, f);
      if f in w.fanouts && x in w.fanouts[f].subscribers && x != s {
        assert x in w.fanouts[f].subscribers - {s};
      }
    }
    forall x, t ensures StreamedOk(v, x, t) {
      assert StreamedOk(w, x, t);
      if t in w.topics && x in w.subscribers && t in w.subscribers[x].topics && x != s {
        assert TopicOk(w, t);
        assert MemberOk(w, x, w.topics[t]);
        assert x in w.fanouts[w.topics[t]].subscribers - {s};
      }
    }
  }

  // ----- The pumps -----

  lemma PumpIndex(w: World, v: World, f: FanId, pump: Pump)
    requires IndexOk(w) && f in w.fanouts && v.topics == w.topics && v.dropped == w.dropped && v.subscribers == w.subscribers
    requires v.fanouts == WithPump(w, f, pump).fanouts
    requires forall x :: x in w.b.subs ==> x in v.b.subs && v.b.subs[x].topic == w.b.subs[x].topic
    ensures IndexOk(v)
  {
    IndexKeep(w, v);
  }

  lemma PumpReceiveKeeps(w: World, f: FanId)
    requires Inv(w) && f in w.fanouts && w.fanouts[f].pump.Waiting? && w.fanouts[f].sub in w.b.subs && w.b.subs[w.fanouts[f].sub].buffer != []
    ensures Inv(PumpReceiveStep(w, f))
  {
    var v, bs := PumpReceiveStep(w, f), w.fanouts[f].sub;
    var got, msg := w.b.subs[bs].received, w.b.subs[bs].buffer[0];
    assert PumpOk(w, f) && B.SubOk(w.b, bs);
    B.StepKeeps(w.b, B.Receive(bs));
    assert v.b == B.Next(w.b, B.Receive(bs));
    assert got != [] ==> (got + w.b.subs[bs].buffer)[|got| - 1] == got[|got| - 1] && (got + w.b.subs[bs].buffer)[|got|] == msg;
    assert IndexOk(v) by { PumpIndex(w, v, f, Got(msg)); }
    forall g | g in v.fanouts && g != f ensures w.fanouts[g].sub != bs { assert PairOk(w, f, g); }
    hide IndexOk, B.Next, B.Inv;
    forall g | g in v.fanouts ensures PumpOk(v, g) { assert PumpOk(w, g); }
    assert got == [] || got[|got| - 1].index < msg.index;
    FlowKeep(w, v);
  }

  lemma PumpSnapshotKeeps(w: World, f: FanId)
    requires Inv(w) && f in w.fanouts && w.fanouts[f].pump.Got?
    ensures Inv(PumpSnapshotStep(w, f))
  {
    var v := PumpSnapshotStep(w, f);
    assert PumpOk(w, f);
    assert IndexOk(v) by { PumpIndex(w, v, f, v.fanouts[f].pump); }
    hide IndexOk, B.Inv;
    forall g | g in v.fanouts ensures PumpOk(v, g) { assert PumpOk(w, g); }
    FlowKeep(w, v);
  }

  lemma PumpNextKeeps(w: World, f: FanId)
    requires Inv(w) && f in w.fanouts && w.fanouts[f].pump.Sending? && w.fanouts[f].pump.left == {}
    ensures Inv(PumpNextStep(w, f))
  {
    var v := PumpNextStep(w, f);
    assert PumpOk(w, f);
    assert IndexOk(v) by { PumpIndex(w, v, f, Waiting); }
    hide IndexOk, B.Inv;
    forall g | g in v.fanouts ensures PumpOk(v, g) { assert PumpOk(w, g); }
    FlowKeep(w, v);
  }

  /** s has had its turn: whether the message went into its outbox or was dropped, it is not sent again. */
  lemma PumpSkipKeeps(w: World, f: FanId, s: SubscriberId)
    requires Inv(w) && f in w.fanouts && w.fanouts[f].pump.Sending?
    ensures Inv(WithPump(w, f, Sending(w.fanouts[f].pump.msg, w.fanouts[f].pump.left - {s})))
  {
    var v := WithPump(w, f, Sending(w.fanouts[f].pump.msg, w.fanouts[f].pump.left - {s}));
    assert PumpOk(w, f);
    assert IndexOk(v) by { PumpIndex(w, v, f, v.fanouts[f].pump); }
    hide IndexOk, B.Inv;
    forall g | g in v.fanouts ensures PumpOk(v, g) { assert PumpOk(w, g); }
    FlowKeep(w, v);
  }

  lemma PumpSendKeeps(w: World, f: FanId, s: SubscriberId)
    requires Inv(w) && f in w.fanouts && w.fanouts[f].pump.Sending? && s in w.fanouts[f].pump.left && s in w.subscribers
    ensures Inv(PumpSendStep(w, f, s))
  {
    var msg, c := w.fanouts[f].pump.msg, w.subscribers[s].conn;
    PumpSkipKeeps(w, f, s);
    if c in w.conns && |w.conns[c].sent| < w.conns[c].taken + OUTBOX {
      DeliveredKeeps(w, f, s);
    }
  }

  lemma DeliveredKeeps(w: World, f: FanId, s: SubscriberId)
    requires Inv(w) && f in w.fanouts && w.fanouts[f].pump.Sending? && s in w.fanouts[f].pump.left && s in w.subscribers
    requires var c := w.subscribers[s].conn; c in w.conns && |w.conns[c].sent| < w.conns[c].taken + OUTBOX
    requires Inv(WithPump(w, f, Sending(w.fanouts[f].pump.msg, w.fanouts[f].pump.left - {s})))
    ensures Inv(PumpSendStep(w, f, s))
  {
    var msg, c := w.fanouts[f].pump.msg, w.subscribers[s].conn;
    var u := WithPump(w, f, Sending(msg, w.fanouts[f].pump.left - {s}));
    var v := PumpSendStep(w, f, s);
    assert IndexOk(v) by { IndexKeep(u, v); }
    assert PumpOk(w, f);
    var bs := w.fanouts[f].sub;
    assert B.SubOk(w.b, bs);
    assert (w.b.subs[bs].received + w.b.subs[bs].buffer)[|w.b.subs[bs].received| - 1] == msg;
    assert msg.index < |w.b.log| && w.b.log[msg.index] == (w.fanouts[f].topic, msg.payload);
    hide IndexOk, B.Inv, B.SubOk;
    forall g | g in v.fanouts ensures PumpOk(v, g) { assert PumpOk(u, g); }
    forall d, i | d in v.conns && 0 <= i < |v.conns[d].sent|
      ensures DeliveryOk(v, d, i)
    {
      if i < |u.conns[d].sent| { assert DeliveryOk(u, d, i); }
    }
    forall d, i, j | 0 <= i < j
      ensures OrderOk(v, d, i, j)
    {
      assert OrderOk(u, d, i, j);
      if d in w.conns && i < |w.conns[d].sent| { assert DeliveryOk(w, d, i); }
    }
  }

  lemma TakeKeeps(w: World, c: ConnId)
    requires Inv(w) && c in w.conns && w.conns[c].taken < |w.conns[c].sent|
    ensures Inv(TakeStep(w, c))
  {
    var v := TakeStep(w, c);
    assert IndexOk(v) by { IndexKeep(w, v); }
    hide IndexOk, B.Inv;
    forall f | f in v.fanouts ensures PumpOk(v, f) { assert PumpOk(w, f); }
    forall d, i | d in v.conns && 0 <= i < |v.conns[d].sent| ensures DeliveryOk(v, d, i) { assert DeliveryOk(w, d, i); }
    forall d, i, j | 0 <= i < j ensures OrderOk(v, d, i, j) { assert OrderOk(w, d, i, j); }
  }

  lemma StepKeeps(w: World, e: Event)
    requires Inv(w)
    ensures Inv(Next(w, e))
  {
    hide Inv;
    match e
    case Connect(c) => ConnectionsKeep(w, ConnectStep(w, c));
    case Disconnect(c) => ConnectionsKeep(w, DisconnectStep(w, c));
    case Insert(c, name, s) => ConnectionsKeep(w, InsertStep(w, c, name, s));
    case Forget(c, name) => ConnectionsKeep(w, ForgetStep(w, c, name));
    case StreamFrom(s, topic, f, bs) => StreamFromKeeps(w, s, topic, f, bs);
    case Untrack(s) => if s in w.subscribers { UntrackKeeps(w, s); }
    case PumpReceive(f) =>
      if f in w.fanouts && w.fanouts[f].pump.Waiting? && w.fanouts[f].sub in w.b.subs && w.b.subs[w.fanouts[f].sub].buffer != [] {
        PumpReceiveKeeps(w, f);
      }
    case PumpSnapshot(f) => if f in w.fanouts && w.fanouts[f].pump.Got? { PumpSnapshotKeeps(w, f); }
    case PumpSend(f, s) =>
      if f in w.fanouts && w.fanouts[f].pump.Sending? && s in w.fanouts[f].pump.left && s in w.subscribers { PumpSendKeeps(w, f, s); }
    case PumpNext(f) => if f in w.fanouts && w.fanouts[f].pump.Sending? && w.fanouts[f].pump.left == {} { PumpNextKeeps(w, f); }
    case Take(c) => if c in w.conns && w.conns[c].taken < |w.conns[c].sent| { TakeKeeps(w, c); }
    case Broadcaster(be) => BroadcasterKeeps(w, be);
  }

  lemma InitialGood()
    ensures Inv(INITIAL)
  {
  }

  lemma {:induction false} RunKeeps(w: World, es: seq<Event>)
    requires Inv(w)
    ensures Inv(Run(w, es))
    decreases |es|
  {
    if es != [] {
      StepKeeps(w, es[0]);
      RunKeeps(Next(w, es[0]), es[1..]);
    }
  }
}
