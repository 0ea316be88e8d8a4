/**
 The hub's own methods, on the maps they work on. Each is tied to the steps of HubSteps that
 its sections under the mutex stand for, so what is proved there for every interleaving is
 proved about them.
 */
module Hub {
  import opened Results
  import opened HubSteps
  import opened HubInvariant
  import B = Broadcaster

  datatype HubError = UnknownConnection | UnknownChannel | AlreadySubscribed | NotSubscribed | Rejected

  /** No fanout mentions s. */
  ghost predicate Nowhere(fanouts: map<FanId, Fanout>, s: SubscriberId) {
    forall f :: f in fanouts ==> s !in fanouts[f].subscribers
  }

  /** s has left; everyone else is where they were, and a topic stays listed while anyone is left in its fanout. */
  ghost predicate LeavesOthers(s: SubscriberId, subscribers0: map<SubscriberId, Subscriber>, fanouts0: map<FanId, Fanout>, topics0: map<Topic, FanId>,
                               subscribers: map<SubscriberId, Subscriber>, fanouts: map<FanId, Fanout>, topics: map<Topic, FanId>)
  {
    && (forall x :: x in subscribers0 && x != s ==> x in subscribers && subscribers[x] == subscribers0[x])
    && (forall f, x :: f in fanouts0 && x != s ==> f in fanouts && (x in fanouts[f].subscribers <==> x in fanouts0[f].subscribers))
    && (forall t :: t in topics ==> t in topics0 && topics[t] == topics0[t])
    && (forall t :: t in topics0 ==> topics0[t] in fanouts0 && (t in topics <==> fanouts0[topics0[t]].subscribers != {s}))
  }

  lemma UntrackLeavesOthers(w: World, s: SubscriberId)
    requires IndexOk(w) && s in w.subscribers
    ensures var v := UntrackStep(w, s);
            LeavesOthers(s, w.subscribers, w.fanouts, w.topics, v.subscribers, v.fanouts, v.topics)
  {
    forall t | t in w.topics
      ensures w.topics[t] in w.fanouts && (Empties(w, s, w.topics[t]) <==> w.fanouts[w.topics[t]].subscribers == {s})
    {
      var f := w.topics[t];
      assert TopicOk(w, t) && FanOk(w, f) && MemberOk(w, s, f);
    }
  }

  /** An Untrack that has dealt with the topics in done. */
  ghost predicate UntrackedSoFar(w: World, s: SubscriberId, done: set<Topic>, topics: map<Topic, FanId>, fanouts: map<FanId, Fanout>, dropped: set<B.SubId>) {
    && fanouts.Keys == w.fanouts.Keys
    && (forall f :: f in w.fanouts ==>
          fanouts[f] == if Streams(w, s, f) && w.fanouts[f].topic in done then w.fanouts[f].(subscribers := w.fanouts[f].subscribers - {s})
                        else w.fanouts[f])
    && (forall t :: t in topics <==> t in w.topics && !(t in done && Empties(w, s, w.topics[t])))
    && (forall t :: t in topics ==> topics[t] == w.topics[t])
    && (forall x :: x in dropped <==>
          x in w.dropped || exists f :: f in w.fanouts && w.fanouts[f].topic in done && Empties(w, s, f) && w.fanouts[f].sub == x)
  }

  lemma UntrackedAll(w: World, s: SubscriberId, topics: map<Topic, FanId>, fanouts: map<FanId, Fanout>, dropped: set<B.SubId>)
    requires IndexOk(w) && s in w.subscribers && UntrackedSoFar(w, s, w.subscribers[s].topics, topics, fanouts, dropped)
    ensures var v := UntrackStep(w, s);
            topics == v.topics && fanouts == v.fanouts && dropped == v.dropped
  {
    forall t | t in w.topics
      ensures Empties(w, s, w.topics[t]) ==> t in w.subscribers[s].topics
    {
      assert TopicOk(w, t);
    }
    var v := UntrackStep(w, s);
    forall f | f in v.fanouts ensures fanouts[f] == v.fanouts[f] {}
    forall t ensures t in topics <==> t in v.topics {}
    forall x ensures x in dropped <==> x in v.dropped {}
  }

  /** Of the fanouts s streams, t has just the one it is listed with. */
  lemma OnlyFan(w: World, s: SubscriberId, t: Topic)
    requires IndexOk(w) && s in w.subscribers && t in w.subscribers[s].topics
    ensures t in w.topics && w.topics[t] in w.fanouts && w.fanouts[w.topics[t]].topic == t && Streams(w, s, w.topics[t])
    ensures forall g :: g in w.fanouts && Streams(w, s, g) && w.fanouts[g].topic == t ==> g == w.topics[t]
    ensures forall u :: u in w.topics && w.topics[u] == w.topics[t] ==> u == t
  {
    assert StreamedOk(w, s, t) && TopicOk(w, t);
    forall u | u in w.topics && w.topics[u] == w.topics[t] ensures u == t { assert TopicOk(w, u); }
  }

  lemma UntrackedOne(w: World, s: SubscriberId, done: set<Topic>, topics: map<Topic, FanId>, fanouts: map<FanId, Fanout>, dropped: set<B.SubId>, t: Topic)
    requires IndexOk(w) && s in w.subscribers && UntrackedSoFar(w, s, done, topics, fanouts, dropped)
    requires t in w.subscribers[s].topics && t !in done
    ensures t in topics && topics[t] in fanouts && fanouts[topics[t]] == w.fanouts[topics[t]]
    ensures var f := topics[t];
            var fan := fanouts[f].(subscribers := fanouts[f].subscribers - {s});
            UntrackedSoFar(w, s, done + {t}, if fan.subscribers == {} then topics - {t} else topics, fanouts[f := fan],
                           if fan.subscribers == {} then dropped + {fan.sub} else dropped)
  {
    OnlyFan(w, s, t);
    hide IndexOk;
  }

  /** One StreamFrom a channel's Subscribed asks for, and the names a new fanout and its subscription are to have. */
  datatype Ask = Ask(topic: Topic, fan: FanId, sub: B.SubId)

  function Streamed(w: World, s: SubscriberId, asks: seq<Ask>): World
    decreases |asks|
  {
    if asks == [] then w else Streamed(StreamFromStep(w, s, asks[0].topic, asks[0].fan, asks[0].sub), s, asks[1..])
  }

  ghost predicate Unused(w: World, asks: seq<Ask>) {
    && (forall i :: 0 <= i < |asks| ==> asks[i].fan !in w.fanouts && asks[i].sub !in w.b.subs)
    && (forall i, j :: 0 <= i < j < |asks| ==> asks[i].fan != asks[j].fan && asks[i].sub != asks[j].sub)
  }

  lemma StreamedStep(w: World, s: SubscriberId, ask: Ask, rest: seq<Ask>)
    requires s in w.subscribers && Unused(w, [ask] + rest)
    ensures var v := StreamFromStep(w, s, ask.topic, ask.fan, ask.sub);
            && ask.fan !in w.fanouts && ask.sub !in w.b.subs
            && Unused(v, rest) && v.conns == w.conns && v.live == w.live && v.subscribers.Keys == w.subscribers.Keys
            && v.b.closed == w.b.closed && v.b.publishing == w.b.publishing
  {
    var all := [ask] + rest;
    assert all[0] == ask && forall i :: 0 <= i < |rest| ==> rest[i] == all[i + 1];
  }

  class Hub {
    var conns: map<ConnId, Conn>
    var live: set<ConnId>
    var subscribers: map<SubscriberId, Subscriber>
    var fanouts: map<FanId, Fanout>
    var topics: map<Topic, FanId>
    var dropped: set<B.SubId>     // subscriptions Unsubscribe has been called on

    ghost predicate Shows(w: World)
      reads this
    {
      && conns == w.conns && live == w.live && subscribers == w.subscribers
      && fanouts == w.fanouts && topics == w.topics && dropped == w.dropped
    }

    method Connect(c: ConnId, ghost w: World)
      requires Shows(w) && c !in conns
      modifies this
      ensures Shows(Next(w, Event.Connect(c)))
    {
      conns, live := conns[c := Conn(map[], [], 0)], live + {c};
    }

    /** streamFrom; open tells whether the broadcaster grants a subscription, and bs is the one it grants. */
    method StreamFrom(s: SubscriberId, topic: Topic, f: FanId, bs: B.SubId, open: bool, ghost w: World) returns (ok: bool)
      requires Shows(w) && IndexOk(w) && s in subscribers && f !in fanouts && bs !in w.b.subs
      requires open <==> !w.b.closed && w.b.publishing.None?
      modifies this
      ensures Shows(Next(w, Event.StreamFrom(s, topic, f, bs)))
      ensures ok <==> topic in old(topics) || open
      ensures ok ==> topic in topics && topics[topic] in fanouts && s in fanouts[topics[topic]].subscribers && topic in subscribers[s].topics
      ensures forall g <- old(fanouts) :: g in fanouts
      ensures forall g <- old(fanouts) ::
        var joins := topic in old(topics) && g == old(topics)[topic];
        fanouts[g] == if joins then old(fanouts)[g].(subscribers := old(fanouts)[g].subscribers + {s}) else old(fanouts)[g]
      ensures ok && topic !in old(topics) ==> topics[topic] == f && fanouts[f] == Fanout(topic, bs, {s}, Waiting)
      ensures !ok ==> fanouts == old(fanouts) && topics == old(topics) && subscribers == old(subscribers)
    {
      ok := true;
      var fan := f;
      if topic in topics {
        fan := topics[topic];
        assert TopicOk(w, topic);
      } else if open {
        fanouts := fanouts[f := Fanout(topic, bs, {}, Waiting)];
        topics := topics[topic := f];
      } else {
        return false;
      }
      fanouts := fanouts[fan := fanouts[fan].(subscribers := fanouts[fan].subscribers + {s})];
      subscribers := subscribers[s := subscribers[s].(topics := subscribers[s].topics + {topic})];
    }

    /** untrackTopics: leaves every fanout s is in, giving up the subscriptions of those it leaves empty. */
    method UntrackTopics(s: SubscriberId, ghost w: World)
      requires Shows(w) && IndexOk(w) && s in subscribers
      modifies this
      ensures Shows(UntrackStep(w, s)) && Nowhere(fanouts, s)
      ensures LeavesOthers(s, old(subscribers), old(fanouts), old(topics), subscribers, fanouts, topics)
    {
      UntrackLeavesOthers(w, s);
      hide UntrackStep, UntrackedSoFar, IndexOk, Nowhere, LeavesOthers;
      StartUntracking(w, s);
      LeaveAll(s, subscribers[s].topics, w);
      UntrackedAll(w, s, topics, fanouts, dropped);
      UntrackedSubscribers(w, s);
      subscribers := subscribers[s := subscribers[s].(topics := {})];
    }

    /** The loop of untrackTopics, over the topics s streams. */
    method LeaveAll(s: SubscriberId, mine: set<Topic>, ghost w: World)
      requires IndexOk(w) && s in w.subscribers && mine == w.subscribers[s].topics
      requires UntrackedSoFar(w, s, {}, topics, fanouts, dropped)
      modifies this`topics, this`fanouts, this`dropped
      ensures UntrackedSoFar(w, s, mine, topics, fanouts, dropped)
    {
      hide UntrackedSoFar, IndexOk;
      var left := mine;
      assert mine - left == {};
      while left != {}
        invariant left <= mine && UntrackedSoFar(w, s, mine - left, topics, fanouts, dropped)
        decreases |left|
      {
        var topic :| topic in left;
        Leave(s, topic, w, mine - left);
        assert mine - (left - {topic}) == mine - left + {topic};
        left := left - {topic};
      }
      assert mine - left == mine;
    }

    /** One turn of untrackTopics, after those for the topics in done. */
    method Leave(s: SubscriberId, topic: Topic, ghost w: World, ghost done: set<Topic>)
      requires IndexOk(w) && s in w.subscribers && topic in w.subscribers[s].topics && topic !in done
      requires UntrackedSoFar(w, s, done, topics, fanouts, dropped)
      modifies this`topics, this`fanouts, this`dropped
      ensures UntrackedSoFar(w, s, done + {topic}, topics, fanouts, dropped)
    {
      hide UntrackedSoFar, IndexOk;
      UntrackedOne(w, s, done, topics, fanouts, dropped, topic);
      var f := topics[topic];
      fanouts := fanouts[f := fanouts[f].(subscribers := fanouts[f].subscribers - {s})];
      if fanouts[f].subscribers == {} {
        dropped := dropped + {fanouts[f].sub};
        topics := topics - {topic};
      }
    }

    /** What a channel's Subscribed does to the hub: it streams from some topics, whatever comes of each. */
    method Subscribed(s: SubscriberId, asks: seq<Ask>, open: bool, ghost w: World) returns (ghost v: World)
      requires Shows(w) && IndexOk(w) && s in subscribers && Unused(w, asks) && (open <==> !w.b.closed && w.b.publishing.None?)
      modifies this
      ensures v == Streamed(w, s, asks) && Shows(v) && IndexOk(v)
      ensures conns == old(conns) && live == old(live) && subscribers.Keys == old(subscribers).Keys
    {
      hide IndexOk, StreamFromStep, Unused;
      v := w;
      for i := 0 to |asks|
        invariant Shows(v) && IndexOk(v) && s in subscribers && Unused(v, asks[i..])
        invariant open <==> !v.b.closed && v.b.publishing.None?
        invariant conns == old(conns) && live == old(live) && subscribers.Keys == old(subscribers).Keys
        invariant Streamed(v, s, asks[i..]) == Streamed(w, s, asks)
      {
        var ask := asks[i];
        assert asks[i..] == [ask] + asks[i + 1..];
        StreamedStep(v, s, ask, asks[i + 1..]);
        StreamIndex(v, s, ask.topic, ask.fan, ask.sub);
        var _ := StreamFrom(s, ask.topic, ask.fan, ask.sub, open, v);
        assert asks[i..][1..] == asks[i + 1..];
        v := StreamFromStep(v, s, ask.topic, ask.fan, ask.sub);
      }
    }

    /**
     Subscribe, alone; known tells whether the registry has the channel, asks what its
     Subscribed streams from, and accepted whether it agrees. If it does not, nothing of
     the subscription is left in either index.
     */
    method Subscribe(c: ConnId, name: string, s: SubscriberId, known: bool, asks: seq<Ask>, open: bool, accepted: bool, ghost w: World)
      returns (err: Option<HubError>, ghost v: World)
      requires Shows(w) && IndexOk(w) && s !in subscribers && live <= conns.Keys
      requires Unused(w, asks) && (open <==> !w.b.closed && w.b.publishing.None?)
      modifies this
      ensures Shows(v)
      ensures v == if err.None? then Streamed(Next(w, Insert(c, name, s)), s, asks)
                   else if err == Some(Rejected) then Next(Next(Streamed(Next(w, Insert(c, name, s)), s, asks), Forget(c, name)), Untrack(s))
                   else w
      ensures err == Some(Rejected) ==> c in conns && name !in conns[c].subs && Nowhere(fanouts, s)
      ensures err == if c !in w.live then Some(UnknownConnection)
                     else if name in w.conns[c].subs then Some(AlreadySubscribed)
                     else if !known then Some(UnknownChannel)
                     else if !accepted then Some(Rejected)
                     else None
    {
      v := w;
      if c !in live {
        return Some(UnknownConnection), v;
      }
      if name in conns[c].subs {
        return Some(AlreadySubscribed), v;
      }
      if !known {
        return Some(UnknownChannel), v;
      }
      subscribers := subscribers[s := Subscriber(c, name, {})];
      conns := conns[c := conns[c].(subs := conns[c].subs[name := s])];
      v := Next(w, Insert(c, name, s));
      InsertedIndex(w, c, name, s);
      hide IndexOk, Streamed;
      v := Subscribed(s, asks, open, v);
      if !accepted {
        v := RollBack(c, name, s, v);
        return Some(Rejected), v;
      }
      err := None;
    }

    /** The end of Subscribe when the channel refuses: the name is forgotten, then the subscriber leaves every fanout. */
    method RollBack(c: ConnId, name: string, s: SubscriberId, ghost w: World) returns (ghost v: World)
      requires Shows(w) && IndexOk(w) && c in conns && s in subscribers
      modifies this
      ensures v == Next(Next(w, Forget(c, name)), Untrack(s)) && Shows(v)
      ensures c in conns && name !in conns[c].subs && Nowhere(fanouts, s)
    {
      conns := conns[c := conns[c].(subs := conns[c].subs - {name})];
      ForgotIndex(w, c, name);
      v := Next(w, Forget(c, name));
      hide IndexOk, UntrackStep, Nowhere;
      UntrackTopics(s, v);
      UntrackShrinks(v, s);
      v := Next(v, Untrack(s));
    }

    /** Unsubscribe: the name is forgotten, then its subscriber leaves every fanout. */
    method Unsubscribe(c: ConnId, name: string, ghost w: World) returns (err: Option<HubError>, ghost v: World)
      requires Shows(w) && IndexOk(w) && live <= conns.Keys
      requires c in conns && name in conns[c].subs ==> conns[c].subs[name] in subscribers
      modifies this
      ensures err == if c !in w.live then Some(UnknownConnection) else if name !in w.conns[c].subs then Some(NotSubscribed) else None
      ensures v == if err.None? then Next(Next(w, Forget(c, name)), Untrack(w.conns[c].subs[name])) else w
      ensures Shows(v) && (err.None? ==> c in conns && name in old(conns)[c].subs && Nowhere(fanouts, old(conns)[c].subs[name]))
      ensures err.None? ==> conns == old(conns)[c := old(conns)[c].(subs := old(conns)[c].subs - {name})]
    {
      v := w;
      if c !in live {
        return Some(UnknownConnection), v;
      }
      if name !in conns[c].subs {
        return Some(NotSubscribed), v;
      }
      var s := conns[c].subs[name];
      conns := conns[c := conns[c].(subs := conns[c].subs - {name})];
      v := Next(w, Forget(c, name));
      IndexKeep(w, v);
      hide IndexOk, UntrackStep, Nowhere;
      UntrackTopics(s, v);
      v := Next(v, Untrack(s));
      err := None;
    }

    /** Disconnect: every subscription the connection has is torn down. */
    method Disconnect(c: ConnId, ghost w: World) returns (ghost v: World)
      requires Shows(w) && IndexOk(w) && live <= conns.Keys
      requires c in conns ==> forall name :: name in conns[c].subs ==> conns[c].subs[name] in subscribers
      modifies this
      ensures Shows(v) && c !in live
      ensures c !in old(live) ==> v == w
      ensures c in old(live) ==> c in old(conns) && conns == old(conns)[c := old(conns)[c].(subs := map[])] && live == old(live) - {c}
      ensures c in old(live) ==> forall name :: name in old(conns)[c].subs ==> Nowhere(fanouts, old(conns)[c].subs[name])
    {
      v := w;
      if c !in live {
        return;
      }
      var subs := set name | name in conns[c].subs :: conns[c].subs[name];
      conns, live := conns[c := conns[c].(subs := map[])], live - {c};
      v := Next(w, Event.Disconnect(c));
      IndexKeep(w, v);
      hide IndexOk, Nowhere, Next;
      v := TearDown(subs, v);
      assert forall name :: name in old(conns)[c].subs ==> old(conns)[c].subs[name] in subs;
    }

    /** The loop of Disconnect. */
    method TearDown(subs: set<SubscriberId>, ghost w: World) returns (ghost v: World)
      requires Shows(w) && IndexOk(w) && subs <= subscribers.Keys
      modifies this
      ensures Shows(v) && conns == old(conns) && live == old(live)
      ensures forall s :: s in subs ==> Nowhere(fanouts, s)
    {
      v := w;
      var left := subs;
      hide IndexOk, UntrackStep, Nowhere;
      while left != {}
        invariant left <= subs <= subscribers.Keys && Shows(v) && IndexOk(v)
        invariant conns == old(conns) && live == old(live)
        invariant forall s :: s in subs - left ==> Nowhere(fanouts, s)
        decreases |left|
      {
        var s :| s in left;
        left := left - {s};
        UntrackIndex(v, s);
        UntrackShrinks(v, s);
        UntrackTopics(s, v);
        v := UntrackStep(v, s);
      }
    }
  }

  lemma StartUntracking(w: World, s: SubscriberId)
    requires s in w.subscribers
    ensures UntrackedSoFar(w, s, {}, w.topics, w.fanouts, w.dropped)
  {
  }

  lemma UntrackedSubscribers(w: World, s: SubscriberId)
    requires IndexOk(w) && s in w.subscribers
    ensures var v := UntrackStep(w, s);
            && v.conns == w.conns && v.live == w.live && v.subscribers == w.subscribers[s := w.subscribers[s].(topics := {})]
            && Nowhere(v.fanouts, s)
  {
    forall f | f in w.fanouts
      ensures s in w.fanouts[f].subscribers ==> Streams(w, s, f)
    {
      assert MemberOk(w, s, f);
    }
  }

  lemma InsertedIndex(w: World, c: ConnId, name: string, s: SubscriberId)
    requires IndexOk(w)
    ensures IndexOk(Next(w, Insert(c, name, s)))
  {
    IndexKeep(w, InsertStep(w, c, name, s));
  }

  lemma ForgotIndex(w: World, c: ConnId, name: string)
    requires IndexOk(w)
    ensures IndexOk(Next(w, Forget(c, name)))
  {
    IndexKeep(w, ForgetStep(w, c, name));
  }

  lemma UntrackIndex(w: World, s: SubscriberId)
    requires IndexOk(w) && s in w.subscribers
    ensures IndexOk(UntrackStep(w, s))
  {
    UntrackedFans(w, s);
    UntrackedMembers(w, s);
    hide UntrackStep;
  }

  /** An untrack adds nobody to any fanout. */
  lemma UntrackShrinks(w: World, s: SubscriberId)
    requires s in w.subscribers
    ensures var v := UntrackStep(w, s);
            && v.conns == w.conns && v.live == w.live && v.subscribers.Keys == w.subscribers.Keys && v.fanouts.Keys == w.fanouts.Keys
            && forall x :: Nowhere(w.fanouts, x) ==> Nowhere(v.fanouts, x)
  {
  }
}
