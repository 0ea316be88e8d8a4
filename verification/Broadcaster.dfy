/** The in-memory broadcaster (channels/backend/memory/memory.go), used by any number of goroutines. */
module Broadcaster {
  import opened Results

  // They publish, subscribe, receive, unsubscribe and close at once. What happens under the backend's mutex is one step,
  // except Publish: while it sends to one subscriber after another, receivers and closers go on, and only the mutex is taken.

  type Topic = string
  type Payload = string
  type SubId = nat

  const BUFFER := 16     // defaultSubscriptionBuffer

  /** One published payload, with its place in the order of all publications. */
  datatype Msg = Msg(index: nat, payload: Payload)

  /** How far the subscription's once has come. */
  datatype Once = Fresh | Entered | Removed | Closed

  datatype Sub = Sub(topic: Topic, buffer: seq<Msg>, received: seq<Msg>, closed: bool, once: Once)

  datatype Publishing = Publishing(topic: Topic, msg: Msg, left: set<SubId>)

  datatype World = World(
    subs: map<SubId, Sub>,
    topics: map<Topic, set<SubId>>,
    closed: bool,
    publishing: Option<Publishing>,    // the Publish that holds the mutex
    log: seq<(Topic, Payload)>,        // history: everything published, in order
    panicked: bool                     // a send on, or a close of, a closed channel
  )

  // ----- Steps -----

  datatype Event =
    | Subscribe(topic: Topic, s: SubId)
    | BeginPublish(topic: Topic, payload: Payload)
    | SendTo(s: SubId)
    | EndPublish
    | Receive(s: SubId)
    | EnterOnce(s: SubId)       // Unsubscribe, called by anyone, or by Close
    | Remove(s: SubId)
    | CloseChannel(s: SubId)
    | BeginClose

  function SubscribersOf(topics: map<Topic, set<SubId>>, topic: Topic): set<SubId> {
    if topic in topics then topics[topic] else {}
  }

  function With(w: World, s: SubId, sub: Sub): World {
    w.(subs := w.subs[s := sub])
  }

  function SubscribeStep(w: World, topic: Topic, s: SubId): World {
    if w.publishing.Some? || w.closed || s in w.subs then w
    else w.(subs := w.subs[s := Sub(topic, [], [], false, Fresh)], topics := w.topics[topic := SubscribersOf(w.topics, topic) + {s}])
  }

  function BeginPublishStep(w: World, topic: Topic, payload: Payload): World {
    if w.publishing.Some? || w.closed then w
    else w.(publishing := Some(Publishing(topic, Msg(|w.log|, payload), SubscribersOf(w.topics, topic))), log := w.log + [(topic, payload)])
  }

  /** A send that does not block: a full buffer drops the message. */
  function Sent(sub: Sub, msg: Msg): Sub {
    if |sub.buffer| < BUFFER then sub.(buffer := sub.buffer + [msg]) else sub
  }

  function SendToStep(w: World, s: SubId): World {
    if w.publishing.None? || s !in w.publishing.value.left || s !in w.subs then w
    else if w.subs[s].closed then w.(panicked := true)
    else
      var p := w.publishing.value;
      With(w, s, Sent(w.subs[s], p.msg)).(publishing := Some(p.(left := p.left - {s})))
  }

  function EndPublishStep(w: World): World {
    if w.publishing.Some? && w.publishing.value.left == {} then w.(publishing := None) else w
  }

  function ReceiveStep(w: World, s: SubId): World {
    if s !in w.subs || w.subs[s].buffer == [] then w
    else
      var sub := w.subs[s];
      With(w, s, sub.(buffer := sub.buffer[1..], received := sub.received + [sub.buffer[0]]))
  }

  function EnterOnceStep(w: World, s: SubId): World {
    if s in w.subs && w.subs[s].once == Fresh then With(w, s, w.subs[s].(once := Entered)) else w
  }

  function Without(topics: map<Topic, set<SubId>>, topic: Topic, s: SubId): map<Topic, set<SubId>> {
    if topic !in topics then topics
    else if topics[topic] - {s} == {} then topics - {topic}
    else topics[topic := topics[topic] - {s}]
  }

  function RemoveStep(w: World, s: SubId): World {
    if w.publishing.Some? || s !in w.subs || w.subs[s].once != Entered then w
    else With(w, s, w.subs[s].(once := Removed)).(topics := Without(w.topics, w.subs[s].topic, s))
  }

  function CloseChannelStep(w: World, s: SubId): World {
    if s !in w.subs || w.subs[s].once != Removed then w
    else if w.subs[s].closed then w.(panicked := true)
    else With(w, s, w.subs[s].(once := Closed, closed := true))
  }

  /** Close, up to where it starts to unsubscribe what it found. */
  function BeginCloseStep(w: World): World {
    if w.publishing.Some? || w.closed then w else w.(closed := true, topics := map[])
  }

  /** One step; an event that is not enabled changes nothing. */
  function Next(w: World, e: Event): World {
    match e
    case Subscribe(topic, s) => SubscribeStep(w, topic, s)
    case BeginPublish(topic, payload) => BeginPublishStep(w, topic, payload)
    case SendTo(s) => SendToStep(w, s)
    case EndPublish => EndPublishStep(w)
    case Receive(s) => ReceiveStep(w, s)
    case EnterOnce(s) => EnterOnceStep(w, s)
    case Remove(s) => RemoveStep(w, s)
    case CloseChannel(s) => CloseChannelStep(w, s)
    case BeginClose => BeginCloseStep(w)
  }

  function Run(w: World, es: seq<Event>): World
    decreases |es|
  {
    if es == [] then w else Run(Next(w, es[0]), es[1..])
  }

  const INITIAL := World(map[], map[], false, None, [], false)

  // ----- Invariants -----

  ghost predicate Increasing(ms: seq<Msg>) {
    forall i, j :: 0 <= i < j < |ms| ==> ms[i].index < ms[j].index
  }

  /** Everything in ms was published on topic, before the nth publication. */
  ghost predicate PublishedOn(log: seq<(Topic, Payload)>, topic: Topic, ms: seq<Msg>, n: nat) {
    n <= |log| && forall i :: 0 <= i < |ms| ==> ms[i].index < n && log[ms[i].index] == (topic, ms[i].payload)
  }

  /** The publications a subscriber may have been sent: all but the one now on its way, until its turn. */
  function Bound(w: World, s: SubId): int {
    if w.publishing.Some? && s in w.publishing.value.left then w.publishing.value.msg.index else |w.log|
  }

  ghost predicate SubOk(w: World, s: SubId)
    requires s in w.subs
  {
    var sub := w.subs[s];
    && (sub.closed <==> sub.once == Closed)
    && Increasing(sub.received + sub.buffer)
    && Bound(w, s) >= 0 && PublishedOn(w.log, sub.topic, sub.received + sub.buffer, Bound(w, s))
  }

  ghost predicate ListedOk(w: World, topic: Topic, s: SubId) {
    topic in w.topics && s in w.topics[topic] ==>
      s in w.subs && w.subs[s].topic == topic && (w.subs[s].once == Fresh || w.subs[s].once == Entered)
  }

  ghost predicate PublishingOk(w: World) {
    w.publishing.Some? ==>
      var p := w.publishing.value;
      && p.left <= SubscribersOf(w.topics, p.topic)
      && p.msg.index + 1 == |w.log| && w.log[p.msg.index] == (p.topic, p.msg.payload)
  }

  ghost predicate Inv(w: World) {
    && !w.panicked && PublishingOk(w)
    && (forall s {:trigger SubOk(w, s)} :: s in w.subs ==> SubOk(w, s))
    && (forall t, s {:trigger ListedOk(w, t, s)} :: ListedOk(w, t, s))
    && (forall t :: t in w.topics ==> w.topics[t] != {})
    && (w.closed ==> w.topics == map[])
  }

  // ----- Every step keeps the invariant -----

  lemma SendToKeeps(w: World, s: SubId)
    requires Inv(w) && w.publishing.Some? && s in w.publishing.value.left
    ensures Inv(SendToStep(w, s))
  {
    var v, p := SendToStep(w, s), w.publishing.value;
    assert ListedOk(w, p.topic, s);
    assert SubOk(w, s);
    var sub := w.subs[s];
    assert sub.received + (sub.buffer + [p.msg]) == sub.received + sub.buffer + [p.msg];
    forall x | x in v.subs ensures SubOk(v, x) { assert SubOk(w, x); }
    forall t, x ensures ListedOk(v, t, x) { assert ListedOk(w, t, x); }
  }

  lemma ReceiveKeeps(w: World, s: SubId)
    requires Inv(w) && s in w.subs && w.subs[s].buffer != []
    ensures Inv(ReceiveStep(w, s))
  {
    var v, sub := ReceiveStep(w, s), w.subs[s];
    assert SubOk(w, s);
    assert sub.received + [sub.buffer[0]] + sub.buffer[1..] == sub.received + sub.buffer;
    forall x | x in v.subs ensures SubOk(v, x) { assert SubOk(w, x); }
    forall t, x ensures ListedOk(v, t, x) { assert ListedOk(w, t, x); }
  }

  lemma RemoveKeeps(w: World, s: SubId)
    requires Inv(w) && w.publishing.None? && s in w.subs && w.subs[s].once == Entered
    ensures Inv(RemoveStep(w, s))
  {
    var v := RemoveStep(w, s);
    forall x | x in v.subs ensures SubOk(v, x) { assert SubOk(w, x); }
    forall t, x ensures ListedOk(v, t, x) { assert ListedOk(w, t, x); }
  }

  lemma StepKeeps(w: World, e: Event)
    requires Inv(w)
    ensures Inv(Next(w, e))
  {
    if e.SendTo? {
      if w.publishing.Some? && e.s in w.publishing.value.left { SendToKeeps(w, e.s); }
    } else if e.Receive? {
      if e.s in w.subs && w.subs[e.s].buffer != [] { ReceiveKeeps(w, e.s); }
    } else if e.Remove? {
      if w.publishing.None? && e.s in w.subs && w.subs[e.s].once == Entered { RemoveKeeps(w, e.s); }
    } else {
      OtherKeeps(w, e);
    }
  }

  lemma OtherKeeps(w: World, e: Event)
    requires Inv(w) && !e.SendTo? && !e.Receive? && !e.Remove?
    ensures Inv(Next(w, e))
  {
    hide Increasing;
    var v := Next(w, e);
    forall x | x in v.subs ensures SubOk(v, x) { if x in w.subs { assert SubOk(w, x); } else { NewSubOk(v, x); } }
    forall t, x ensures ListedOk(v, t, x) { assert ListedOk(w, t, x); }
  }

  lemma NewSubOk(w: World, s: SubId)
    requires PublishingOk(w) && s in w.subs && w.subs[s].buffer == [] && w.subs[s].received == []
    requires w.subs[s].closed <==> w.subs[s].once == Closed
    ensures SubOk(w, s)
  {
    assert w.subs[s].received + w.subs[s].buffer == [];
  }

  lemma {:induction false} RunKeeps(w: World, es: seq<Event>)
    requires Inv(w)
    ensures Inv(Run(w, es))
    decreases |es|
  {
    if es != [] {
      StepKeeps(w, es[0]);
      RunKeeps(Next(w, es[0]), es[1..]);
    }
  }

  // ----- The results, for every run -----

  /** No message is sent on a closed channel and no channel is closed twice. */
  lemma NeverPanics(es: seq<Event>)
    ensures !Run(INITIAL, es).panicked
  {
    RunKeeps(INITIAL, es);
  }

  /** A subscriber receives, in the order of publication and each at most once, payloads published on its topic. */
  lemma ReceivesInOrder(es: seq<Event>, s: SubId)
    requires s in Run(INITIAL, es).subs
    ensures var w := Run(INITIAL, es);
            var got := w.subs[s].received;
            && (forall i, j :: 0 <= i < j < |got| ==> got[i].index < got[j].index)
            && forall i :: 0 <= i < |got| ==> got[i].index < |w.log| && w.log[got[i].index] == (w.subs[s].topic, got[i].payload)
  {
    RunKeeps(INITIAL, es);
    var w := Run(INITIAL, es);
    assert SubOk(w, s);
    var all := w.subs[s].received + w.subs[s].buffer;
    assert forall i :: 0 <= i < |w.subs[s].received| ==> w.subs[s].received[i] == all[i];
  }

  // ----- Nothing is lost while there is room -----

  predicate Listed(w: World, s: SubId) {
    s in w.subs && w.subs[s].topic in w.topics && s in w.topics[w.subs[s].topic]
  }

  /** s stays listed through the run, and whenever a message is sent to it its buffer has room. */
  ghost predicate Attended(w: World, es: seq<Event>, s: SubId)
    decreases |es|
  {
    && Listed(w, s)
    && (es != [] ==> (es[0] == SendTo(s) ==> |w.subs[s].buffer| < 16) && Attended(Next(w, es[0]), es[1..], s))
  }

  /** The ith publication is being sent, and s has not had its turn. */
  predicate OnItsWay(w: World, s: SubId, i: nat) {
    w.publishing.Some? && w.publishing.value.msg.index == i && s in w.publishing.value.left
  }

  /** What s has received and what waits for it are the publications on its topic from the nth on, but for one on its way. */
  ghost predicate Complete(w: World, s: SubId, topic: Topic, n: nat) {
    && s in w.subs && w.subs[s].topic == topic
    && var got := w.subs[s].received + w.subs[s].buffer;
       && (forall m <- got :: n <= m.index < |w.log| && w.log[m.index] == (topic, m.payload))
       && (forall i: nat :: n <= i < |w.log| && w.log[i].0 == topic && !OnItsWay(w, s, i) ==> Msg(i, w.log[i].1) in got)
  }

  lemma SendCompletes(w: World, s: SubId, topic: Topic, n: nat)
    requires Inv(w) && Complete(w, s, topic, n) && Listed(w, s) && |w.subs[s].buffer| < 16
    requires w.publishing.Some? && s in w.publishing.value.left && n <= w.publishing.value.msg.index
    ensures Complete(SendToStep(w, s), s, topic, n)
  {
    var p, sub := w.publishing.value, w.subs[s];
    assert ListedOk(w, p.topic, s) && SubOk(w, s);
    assert sub.received + (sub.buffer + [p.msg]) == sub.received + sub.buffer + [p.msg];
    hide Increasing, PublishedOn;
    var v := SendToStep(w, s);
    var got := sub.received + sub.buffer;
    assert v.subs[s].received + v.subs[s].buffer == got + [p.msg];
    forall i: nat | n <= i < |v.log| && v.log[i].0 == sub.topic && !OnItsWay(v, s, i)
      ensures Msg(i, v.log[i].1) in got + [p.msg]
    {
      if i != p.msg.index {
        assert !OnItsWay(w, s, i);
      }
    }
  }

  lemma StepCompletes(w: World, e: Event, s: SubId, topic: Topic, n: nat)
    requires Inv(w) && Complete(w, s, topic, n) && Listed(w, s) && (e == SendTo(s) ==> |w.subs[s].buffer| < 16)
    requires n <= |w.log| && (w.publishing.Some? && s in w.publishing.value.left ==> n <= w.publishing.value.msg.index)
    ensures Complete(Next(w, e), s, topic, n)
    ensures var v := Next(w, e);
            n <= |v.log| && (v.publishing.Some? && s in v.publishing.value.left ==> n <= v.publishing.value.msg.index)
  {
    hide SubOk, ListedOk;
    if e == SendTo(s) {
      if w.publishing.Some? && s in w.publishing.value.left {
        SendCompletes(w, s, topic, n);
      }
    } else if e.SendTo? && w.publishing.Some? && e.s in w.publishing.value.left {
      SendOpen(w, e.s);
      OthersComplete(w, e, s, topic, n);
    } else {
      OthersComplete(w, e, s, topic, n);
    }
  }

  lemma OthersComplete(w: World, e: Event, s: SubId, topic: Topic, n: nat)
    requires Complete(w, s, topic, n) && Listed(w, s) && e != SendTo(s) && n <= |w.log|
    requires w.publishing.Some? ==> w.publishing.value.msg.index + 1 == |w.log|
    ensures Complete(Next(w, e), s, topic, n)
  {
    var v, sub := Next(w, e), w.subs[s];
    SameMessages(w, e, s);
    hide Next;
    var got := sub.received + sub.buffer;
    forall i: nat | n <= i < |v.log| && v.log[i].0 == topic && !OnItsWay(v, s, i)
      ensures Msg(i, v.log[i].1) in got
    {
      assert i < |w.log| && !OnItsWay(w, s, i);
    }
  }

  /** Only a send to s adds to what s has got; and what becomes due for s is on its way. */
  lemma SameMessages(w: World, e: Event, s: SubId)
    requires Listed(w, s) && e != SendTo(s) && (w.publishing.Some? ==> w.publishing.value.msg.index + 1 == |w.log|)
    ensures var v := Next(w, e);
            && s in v.subs && v.subs[s].topic == w.subs[s].topic
            && v.subs[s].received + v.subs[s].buffer == w.subs[s].received + w.subs[s].buffer
            && |w.log| <= |v.log| && v.log[..|w.log|] == w.log
            && (forall i: nat :: OnItsWay(w, s, i) ==> OnItsWay(v, s, i))
            && (forall i: nat :: |w.log| <= i < |v.log| && v.log[i].0 == w.subs[s].topic ==> OnItsWay(v, s, i))
  {
    var sub := w.subs[s];
    assert sub.buffer != [] ==> sub.received + [sub.buffer[0]] + sub.buffer[1..] == sub.received + sub.buffer;
  }

  lemma {:induction false} RunCompletes(w: World, es: seq<Event>, s: SubId, topic: Topic, n: nat)
    requires Inv(w) && Complete(w, s, topic, n) && Attended(w, es, s)
    requires n <= |w.log| && (w.publishing.Some? && s in w.publishing.value.left ==> n <= w.publishing.value.msg.index)
    ensures Inv(Run(w, es)) && Complete(Run(w, es), s, topic, n)
    decreases |es|
  {
    hide Inv, Complete, Next;
    if es != [] {
      StepKeeps(w, es[0]);
      StepCompletes(w, es[0], s, topic, n);
      RunCompletes(Next(w, es[0]), es[1..], s, topic, n);
    }
  }

  /**
   From its Subscribe on, as long as s stays listed and its buffer has room whenever a
   message is sent to it, what it has received and what waits for it are exactly the
   publications on its topic since then, in order; only one still being sent may be missing.
   */
  lemma NothingLost(before: seq<Event>, topic: Topic, s: SubId, after: seq<Event>)
    requires s !in Run(INITIAL, before).subs && Attended(Next(Run(INITIAL, before), Subscribe(topic, s)), after, s)
    ensures var u := Run(INITIAL, before);
            var v := Run(Next(u, Subscribe(topic, s)), after);
            && Complete(v, s, topic, |u.log|)
            && var got := v.subs[s].received + v.subs[s].buffer;
               forall i, j :: 0 <= i < j < |got| ==> got[i].index < got[j].index
  {
    RunKeeps(INITIAL, before);
    var u := Run(INITIAL, before);
    StepKeeps(u, Subscribe(topic, s));
    RunCompletes(Next(u, Subscribe(topic, s)), after, s, topic, |u.log|);
    assert SubOk(Run(Next(u, Subscribe(topic, s)), after), s);
  }

  /** Once the backend is closed nobody is subscribed, and nobody ever is again. */
  lemma {:induction false} ClosedForGood(w: World, es: seq<Event>)
    requires Inv(w) && w.closed
    ensures Run(w, es).closed && Run(w, es).topics == map[] && Run(w, es).log == w.log
    decreases |es|
  {
    if es != [] {
      StepKeeps(w, es[0]);
      ClosedStep(w, es[0]);
      ClosedForGood(Next(w, es[0]), es[1..]);
    }
  }

  lemma ClosedStep(w: World, e: Event)
    requires Inv(w) && w.closed
    ensures Next(w, e).closed && Next(w, e).log == w.log
  {
  }

  // ----- The code -----

  lemma {:induction false} RunSnoc(w: World, es: seq<Event>, e: Event)
    ensures Run(w, es + [e]) == Next(Run(w, es), e)
    decreases |es|
  {
    hide Next;
    if es == [] {
      assert [e][1..] == [];
      assert es + [e] == [e];
    } else {
      assert (es + [e])[1..] == es[1..] + [e];
      RunSnoc(Next(w, es[0]), es[1..], e);
    }
  }

  /** Exactly s is gone from topic, and a topic left with nobody is gone too. */
  lemma WithoutMeans(topics: map<Topic, set<SubId>>, topic: Topic, s: SubId)
    requires forall t <- topics :: topics[t] != {}
    ensures var left := Without(topics, topic, s);
            && (forall t, x :: t in left && x in left[t] <==> t in topics && x in topics[t] && !(t == topic && x == s))
            && (forall t <- left :: left[t] != {})
  {
    if topic in topics {
      assert forall x :: x in topics[topic] && x != s <==> x in topics[topic] - {s};
    }
  }

  class Backend {
    var subs: map<SubId, Sub>
    var topics: map<Topic, set<SubId>>
    var closed: bool

    /** The fields are those of a world in which no Publish is under way. */
    ghost predicate Shows(w: World)
      reads this
    {
      subs == w.subs && topics == w.topics && closed == w.closed && w.publishing.None? && Inv(w)
    }

    /**
     Delivers to every subscriber with room; es is the steps taken, in whatever order the
     set is gone through. The number only tells this publication from the others.
     */
    method Publish(topic: Topic, payload: Payload, number: nat, ghost w: World) returns (ok: bool, ghost v: World, ghost es: seq<Event>)
      requires Shows(w) && number == |w.log|
      modifies this
      ensures v == Run(w, es) && Shows(v) && topics == old(topics) && closed == old(closed)
      ensures ok <==> !old(closed)
      ensures ok ==> v.log == w.log + [(topic, payload)]
      ensures forall s :: s in subs <==> s in old(subs)
      ensures forall s :: s in subs ==>
        subs[s] == if ok && topic in topics && s in topics[topic] && |old(subs)[s].buffer| < 16
                   then old(subs)[s].(buffer := old(subs)[s].buffer + [Msg(number, payload)])
                   else old(subs)[s]
    {
      ok, v, es := !closed, w, [];
      if closed {
        return;
      }
      var left := SubscribersOf(topics, topic);
      var msg := Msg(number, payload);
      v, es := Next(w, BeginPublish(topic, payload)), [BeginPublish(topic, payload)];
      StepKeeps(w, BeginPublish(topic, payload));
      RunSnoc(w, [], BeginPublish(topic, payload));
      hide Run, Next, Inv;
      while left != {}
        invariant v == Run(w, es) && Inv(v) && subs == v.subs && topics == v.topics && closed == v.closed
        invariant v.publishing == Some(Publishing(topic, msg, left)) && v.log == w.log + [(topic, payload)]
        invariant left <= SubscribersOf(topics, topic) && topics == old(topics) && closed == old(closed)
        invariant forall s :: s in subs <==> s in old(subs)
        invariant forall s :: s in subs ==>
          subs[s] == if s in SubscribersOf(topics, topic) - left then Sent(old(subs)[s], msg) else old(subs)[s]
        decreases |left|
      {
        var s :| s in left;
        StepKeeps(v, SendTo(s));
        RunSnoc(w, es, SendTo(s));
        SendOpen(v, s);
        v, es := Next(v, SendTo(s)), es + [SendTo(s)];
        left := left - {s};
        subs := subs[s := Sent(subs[s], msg)];
      }
      StepKeeps(v, EndPublish);
      RunSnoc(w, es, EndPublish);
      EndsPublish(v);
      v, es := Next(v, EndPublish), es + [EndPublish];
    }

    method Subscribe(topic: Topic, s: SubId, ghost w: World) returns (ok: bool, ghost v: World)
      requires Shows(w) && s !in subs
      modifies this
      ensures v == Next(w, Event.Subscribe(topic, s)) && Shows(v)
      ensures ok <==> !old(closed)
      ensures ok ==> s in subs && s in SubscribersOf(topics, topic) && v.log == w.log
    {
      ok, v := !closed, Next(w, Event.Subscribe(topic, s));
      StepKeeps(w, Event.Subscribe(topic, s));
      if closed {
        return;
      }
      subs := subs[s := Sub(topic, [], [], false, Fresh)];
      topics := topics[topic := SubscribersOf(topics, topic) + {s}];
    }

    /** Unsubscribe: takes effect once, whoever calls it. */
    method Unsubscribe(s: SubId, ghost w: World) returns (ghost v: World)
      requires Shows(w) && s in subs && (subs[s].once == Fresh || subs[s].once == Closed)
      modifies this
      ensures v == Next(Next(Next(w, EnterOnce(s)), Remove(s)), CloseChannel(s)) && Shows(v) && closed == old(closed)
      ensures subs == old(subs)[s := old(subs)[s].(once := Closed, closed := true)]
      ensures forall t, x :: t in topics && x in topics[t] <==>
        t in old(topics) && x in old(topics)[t] && !(x == s && t == old(subs)[s].topic && old(subs)[s].once == Fresh)
      ensures forall t <- topics :: topics[t] != {}
    {
      ThreeKeep(w, s);
      WithoutMeans(topics, subs[s].topic, s);
      v := Next(Next(Next(w, EnterOnce(s)), Remove(s)), CloseChannel(s));
      UnsubscribeSteps(w, s);
      hide Next, Without;
      if subs[s].once == Fresh {
        topics := Without(topics, subs[s].topic, s);
        subs := subs[s := subs[s].(once := Closed, closed := true)];
      }
    }

    /** Close: everyone still subscribed is unsubscribed, and their channels closed. */
    method Close(ghost w: World) returns (ghost v: World, ghost es: seq<Event>)
      requires Shows(w) && forall s :: s in subs ==> subs[s].once == Fresh || subs[s].once == Closed
      modifies this
      ensures v == Run(w, es) && Shows(v) && closed && topics == map[]
      ensures forall s :: s in subs <==> s in old(subs)
      ensures forall t, s :: t in old(topics) && s in old(topics)[t] ==> s in subs && subs[s].closed
    {
      v, es := w, [];
      assert Run(w, es) == w;
      ClosingFinds(w);
      StepKeeps(w, BeginClose);
      RunSnoc(w, [], BeginClose);
      assert [] + [BeginClose] == [BeginClose];
      hide Run, Next, Inv, Without, With;
      if closed {
        return;
      }
      var found := set t, s | t in topics && s in topics[t] :: s;
      closed, topics := true, map[];
      v, es := UnsubscribeAll(found, w, [BeginClose]);
    }

    method UnsubscribeAll(found: set<SubId>, ghost w: World, ghost before: seq<Event>) returns (ghost v: World, ghost es: seq<Event>)
      requires Shows(Run(w, before)) && closed && topics == map[] && found <= subs.Keys
      requires forall s :: s in subs ==> subs[s].once == Fresh || subs[s].once == Closed
      modifies this
      ensures v == Run(w, es) && Shows(v) && closed && topics == map[]
      ensures forall s :: s in subs <==> s in old(subs)
      ensures forall s :: s in found ==> s in subs && subs[s].closed
    {
      hide Run, Next, Inv, With, SubscribersOf;
      v, es := Run(w, before), before;
      var left := found;
      while left != {}
        invariant left <= found && closed && topics == map[]
        invariant v == Run(w, es) && Shows(v)
        invariant forall s :: s in subs <==> s in old(subs)
        invariant forall s :: s in subs ==> subs[s].once == Fresh || subs[s].once == Closed
        invariant forall s :: s in found - left ==> subs[s].closed
        decreases |left|
      {
        var s :| s in left;
        left := left - {s};
        RunSnoc(w, es, EnterOnce(s));
        RunSnoc(w, es + [EnterOnce(s)], Remove(s));
        RunSnoc(w, es + [EnterOnce(s)] + [Remove(s)], CloseChannel(s));
        es := es + [EnterOnce(s)] + [Remove(s)] + [CloseChannel(s)];
        v := Unsubscribe(s, v);
      }
    }
  }

  lemma ClosingFinds(w: World)
    requires Inv(w) && w.publishing.None?
    ensures w.closed ==> w.topics == map[]
    ensures !w.closed ==> Next(w, BeginClose) == w.(closed := true, topics := map[])
    ensures forall t, s :: t in w.topics && s in w.topics[t] ==> s in w.subs
  {
    forall t, s | t in w.topics && s in w.topics[t] ensures s in w.subs { assert ListedOk(w, t, s); }
  }

  /** While a publisher holds the mutex, the channels it has still to send to are open. */
  lemma SendOpen(w: World, s: SubId)
    requires Inv(w) && w.publishing.Some? && s in w.publishing.value.left
    ensures s in w.subs && Next(w, SendTo(s)) == SendToStep(w, s)
    ensures var p := w.publishing.value;
            SendToStep(w, s) == With(w, s, Sent(w.subs[s], p.msg)).(publishing := Some(p.(left := p.left - {s})))
  {
    assert ListedOk(w, w.publishing.value.topic, s);
    assert SubOk(w, s);
  }

  lemma EndsPublish(w: World)
    requires w.publishing.Some? && w.publishing.value.left == {}
    ensures Next(w, EndPublish) == w.(publishing := None)
  {
  }

  lemma ThreeKeep(w: World, s: SubId)
    requires Inv(w)
    ensures Inv(Next(Next(Next(w, EnterOnce(s)), Remove(s)), CloseChannel(s)))
  {
    hide Next, Inv;
    StepKeeps(w, EnterOnce(s));
    StepKeeps(Next(w, EnterOnce(s)), Remove(s));
    StepKeeps(Next(Next(w, EnterOnce(s)), Remove(s)), CloseChannel(s));
  }

  lemma UnsubscribeSteps(w: World, s: SubId)
    requires Inv(w) && w.publishing.None? && s in w.subs && (w.subs[s].once == Fresh || w.subs[s].once == Closed)
    ensures Next(Next(Next(w, EnterOnce(s)), Remove(s)), CloseChannel(s))
            == if w.subs[s].once == Closed then w
               else With(w, s, w.subs[s].(once := Closed, closed := true)).(topics := Without(w.topics, w.subs[s].topic, s))
    ensures w.subs[s].once == Closed ==> w.subs[s].closed
  {
    assert SubOk(w, s);
    hide Inv, Without;
    var entered := EnterOnceStep(w, s);
    var removed := RemoveStep(entered, s);
    assert Next(w, EnterOnce(s)) == entered && Next(entered, Remove(s)) == removed;
    assert Next(removed, CloseChannel(s)) == CloseChannelStep(removed, s);
    hide Next;
    if w.subs[s].once == Fresh {
      assert removed == With(w, s, w.subs[s].(once := Removed)).(topics := Without(w.topics, w.subs[s].topic, s));
    }
  }
}
