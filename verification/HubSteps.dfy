/**
 The channels hub (channels/hub.go) over the in-memory broadcaster: the index from topics
 to the subscribers streaming them and back, and the pumps that carry messages from a
 topic's subscription to its subscribers' outboxes.

 Every section under the hub's mutex is one step, as is every send of a pump; between any
 two, connections, channel code and the broadcaster go on as they like.
 */
module HubSteps {
  import opened Results
  import B = Broadcaster

  type ConnId = nat
  type SubscriberId = nat
  type FanId = nat
  type Topic = B.Topic

  const OUTBOX := 16     // defaultOutboxSize

  datatype Subscriber = Subscriber(conn: ConnId, name: string, topics: set<Topic>)

  datatype Pump = Waiting | Got(msg: B.Msg) | Sending(msg: B.Msg, left: set<SubscriberId>)

  datatype Fanout = Fanout(topic: Topic, sub: B.SubId, subscribers: set<SubscriberId>, pump: Pump)

  datatype Delivery = Delivery(fan: FanId, to: SubscriberId, msg: B.Msg)

  /** Everything put in the outbox so far, of which so much has been taken out. */
  datatype Conn = Conn(subs: map<string, SubscriberId>, sent: seq<Delivery>, taken: nat)

  datatype World = World(
    b: B.World,
    conns: map<ConnId, Conn>,              // every connection ever made
    live: set<ConnId>,                     // those the hub still knows
    subscribers: map<SubscriberId, Subscriber>,
    fanouts: map<FanId, Fanout>,           // every fanout ever made
    topics: map<Topic, FanId>,
    dropped: set<B.SubId>                  // history: subscriptions the hub has unsubscribed
  )

  // ----- Steps -----

  datatype Event =
    | Connect(c: ConnId)
    | Disconnect(c: ConnId)                               // up to the teardowns that follow
    | Insert(c: ConnId, name: string, s: SubscriberId)    // Subscribe's second section
    | Forget(c: ConnId, name: string)                     // Unsubscribe's section, or Subscribe's rollback
    | StreamFrom(s: SubscriberId, topic: Topic, f: FanId, bs: B.SubId)
    | Untrack(s: SubscriberId)
    | PumpReceive(f: FanId)
    | PumpSnapshot(f: FanId)
    | PumpSend(f: FanId, s: SubscriberId)
    | PumpNext(f: FanId)
    | Take(c: ConnId)
    | Broadcaster(e: B.Event)                             // anything else that happens there

  function ConnectStep(w: World, c: ConnId): World {
    if c in w.conns then w else w.(conns := w.conns[c := Conn(map[], [], 0)], live := w.live + {c})
  }

  function DisconnectStep(w: World, c: ConnId): World {
    if c !in w.live || c !in w.conns then w
    else w.(live := w.live - {c}, conns := w.conns[c := w.conns[c].(subs := map[])])
  }

  /** Only the connection's own table is looked at again, not whether the hub still knows it. */
  function InsertStep(w: World, c: ConnId, name: string, s: SubscriberId): World {
    if c !in w.conns || name in w.conns[c].subs || s in w.subscribers then w
    else
      w.(conns := w.conns[c := w.conns[c].(subs := w.conns[c].subs[name := s])],
         subscribers := w.subscribers[s := Subscriber(c, name, {})])
  }

  function ForgetStep(w: World, c: ConnId, name: string): World {
    if c !in w.conns then w else w.(conns := w.conns[c := w.conns[c].(subs := w.conns[c].subs - {name})])
  }

  function Joined(w: World, s: SubscriberId, f: FanId): World
    requires s in w.subscribers && f in w.fanouts
  {
    var fan := w.fanouts[f];
    w.(fanouts := w.fanouts[f := fan.(subscribers := fan.subscribers + {s})],
       subscribers := w.subscribers[s := w.subscribers[s].(topics := w.subscribers[s].topics + {fan.topic})])
  }

  function StreamFromStep(w: World, s: SubscriberId, topic: Topic, f: FanId, bs: B.SubId): World {
    if s !in w.subscribers then w
    else if topic in w.topics then
      if w.topics[topic] in w.fanouts then Joined(w, s, w.topics[topic]) else w
    else if w.b.closed || w.b.publishing.Some? || bs in w.b.subs || f in w.fanouts then w   // an error, or waits
    else
      Joined(w.(b := B.SubscribeStep(w.b, topic, bs),
                fanouts := w.fanouts[f := Fanout(topic, bs, {}, Waiting)],
                topics := w.topics[topic := f]), s, f)
  }

  /** f is listed under a topic that s streams. */
  predicate Streams(w: World, s: SubscriberId, f: FanId) {
    && s in w.subscribers && f in w.fanouts
    && var topic := w.fanouts[f].topic;
       topic in w.subscribers[s].topics && topic in w.topics && w.topics[topic] == f
  }

  /** Without s, nobody is left in fanout f. */
  predicate Empties(w: World, s: SubscriberId, f: FanId) {
    Streams(w, s, f) && w.fanouts[f].subscribers - {s} == {}
  }

  function EnterAll(b: B.World, subs: set<B.SubId>): B.World {
    b.(subs := map x | x in b.subs :: if x in subs && b.subs[x].once == B.Fresh then b.subs[x].(once := B.Entered) else b.subs[x])
  }

  function UntrackStep(w: World, s: SubscriberId): World {
    if s !in w.subscribers then w
    else
      var emptied := set f | f in w.fanouts && Empties(w, s, f) :: w.fanouts[f].sub;
      w.(b := EnterAll(w.b, emptied),
         dropped := w.dropped + emptied,
         topics := map t | t in w.topics && !Empties(w, s, w.topics[t]) :: w.topics[t],
         fanouts := map f | f in w.fanouts ::
           if Streams(w, s, f) then w.fanouts[f].(subscribers := w.fanouts[f].subscribers - {s}) else w.fanouts[f],
         subscribers := w.subscribers[s := w.subscribers[s].(topics := {})])
  }

  function WithPump(w: World, f: FanId, pump: Pump): World
    requires f in w.fanouts
  {
    w.(fanouts := w.fanouts[f := w.fanouts[f].(pump := pump)])
  }

  function PumpReceiveStep(w: World, f: FanId): World {
    if f !in w.fanouts || !w.fanouts[f].pump.Waiting? then w
    else
      var bs := w.fanouts[f].sub;
      if bs !in w.b.subs || w.b.subs[bs].buffer == [] then w
      else WithPump(w, f, Got(w.b.subs[bs].buffer[0])).(b := B.ReceiveStep(w.b, bs))
  }

  function PumpSnapshotStep(w: World, f: FanId): World {
    if f !in w.fanouts || !w.fanouts[f].pump.Got? then w
    else WithPump(w, f, Sending(w.fanouts[f].pump.msg, w.fanouts[f].subscribers))
  }

  function PumpSendStep(w: World, f: FanId, s: SubscriberId): World {
    if f !in w.fanouts || !w.fanouts[f].pump.Sending? || s !in w.fanouts[f].pump.left || s !in w.subscribers then w
    else
      var msg, c := w.fanouts[f].pump.msg, w.subscribers[s].conn;
      var v := WithPump(w, f, Sending(msg, w.fanouts[f].pump.left - {s}));
      if c in w.conns && |w.conns[c].sent| < w.conns[c].taken + OUTBOX
      then v.(conns := w.conns[c := w.conns[c].(sent := w.conns[c].sent + [Delivery(f, s, msg)])])
      else v     // slow consumer: dropped
  }

  function PumpNextStep(w: World, f: FanId): World {
    if f in w.fanouts && w.fanouts[f].pump.Sending? && w.fanouts[f].pump.left == {} then WithPump(w, f, Waiting) else w
  }

  function TakeStep(w: World, c: ConnId): World {
    if c in w.conns && w.conns[c].taken < |w.conns[c].sent|
    then w.(conns := w.conns[c := w.conns[c].(taken := w.conns[c].taken + 1)]) else w
  }

  /** Only a fanout's own pump receives from its subscription. */
  function BroadcasterStep(w: World, e: B.Event): World {
    if e.Receive? && exists f | f in w.fanouts :: w.fanouts[f].sub == e.s then w
    else w.(b := B.Next(w.b, e))
  }

  /** One step; an event that is not enabled changes nothing. */
  function Next(w: World, e: Event): World {
    match e
    case Connect(c) => ConnectStep(w, c)
    case Disconnect(c) => DisconnectStep(w, c)
    case Insert(c, name, s) => InsertStep(w, c, name, s)
    case Forget(c, name) => ForgetStep(w, c, name)
    case StreamFrom(s, topic, f, bs) => StreamFromStep(w, s, topic, f, bs)
    case Untrack(s) => UntrackStep(w, s)
    case PumpReceive(f) => PumpReceiveStep(w, f)
    case PumpSnapshot(f) => PumpSnapshotStep(w, f)
    case PumpSend(f, s) => PumpSendStep(w, f, s)
    case PumpNext(f) => PumpNextStep(w, f)
    case Take(c) => TakeStep(w, c)
    case Broadcaster(be) => BroadcasterStep(w, be)
  }

  function Run(w: World, es: seq<Event>): World
    decreases |es|
  {
    if es == [] then w else Run(Next(w, es[0]), es[1..])
  }

  const INITIAL := World(B.INITIAL, map[], {}, map[], map[], map[], {})
}
