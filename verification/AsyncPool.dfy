/**
 The in-process job pool (jobs/backend/async/async.go): a bounded queue, workers, timers
 for jobs that have to wait, the in-flight counter Drain waits on, and concurrency slots
 that expire.

 Each step of a sender, a timer or a worker is one step of the pool.
 */
module AsyncPool {
  type JobId = nat
  type WorkerId = nat
  type Key = string      // "" means no concurrency limit

  datatype Phase =
    | Timed         // waiting on a timer, first or after a full slot
    | Sending       // in send, perhaps blocked
    | Queued
    | Taken         // a worker has it, its slot not yet acquired
    | Running
    | Leaving       // finished and no longer in flight, its slot not yet released
    | Ended         // released
    | Dropped       // send gave up, shutting down

  datatype Job = Job(key: Key, phase: Phase)

  datatype WorkerState = Idle | Busy(job: JobId) | Exited

  datatype Slot = Slot(count: int, expiresAt: int)

  datatype Config = Config(capacity: nat, limit: Key -> int, duration: Key -> int)

  datatype World = World(
    cfg: Config,
    jobs: map<JobId, Job>,
    queue: seq<JobId>,
    workers: map<WorkerId, WorkerState>,
    slots: map<Key, Slot>,
    stopped: bool,
    inFlight: int,
    done: map<JobId, nat>       // history: how often inFlight.Done was called for a job
  )

  // ----- Slots -----

  predicate Expired(slots: map<Key, Slot>, key: Key, now: int) {
    key in slots && now > slots[key].expiresAt
  }

  function Held(slots: map<Key, Slot>, key: Key, now: int): int {
    if key !in slots || Expired(slots, key, now) then 0 else slots[key].count
  }

  /** The slots after tryAcquire, and whether it succeeded; an expired slot is replaced either way. */
  function Acquired(slots: map<Key, Slot>, key: Key, limit: int, duration: int, now: int): (map<Key, Slot>, bool) {
    if Held(slots, key, now) < limit then (slots[key := Slot(Held(slots, key, now) + 1, now + duration)], true)
    else if key !in slots || Expired(slots, key, now) then (slots[key := Slot(0, ZERO_TIME)], false)
    else (slots, false)
  }

  const ZERO_TIME := -0x7FFF_FFFF_FFFF_FFFF   // the expiry of a slot never acquired: before any clock

  function Released(slots: map<Key, Slot>, key: Key): map<Key, Slot> {
    if key !in slots then slots
    else if slots[key].count - 1 <= 0 then slots - {key}
    else slots[key := slots[key].(count := slots[key].count - 1)]
  }

  class Slots {
    var slots: map<Key, Slot>

    method TryAcquire(key: Key, limit: int, duration: int, now: int) returns (ok: bool)
      modifies this
      ensures (slots, ok) == Acquired(old(slots), key, limit, duration, now)
      ensures var live := key in old(slots) && now <= old(slots)[key].expiresAt;
              var held := if live then old(slots)[key].count else 0;
              && (ok <==> held < limit)
              && (ok ==> key in slots && slots[key] == Slot(held + 1, now + duration))
              && (!ok && live ==> slots == old(slots))
      ensures forall k :: k != key ==> (k in slots <==> k in old(slots)) && (k in slots ==> slots[k] == old(slots)[k])
    {
      var s := Slot(0, ZERO_TIME);
      if key in slots && !(now > slots[key].expiresAt) {
        s := slots[key];
      } else {
        slots := slots[key := s];
      }
      if s.count >= limit {
        return false;
      }
      slots := slots[key := Slot(s.count + 1, now + duration)];
      assert slots == old(slots)[key := slots[key]];
      ok := true;
    }

    method Release(key: Key)
      modifies this
      ensures slots == Released(old(slots), key)
      ensures key in slots <==> key in old(slots) && old(slots)[key].count > 1
      ensures key in slots ==> slots[key] == old(slots)[key].(count := old(slots)[key].count - 1)
      ensures forall k :: k != key ==> (k in slots <==> k in old(slots)) && (k in slots ==> slots[k] == old(slots)[k])
    {
      if key !in slots {
        return;
      }
      var s := slots[key];
      s := s.(count := s.count - 1);
      slots := slots[key := s];
      if s.count <= 0 {
        slots := slots - {key};
      }
    }
  }

  // ----- Steps -----

  datatype Event =
    | Enqueue(j: JobId, key: Key, later: bool)
    | TimerFires(j: JobId)
    | SendQueued(j: JobId)
    | SendDropped(j: JobId)
    | Take(w: WorkerId)
    | Handoff(w: WorkerId, j: JobId)       // a send that meets an idle worker
    | Acquire(w: WorkerId, now: int)
    | Finish(w: WorkerId)                  // Dispatch is back; inFlight.Done
    | Release(w: WorkerId)
    | Exit(w: WorkerId)
    | Stop

  predicate In(w: World, j: JobId, phase: Phase) {
    j in w.jobs && w.jobs[j].phase == phase
  }

  function Move(w: World, j: JobId, phase: Phase): World
    requires j in w.jobs
  {
    w.(jobs := w.jobs[j := w.jobs[j].(phase := phase)])
  }

  function Set(w: World, x: WorkerId, state: WorkerState): World {
    w.(workers := w.workers[x := state])
  }

  /** inFlight.Done for j. */
  function Counted(w: World, j: JobId): World {
    w.(inFlight := w.inFlight - 1, done := w.done[j := (if j in w.done then w.done[j] else 0) + 1])
  }

  predicate Has(w: World, x: WorkerId, phase: Phase) {
    x in w.workers && w.workers[x].Busy? && In(w, w.workers[x].job, phase)
  }

  function EnqueueStep(w: World, j: JobId, key: Key, later: bool): World {
    if j in w.jobs then w
    else w.(jobs := w.jobs[j := Job(key, if later then Timed else Sending)], inFlight := w.inFlight + 1, done := w.done[j := 0])
  }

  function TakeStep(w: World, x: WorkerId): World {
    if x !in w.workers || !w.workers[x].Idle? || w.queue == [] || w.queue[0] !in w.jobs then w
    else Set(Move(w, w.queue[0], Taken), x, Busy(w.queue[0])).(queue := w.queue[1..])
  }

  function AcquireStep(w: World, x: WorkerId, now: int): World {
    if !Has(w, x, Taken) then w
    else
      var j := w.workers[x].job;
      var key := w.jobs[j].key;
      if key == "" then Move(w, j, Running)
      else
        var (slots, ok) := Acquired(w.slots, key, w.cfg.limit(key), w.cfg.duration(key), now);
        if ok then Move(w, j, Running).(slots := slots) else Set(Move(w, j, Timed), x, Idle).(slots := slots)
  }

  function ReleaseStep(w: World, x: WorkerId): World {
    if !Has(w, x, Leaving) then w
    else
      var j := w.workers[x].job;
      Set(Move(w, j, Ended), x, Idle).(slots := if w.jobs[j].key == "" then w.slots else Released(w.slots, w.jobs[j].key))
  }

  /** One step; an event that is not enabled changes nothing. */
  function Next(w: World, e: Event): World {
    match e
    case Enqueue(j, key, later) => EnqueueStep(w, j, key, later)
    case TimerFires(j) => if In(w, j, Timed) then Move(w, j, Sending) else w
    case SendQueued(j) => if In(w, j, Sending) && |w.queue| < w.cfg.capacity then Move(w, j, Queued).(queue := w.queue + [j]) else w
    case SendDropped(j) => if In(w, j, Sending) && w.stopped then Counted(Move(w, j, Dropped), j) else w
    case Take(x) => TakeStep(w, x)
    case Handoff(x, j) =>
      if x in w.workers && w.workers[x].Idle? && In(w, j, Sending) && w.queue == [] then Set(Move(w, j, Taken), x, Busy(j)) else w
    case Acquire(x, now) => AcquireStep(w, x, now)
    case Finish(x) => if Has(w, x, Running) then Counted(Move(w, w.workers[x].job, Leaving), w.workers[x].job) else w
    case Release(x) => ReleaseStep(w, x)
    case Exit(x) => if x in w.workers && w.workers[x].Idle? && w.stopped then Set(w, x, Exited) else w
    case Stop => w.(stopped := true)
  }

  function Run(w: World, es: seq<Event>): World
    decreases |es|
  {
    if es == [] then w else Run(Next(w, es[0]), es[1..])
  }

  function Initial(cfg: Config, workers: set<WorkerId>): World {
    World(cfg, map[], [], map x | x in workers :: Idle, map[], false, 0, map[])
  }
}
