/**
 The invariants of the pool, and that every step keeps them.

 The in-flight counter is the number of jobs that are queued, waiting for room or for a
 timer, or with a worker, and a job is with one worker at most. As long as no slot
 expires while a job holds it, the count of every slot is the number of jobs that have
 acquired it and not yet released it.
 */
module AsyncPoolInvariant {
  import opened AsyncPool

  // ----- Invariants -----

  /** Accepted and not yet finished or dropped: waiting on a timer, in send, queued, or with a worker. */
  predicate Pending(phase: Phase) {
    phase.Timed? || phase.Sending? || phase.Queued? || phase.Taken? || phase.Running?
  }

  function InFlight(w: World): set<JobId> {
    set j | j in w.jobs && Pending(w.jobs[j].phase)
  }

  predicate Holds(job: Job, key: Key) {
    job.key == key && (job.phase.Running? || job.phase.Leaving?)
  }

  /** The jobs that have acquired key's slot and not released it. */
  function Holders(w: World, key: Key): set<JobId> {
    HoldersAmong(w.jobs, key)
  }

  function HoldersAmong(jobs: map<JobId, Job>, key: Key): set<JobId> {
    set j | j in jobs && Holds(jobs[j], key)
  }

  predicate WithWorker(phase: Phase) {
    phase.Taken? || phase.Running? || phase.Leaving?
  }

  ghost predicate JobOk(w: World, j: JobId)
    requires j in w.jobs
  {
    && j in w.done && w.done[j] == (if Pending(w.jobs[j].phase) then 0 else 1)
    && (w.jobs[j].phase.Queued? <==> j in w.queue)
  }

  ghost predicate WorkerOk(w: World, x: WorkerId)
    requires x in w.workers
  {
    w.workers[x].Busy? ==> w.workers[x].job in w.jobs && WithWorker(w.jobs[w.workers[x].job].phase)
  }

  ghost predicate PairOk(w: World, x: WorkerId, y: WorkerId) {
    x in w.workers && y in w.workers && w.workers[x].Busy? && w.workers[x] == w.workers[y] ==> x == y
  }

  ghost predicate QueueOk(w: World) {
    && |w.queue| <= w.cfg.capacity && (forall j <- w.queue :: j in w.jobs)
    && forall i, k :: 0 <= i < k < |w.queue| ==> w.queue[i] != w.queue[k]
  }

  ghost predicate Inv(w: World) {
    && w.inFlight == |InFlight(w)| && QueueOk(w) && w.done.Keys == w.jobs.Keys
    && (forall j {:trigger JobOk(w, j)} :: j in w.jobs ==> JobOk(w, j))
    && (forall x {:trigger WorkerOk(w, x)} :: x in w.workers ==> WorkerOk(w, x))
    && (forall x, y {:trigger PairOk(w, x, y)} :: PairOk(w, x, y))
  }

  /** The slot of a key counts its holders, within the limit. */
  ghost predicate SlotOk(w: World, key: Key) {
    (if key in w.slots then w.slots[key].count else 0) == |Holders(w, key)| && (key in w.slots ==> |Holders(w, key)| <= Bound(w.cfg.limit(key)))
  }

  function Bound(limit: int): nat {
    if limit < 0 then 0 else limit
  }

  ghost predicate SlotsOk(w: World) {
    forall key {:trigger SlotOk(w, key)} :: key != "" ==> SlotOk(w, key)
  }

  // ----- Every step keeps the counter -----

  /** A job that moves between phases on the same side of the counter, or across it. */
  lemma MoveCounts(w: World, j: JobId, phase: Phase)
    requires j in w.jobs
    ensures InFlight(Move(w, j, phase))
            == if Pending(phase) then InFlight(w) + {j} else InFlight(w) - {j}
  {
  }

  lemma StepKeeps(w: World, e: Event)
    requires Inv(w)
    ensures Inv(Next(w, e))
  {
    match e
    case Enqueue(j, key, later) => EnqueueKeeps(w, j, key, later);
    case TimerFires(j) => if In(w, j, Timed) { MovedKeeps(w, j, Sending); }
    case SendQueued(j) => if In(w, j, Sending) && |w.queue| < w.cfg.capacity { QueuedKeeps(w, j); }
    case SendDropped(j) => if In(w, j, Sending) && w.stopped { CountedKeeps(w, j, Dropped); }
    case Take(x) => if Next(w, e) != w { TakeKeeps(w, x); }
    case Handoff(x, j) => if Next(w, e) != w { HandoffKeeps(w, x, j); }
    case Acquire(x, now) => if Has(w, x, Taken) { AcquireKeeps(w, x, now); }
    case Finish(x) => if Has(w, x, Running) { CountedKeeps(w, w.workers[x].job, Leaving); }
    case Release(x) => if Has(w, x, Leaving) { ReleaseKeeps(w, x); }
    case Exit(x) => if Next(w, e) != w { SetKeeps(w, x, Exited); }
    case Stop => SameKeeps(w, w.(stopped := true));
  }

  lemma SameKeeps(w: World, v: World)
    requires Inv(w) && v == w.(stopped := v.stopped, slots := v.slots)
    ensures Inv(v)
  {
    assert InFlight(v) == InFlight(w);
    forall j | j in v.jobs ensures JobOk(v, j) { assert JobOk(w, j); }
    forall x | x in v.workers ensures WorkerOk(v, x) { assert WorkerOk(w, x); }
    forall x, y ensures PairOk(v, x, y) { assert PairOk(w, x, y); }
  }

  lemma EnqueueKeeps(w: World, j: JobId, key: Key, later: bool)
    requires Inv(w)
    ensures Inv(EnqueueStep(w, j, key, later))
  {
    var v := EnqueueStep(w, j, key, later);
    if j !in w.jobs {
      assert InFlight(v) == InFlight(w) + {j};
      forall i | i in v.jobs ensures JobOk(v, i) { if i != j { assert JobOk(w, i); } }
      forall x | x in v.workers ensures WorkerOk(v, x) { assert WorkerOk(w, x); }
      forall x, y ensures PairOk(v, x, y) { assert PairOk(w, x, y); }
    }
  }

  /** A pending job that stays pending, and out of the queue, where it was. */
  lemma MovedKeeps(w: World, j: JobId, phase: Phase)
    requires Inv(w) && j in w.jobs && Pending(w.jobs[j].phase) && Pending(phase)
    requires !w.jobs[j].phase.Queued? && !phase.Queued? && (WithWorker(w.jobs[j].phase) ==> WithWorker(phase))
    ensures Inv(Move(w, j, phase))
  {
    var v := Move(w, j, phase);
    MoveCounts(w, j, phase);
    assert InFlight(w) + {j} == InFlight(w);
    forall i | i in v.jobs ensures JobOk(v, i) { assert JobOk(w, i); }
    forall x | x in v.workers ensures WorkerOk(v, x) { assert WorkerOk(w, x); }
    forall x, y ensures PairOk(v, x, y) { assert PairOk(w, x, y); }
  }

  lemma QueuedKeeps(w: World, j: JobId)
    requires Inv(w) && In(w, j, Sending) && |w.queue| < w.cfg.capacity
    ensures Inv(Move(w, j, Queued).(queue := w.queue + [j]))
  {
    var v := Move(w, j, Queued).(queue := w.queue + [j]);
    MoveCounts(w, j, Queued);
    assert InFlight(v) == InFlight(w);
    assert JobOk(w, j);
    assert forall i :: i in v.queue <==> i in w.queue || i == j;
    forall i | i in v.jobs ensures JobOk(v, i) { assert JobOk(w, i); }
    forall x | x in v.workers ensures WorkerOk(v, x) { assert WorkerOk(w, x); }
    forall x, y ensures PairOk(v, x, y) { assert PairOk(w, x, y); }
  }

  /** A pending job that is done, by finishing or by being dropped: the one call of inFlight.Done for it. */
  lemma CountedKeeps(w: World, j: JobId, phase: Phase)
    requires Inv(w) && j in w.jobs && Pending(w.jobs[j].phase) && !w.jobs[j].phase.Queued? && !Pending(phase)
    requires WithWorker(w.jobs[j].phase) ==> WithWorker(phase)
    ensures Inv(Counted(Move(w, j, phase), j))
  {
    var v := Counted(Move(w, j, phase), j);
    MoveCounts(w, j, phase);
    assert InFlight(v) == InFlight(w) - {j} && j in InFlight(w);
    assert JobOk(w, j);
    forall i | i in v.jobs ensures JobOk(v, i) { assert JobOk(w, i); }
    forall x | x in v.workers ensures WorkerOk(v, x) { assert WorkerOk(w, x); }
    forall x, y ensures PairOk(v, x, y) { assert PairOk(w, x, y); }
  }

  lemma TakeKeeps(w: World, x: WorkerId)
    requires Inv(w) && x in w.workers && w.workers[x].Idle? && w.queue != [] && w.queue[0] in w.jobs
    ensures Inv(TakeStep(w, x))
  {
    var v, j := TakeStep(w, x), w.queue[0];
    MoveCounts(w, j, Taken);
    assert j in w.queue && JobOk(w, j);
    assert InFlight(v) == InFlight(w);
    assert forall i :: i in w.queue <==> i == j || i in v.queue;
    assert j !in v.queue;
    forall i | i in v.jobs ensures JobOk(v, i) { assert JobOk(w, i); }
    forall y | y in v.workers ensures WorkerOk(v, y) { assert WorkerOk(w, y); }
    forall y, z ensures PairOk(v, y, z) {
      assert PairOk(w, y, z);
      if y in w.workers { assert WorkerOk(w, y); }
      if z in w.workers { assert WorkerOk(w, z); }
    }
  }

  lemma HandoffKeeps(w: World, x: WorkerId, j: JobId)
    requires Inv(w) && x in w.workers && w.workers[x].Idle? && In(w, j, Sending)
    ensures Inv(Set(Move(w, j, Taken), x, Busy(j)))
  {
    var v := Set(Move(w, j, Taken), x, Busy(j));
    MoveCounts(w, j, Taken);
    assert InFlight(v) == InFlight(w);
    assert JobOk(w, j);
    forall i | i in v.jobs ensures JobOk(v, i) { assert JobOk(w, i); }
    forall y | y in v.workers ensures WorkerOk(v, y) { assert WorkerOk(w, y); }
    forall y, z ensures PairOk(v, y, z) {
      assert PairOk(w, y, z);
      if y in w.workers { assert WorkerOk(w, y); }
      if z in w.workers { assert WorkerOk(w, z); }
    }
  }

  lemma SetKeeps(w: World, x: WorkerId, state: WorkerState)
    requires Inv(w) && x in w.workers && !state.Busy?
    ensures Inv(Set(w, x, state))
  {
    var v := Set(w, x, state);
    assert InFlight(v) == InFlight(w);
    forall i | i in v.jobs ensures JobOk(v, i) { assert JobOk(w, i); }
    forall y | y in v.workers ensures WorkerOk(v, y) { assert WorkerOk(w, y); }
    forall y, z ensures PairOk(v, y, z) { assert PairOk(w, y, z); }
  }

  /** A worker hands its job back, to a timer or to its end. */
  lemma LeaveKeeps(w: World, x: WorkerId, phase: Phase)
    requires Inv(w) && (Has(w, x, Taken) || Has(w, x, Leaving))
    requires phase == if Has(w, x, Taken) then Timed else Ended
    ensures Inv(Set(Move(w, w.workers[x].job, phase), x, Idle))
  {
    var j := w.workers[x].job;
    var v := Set(Move(w, j, phase), x, Idle);
    MoveCounts(w, j, phase);
    assert JobOk(w, j);
    assert InFlight(v) == InFlight(w);
    forall i | i in v.jobs ensures JobOk(v, i) { assert JobOk(w, i); }
    forall y | y in v.workers ensures WorkerOk(v, y) { assert WorkerOk(w, y) && PairOk(w, x, y); }
    forall y, z ensures PairOk(v, y, z) { assert PairOk(w, y, z); }
  }

  lemma AcquireKeeps(w: World, x: WorkerId, now: int)
    requires Inv(w) && Has(w, x, Taken)
    ensures Inv(AcquireStep(w, x, now))
  {
    var j := w.workers[x].job;
    var v := AcquireStep(w, x, now);
    MovedKeeps(w, j, Running);
    LeaveKeeps(w, x, Timed);
    SameKeeps(Move(w, j, Running), Move(w, j, Running).(slots := v.slots));
    SameKeeps(Set(Move(w, j, Timed), x, Idle), Set(Move(w, j, Timed), x, Idle).(slots := v.slots));
  }

  lemma ReleaseKeeps(w: World, x: WorkerId)
    requires Inv(w) && Has(w, x, Leaving)
    ensures Inv(ReleaseStep(w, x))
  {
    var v := ReleaseStep(w, x);
    LeaveKeeps(w, x, Ended);
    SameKeeps(Set(Move(w, w.workers[x].job, Ended), x, Idle), v);
  }

  // ----- Every step keeps the slots, as long as none expires while held -----

  /** e acquires no slot that has expired while some job still holds it. */
  predicate InTime(w: World, e: Event) {
    e.Acquire? && Has(w, e.w, Taken) ==>
      var key := w.jobs[w.workers[e.w].job].key;
      key != "" && Expired(w.slots, key, e.now) ==> w.slots[key].count <= 0
  }

  lemma SameHolders(w: World, v: World)
    requires SlotsOk(w) && v.slots == w.slots && v.cfg == w.cfg
    requires forall j, key :: (j in w.jobs && Holds(w.jobs[j], key)) <==> (j in v.jobs && Holds(v.jobs[j], key))
    ensures SlotsOk(v)
  {
    forall key | key != ""
      ensures SlotOk(v, key)
    {
      assert SlotOk(w, key);
      assert Holders(v, key) == Holders(w, key);
    }
  }

  /** One job changes, and with it the holders of its key at most. */
  lemma HoldersMove(jobs: map<JobId, Job>, j: JobId, job: Job, key: Key)
    requires j in jobs
    ensures HoldersAmong(jobs[j := job], key)
            == if Holds(job, key) then HoldersAmong(jobs, key) + {j} else HoldersAmong(jobs, key) - {j}
    ensures |HoldersAmong(jobs[j := job], key)| == |HoldersAmong(jobs, key)|
            + (if Holds(job, key) then 1 else 0) - (if Holds(jobs[j], key) then 1 else 0)
  {
    var before, after := HoldersAmong(jobs, key), HoldersAmong(jobs[j := job], key);
    if Holds(job, key) {
      assert after == before + {j};
    } else {
      assert after == before - {j};
    }
    assert j in before <==> Holds(jobs[j], key);
  }

  lemma SlotsAcquired(w: World, x: WorkerId, now: int)
    requires SlotsOk(w) && Has(w, x, Taken) && InTime(w, Acquire(x, now))
    ensures SlotsOk(AcquireStep(w, x, now))
  {
    var v, j := AcquireStep(w, x, now), w.workers[x].job;
    forall key | key != ""
      ensures SlotOk(v, key)
    {
      assert SlotOk(w, key);
      AcquirerHolds(w, x, now, key);
      hide HoldersAmong;
    }
  }

  /** A job that gets the slot of its key joins its holders. */
  lemma AcquirerHolds(w: World, x: WorkerId, now: int, key: Key)
    requires Has(w, x, Taken) && key != ""
    ensures var v, j := AcquireStep(w, x, now), w.workers[x].job;
            |Holders(v, key)| == |Holders(w, key)|
            + if w.jobs[j].key == key && Held(w.slots, key, now) < w.cfg.limit(key) then 1 else 0
  {
    var j := w.workers[x].job;
    HoldersMove(w.jobs, j, w.jobs[j].(phase := Running), key);
    HoldersMove(w.jobs, j, w.jobs[j].(phase := Timed), key);
    hide HoldersAmong;
  }

  lemma SlotsReleased(w: World, x: WorkerId)
    requires SlotsOk(w) && Has(w, x, Leaving)
    ensures SlotsOk(ReleaseStep(w, x))
  {
    var v, j := ReleaseStep(w, x), w.workers[x].job;
    forall key | key != ""
      ensures SlotOk(v, key)
    {
      assert SlotOk(w, key);
      HoldersMove(w.jobs, j, w.jobs[j].(phase := Ended), key);
      hide HoldersAmong;
    }
  }

  lemma SlotsUntouched(w: World, e: Event)
    requires SlotsOk(w) && !e.Acquire? && !e.Release? && !e.Take?
    ensures SlotsOk(Next(w, e))
  {
    hide SlotsOk, AcquireStep, ReleaseStep, TakeStep;
    SameHolders(w, Next(w, e));
  }

  lemma StepKeepsSlots(w: World, e: Event)
    requires Inv(w) && SlotsOk(w) && InTime(w, e)
    ensures SlotsOk(Next(w, e))
  {
    if e.Acquire? {
      if Has(w, e.w, Taken) { SlotsAcquired(w, e.w, e.now); }
    } else if e.Release? {
      if Has(w, e.w, Leaving) { SlotsReleased(w, e.w); }
    } else if e.Take? {
      assert w.queue != [] ==> w.queue[0] in w.queue && JobOk(w, w.queue[0]);
      hide SlotsOk, Inv, AcquireStep, ReleaseStep;
      SameHolders(w, TakeStep(w, e.w));
    } else {
      SlotsUntouched(w, e);
    }
  }

  predicate AllInTime(w: World, es: seq<Event>)
    decreases |es|
  {
    es == [] || (InTime(w, es[0]) && AllInTime(Next(w, es[0]), es[1..]))
  }

  lemma InitialGood(cfg: Config, workers: set<WorkerId>)
    ensures Inv(Initial(cfg, workers)) && SlotsOk(Initial(cfg, workers))
  {
    var w := Initial(cfg, workers);
    assert InFlight(w) == {};
    forall key ensures SlotOk(w, key) { assert Holders(w, key) == {}; }
  }

  lemma {:induction false} RunKeeps(w: World, es: seq<Event>)
    requires Inv(w)
    ensures Inv(Run(w, es)) && (SlotsOk(w) && AllInTime(w, es) ==> SlotsOk(Run(w, es)))
    decreases |es|
  {
    hide Next, Inv, SlotsOk;
    if es != [] {
      StepKeeps(w, es[0]);
      if SlotsOk(w) && InTime(w, es[0]) { StepKeepsSlots(w, es[0]); }
      RunKeeps(Next(w, es[0]), es[1..]);
    }
  }
}
