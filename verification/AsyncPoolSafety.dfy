/** What follows for every run of the pool. */
module AsyncPoolSafety {
  import opened AsyncPool
  import opened AsyncPoolInvariant

  /** What Drain waits on is exactly the jobs queued, in send, on a timer, or with a worker; no job is done twice. */
  lemma CounterCountsPending(cfg: Config, workers: set<WorkerId>, es: seq<Event>, j: JobId)
    ensures var w := Run(Initial(cfg, workers), es);
            && w.inFlight == |InFlight(w)| && (w.inFlight == 0 <==> forall i :: i in w.jobs ==> !Pending(w.jobs[i].phase))
            && (j in w.done ==> w.done[j] <= 1)
  {
    InitialGood(cfg, workers);
    RunKeeps(Initial(cfg, workers), es);
    var w := Run(Initial(cfg, workers), es);
    if j in w.done { assert JobOk(w, j); }
    assert w.inFlight == 0 <==> InFlight(w) == {};
    assert forall i :: i in w.jobs && Pending(w.jobs[i].phase) ==> i in InFlight(w);
  }

  /** A job is with at most one worker, and the queue never outgrows its capacity. */
  lemma OneWorkerPerJob(cfg: Config, workers: set<WorkerId>, es: seq<Event>, x: WorkerId, y: WorkerId)
    ensures var w := Run(Initial(cfg, workers), es);
            && |w.queue| <= w.cfg.capacity
            && (x in w.workers && y in w.workers && w.workers[x].Busy? && w.workers[x] == w.workers[y] ==> x == y)
  {
    InitialGood(cfg, workers);
    RunKeeps(Initial(cfg, workers), es);
    assert PairOk(Run(Initial(cfg, workers), es), x, y);
  }

  /** While no slot expires while held, a slot counts the jobs that hold it, and they are within the limit. */
  lemma SlotsCountHolders(cfg: Config, workers: set<WorkerId>, es: seq<Event>, key: Key)
    requires AllInTime(Initial(cfg, workers), es) && key != ""
    ensures var w := Run(Initial(cfg, workers), es);
            && |Holders(w, key)| == (if key in w.slots then w.slots[key].count else 0)
            && |Holders(w, key)| <= Bound(w.cfg.limit(key))
  {
    InitialGood(cfg, workers);
    RunKeeps(Initial(cfg, workers), es);
    assert SlotOk(Run(Initial(cfg, workers), es), key);
  }

  /** And only while: acquiring a slot that expired while held leaves its count short of its holders. */
  lemma LateAcquireMiscounts(w: World, x: WorkerId, now: int)
    requires Inv(w) && SlotsOk(w) && Has(w, x, Taken) && !InTime(w, Acquire(x, now))
    ensures !SlotsOk(AcquireStep(w, x, now))
  {
    var v, j := AcquireStep(w, x, now), w.workers[x].job;
    var key := w.jobs[j].key;
    assert SlotOk(w, key);
    AcquirerHolds(w, x, now, key);
    assert !SlotOk(v, key);
  }

  /** So a step keeps every slot's count right if and only if it acquires none that has expired while held. */
  lemma SlotsKeptIff(w: World, e: Event)
    requires Inv(w) && SlotsOk(w)
    ensures SlotsOk(Next(w, e)) <==> InTime(w, e)
  {
    hide Inv, SlotsOk, AcquireStep;
    if InTime(w, e) {
      StepKeepsSlots(w, e);
    } else {
      LateAcquireMiscounts(w, e.w, e.now);
      assert Next(w, e) == AcquireStep(w, e.w, e.now);
    }
  }

  // ----- A run that gets there -----

  /** w comes of a run in which no slot has expired while held. */
  ghost predicate Timely(cfg: Config, workers: set<WorkerId>, w: World) {
    exists es: seq<Event> :: AllInTime(Initial(cfg, workers), es) && w == Run(Initial(cfg, workers), es)
  }

  lemma TimelyStart(cfg: Config, workers: set<WorkerId>)
    ensures Timely(cfg, workers, Initial(cfg, workers))
  {
    var none: seq<Event> := [];
    assert AllInTime(Initial(cfg, workers), none) && Initial(cfg, workers) == Run(Initial(cfg, workers), none);
  }

  lemma TimelyNext(cfg: Config, workers: set<WorkerId>, w: World, e: Event)
    requires Timely(cfg, workers, w) && InTime(w, e)
    ensures Timely(cfg, workers, Next(w, e))
  {
    hide Next, InTime, Initial;
    var es: seq<Event> :| AllInTime(Initial(cfg, workers), es) && w == Run(Initial(cfg, workers), es);
    Longer(Initial(cfg, workers), es, e);
  }

  lemma {:induction false} Longer(w: World, es: seq<Event>, e: Event)
    requires AllInTime(w, es) && InTime(Run(w, es), e)
    ensures AllInTime(w, es + [e]) && Run(w, es + [e]) == Next(Run(w, es), e)
    decreases |es|
  {
    hide Next, InTime;
    if es == [] {
      assert es + [e] == [e] && [e][1..] == [];
      assert Run(Next(w, e), []) == Next(w, e) && AllInTime(Next(w, e), []);
    } else {
      assert (es + [e])[1..] == es[1..] + [e];
      Longer(Next(w, es[0]), es[1..], e);
    }
  }

  /** A job of key handed to an idle worker, which is about to acquire its slot. */
  lemma HandedOver(cfg: Config, workers: set<WorkerId>, w: World, j: JobId, key: Key, x: WorkerId) returns (v: World)
    requires Timely(cfg, workers, w) && j !in w.jobs && w.queue == [] && x in w.workers && w.workers[x].Idle?
    ensures Timely(cfg, workers, v) && Has(v, x, Taken) && v.workers[x].job == j && v.jobs[j].key == key
    ensures v.cfg == w.cfg && v.slots == w.slots && v.queue == [] && v.workers.Keys == w.workers.Keys
    ensures forall i :: i in v.jobs <==> i in w.jobs || i == j
    ensures forall y :: y in w.workers && y != x ==> v.workers[y] == w.workers[y]
  {
    var sent := Next(w, Enqueue(j, key, false));
    TimelyNext(cfg, workers, w, Enqueue(j, key, false));
    TimelyNext(cfg, workers, sent, Handoff(x, j));
    v := Next(sent, Handoff(x, j));
    hide Timely;
  }

  /** With two workers and a limit of at least one, some run in time ends where one more acquire, late, makes the count wrong. */
  lemma LateAcquireReached(cfg: Config, workers: set<WorkerId>, x: WorkerId, y: WorkerId, key: Key) returns (w: World)
    requires x in workers && y in workers && x != y && key != "" && cfg.limit(key) >= 1
    ensures Timely(cfg, workers, w) && Has(w, y, Taken)
    ensures !InTime(w, Acquire(y, cfg.duration(key) + 1)) && !SlotsOk(AcquireStep(w, y, cfg.duration(key) + 1))
  {
    TimelyStart(cfg, workers);
    var first := HandedOver(cfg, workers, Initial(cfg, workers), 0, key, x);
    TimelyNext(cfg, workers, first, Acquire(x, 0));
    var held := AcquireStep(first, x, 0);
    assert held == Next(first, Acquire(x, 0));
    assert held.slots == map[key := Slot(1, cfg.duration(key))] && held.queue == [] && held.workers[y] == Idle;
    hide AcquireStep, Next;
    w := HandedOver(cfg, workers, held, 1, key, y);
    var es: seq<Event> :| AllInTime(Initial(cfg, workers), es) && w == Run(Initial(cfg, workers), es);
    InitialGood(cfg, workers);
    RunKeeps(Initial(cfg, workers), es);
    hide Run, AllInTime, Initial;
    LateAcquireMiscounts(w, y, cfg.duration(key) + 1);
  }
}
