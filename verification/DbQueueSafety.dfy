/** What follows for every interleaving of workers. */
module DbQueueSafety {
  import opened DbQueue
  import opened DbQueueInvariant

  /** With claims made by the one UPDATE, the rows of a key inside its window never outnumber its limit. */
  lemma LimitHolds(w: World, key: Key, t: int)
    requires Reachable(w) && !w.cfg.rowLocking && key != ""
    requires key in w.lastClaim ==> w.lastClaim[key] <= t
    ensures |Active(w.jobs, key, t, w.cfg.duration(key))| <= w.cfg.limit(key)
  {
    ReachableGood(w);
    var active := Active(w.jobs, key, t, w.cfg.duration(key));
    if key in w.lastClaim {
      assert KeyOk(w, key);
      SubsetSize(active, Active(w.jobs, key, w.lastClaim[key], w.cfg.duration(key)));
    } else {
      forall j | j in w.jobs
        ensures j !in active
      {
        assert JobOk(w, j);
      }
      assert active == {};
    }
  }

  /** A row is held by at most one claim, selected by at most one, and never both. */
  lemma OneHolder(w: World, h: Handle, g: Handle)
    requires Reachable(w) && h in w.claims && g in w.claims && w.claims[h].job == w.claims[g].job
    requires !w.claims[h].phase.Done? && !w.claims[g].phase.Done?
    ensures h == g
  {
    ReachableGood(w);
    assert ClaimOk(w, h) && ClaimOk(w, g) && PairOk(w, h, g);
  }

  /** While a row is held, the stored row, attempts included, is the holder's snapshot. */
  lemma SnapshotIsStored(w: World, h: Handle)
    requires Reachable(w) && Owner(At(w, h))
    ensures w.claims[h].job in w.jobs && w.jobs[w.claims[h].job] == At(w, h).row
  {
    ReachableGood(w);
    assert ClaimOk(w, h);
  }

  /**
   A job is performed at most MaxAttempts times, or once if that is not positive, however
   often workers crash; and a row offered for claiming has attempts to spend.
   */
  lemma PerformedAtMostMax(w: World, j: JobId)
    requires Reachable(w) && j in w.performed
    ensures j in w.budget && w.performed[j] <= AtLeastOne(w.budget[j])
    ensures j in w.jobs && w.jobs[j].state == Available ==> w.jobs[j].attempts < AtLeastOne(w.jobs[j].maxAttempts)
    ensures j in w.jobs ==> w.jobs[j].attempts <= w.performed[j] <= w.jobs[j].attempts + 1
  {
    ReachableGood(w);
    assert JobOk(w, j);
  }

  // ----- Runs, one step at a time -----

  lemma {:induction false} RunSnoc(w: World, es: seq<Event>, e: Event)
    ensures Run(w, es + [e]) == Next(Run(w, es), e)
    decreases |es|
  {
    hide Next;
    if es == [] {
      assert Run(w, [e]) == Run(Next(w, e), []);
    } else {
      assert (es + [e])[1..] == es[1..] + [e];
      RunSnoc(Next(w, es[0]), es[1..], e);
    }
  }

  lemma ReachableNext(w: World, e: Event)
    requires Reachable(w)
    ensures Reachable(Next(w, e))
  {
    hide Next, Run;
    var cfg: Config, es: seq<Event> :| w == Run(Initial(cfg), es);
    RunSnoc(Initial(cfg), es, e);
  }

  lemma InitialReachable(cfg: Config)
    ensures Reachable(Initial(cfg))
  {
    assert Initial(cfg) == Run(Initial(cfg), []);
  }

  // ----- How often a job is performed -----

  const QUEUES := ["default"]

  /** In every run, a job enqueued with maxAttempts is performed no more often than that, or than the default where zero is given. */
  ghost predicate AttemptsKept(cfg: Config, maxAttempts: int) {
    forall w: World, j: JobId :: Reachable(w) && w.cfg == cfg && j in w.budget && j in w.performed && w.budget[j] == Budget(maxAttempts) ==>
      w.performed[j] <= w.budget[j]
  }

  /** MaxAttempts is kept in every run exactly when it is not negative. */
  lemma AttemptsKeptIff(cfg: Config, maxAttempts: int)
    ensures AttemptsKept(cfg, maxAttempts) <==> maxAttempts >= 0
  {
    if maxAttempts >= 0 {
      forall w: World, j: JobId | Reachable(w) && w.cfg == cfg && j in w.budget && j in w.performed && w.budget[j] == Budget(maxAttempts)
        ensures w.performed[j] <= w.budget[j]
      {
        PerformedAtMostMax(w, j);
      }
    } else {
      var w := AttemptsReached(cfg, maxAttempts);
      assert w.performed[0] > w.budget[0];
    }
  }

  /** After k failed performances of job 0, each recorded: it waits for the next, or has failed for good. */
  ghost predicate Tried(w: World, cfg: Config, m: int, k: nat) {
    && w.cfg == cfg && w.locks == map[] && (forall h :: h in w.claims ==> h < k)
    && w.performed == map[0 := k] && w.budget == map[0 := m] && w.jobs.Keys == {0}
    && var job := w.jobs[0];
       && job.attempts == k && job.maxAttempts == m && job.queue == "default" && job.scheduledAt == 0 && job.key == ""
       && job.state == if k == 0 || k < m then Available else Failed
  }

  lemma Untried(cfg: Config, maxAttempts: int) returns (w: World)
    ensures Reachable(w) && Tried(w, cfg, Budget(maxAttempts), 0)
  {
    var e := Enqueue(0, maxAttempts, "default", 0, "");
    InitialReachable(cfg);
    ReachableNext(Initial(cfg), e);
    w := Next(Initial(cfg), e);
    hide Reachable;
  }

  /** A failed performance is retried until MaxAttempts of them have been made, so the bound is reached in some run. */
  lemma {:induction false} TriedTimes(cfg: Config, maxAttempts: int, k: nat) returns (w: World)
    requires k <= AtLeastOne(Budget(maxAttempts))
    ensures Reachable(w) && Tried(w, cfg, Budget(maxAttempts), k)
  {
    if k == 0 {
      w := Untried(cfg, maxAttempts);
    } else {
      var v := TriedTimes(cfg, maxAttempts, k - 1);
      w := HeldNext(v, cfg, Budget(maxAttempts), k - 1);
      var job := v.jobs[0];
      FailsNext(w, k - 1, job);
      hide Next, Reachable;
      ReachableNext(w, Perform(k - 1, false));
      w := Next(w, Perform(k - 1, false));
      ReachableNext(w, Record(k - 1, true, 0));
      w := Next(w, Record(k - 1, true, 0));
    }
  }

  /** One performance that fails, and its record. */
  lemma FailsNext(u: World, h: Handle, job: Job)
    requires h in u.claims && u.claims[h] == Claim(0, 0, Held(Marked(job, 0))) && 0 in u.jobs && 0 in u.performed && u.locks == map[]
    requires u.jobs[0] == Marked(job, 0)
    ensures var w, n := Next(Next(u, Perform(h, false)), Record(h, true, 0)), job.attempts + 1;
            && w.cfg == u.cfg && w.locks == u.locks && w.budget == u.budget && w.claims.Keys == u.claims.Keys
            && w.performed == u.performed[0 := u.performed[0] + 1]
            && w.jobs == u.jobs[0 := if n < job.maxAttempts then Marked(job, 0).(state := Available, attempts := n, scheduledAt := 0)
                                     else Marked(job, 0).(state := Failed, attempts := n)]
  {
  }

  lemma HeldNext(v: World, cfg: Config, m: int, k: nat) returns (w: World)
    requires Reachable(v) && Tried(v, cfg, m, k) && (k == 0 || k < m)
    ensures Reachable(w) && w.jobs == v.jobs[0 := Marked(v.jobs[0], 0)] && w.locks == map[]
    ensures w.cfg == cfg && w.performed == v.performed && w.budget == v.budget
    ensures w.claims == v.claims[k := Claim(0, 0, Held(Marked(v.jobs[0], 0)))]
  {
    assert QUEUES[0] in QUEUES && Ready(v.jobs, 0, QUEUES, 0) && Candidate(v.jobs, {}, 0, QUEUES, 0);
    assert v.locks.Keys == {};
    if cfg.rowLocking {
      ReachableNext(v, SelectRow(k, 0, QUEUES, 0));
      var u := Next(v, SelectRow(k, 0, QUEUES, 0));
      ReachableNext(u, MarkRow(k));
      w := Next(u, MarkRow(k));
    } else {
      ReachableNext(v, ClaimAtomic(k, 0, QUEUES, 0));
      w := Next(v, ClaimAtomic(k, 0, QUEUES, 0));
    }
    hide Reachable;
  }

  /** For every MaxAttempts some run performs the job as often as any run may: that often, or once if it is negative. */
  lemma AttemptsReached(cfg: Config, maxAttempts: int) returns (w: World)
    ensures Reachable(w) && w.cfg == cfg && 0 in w.jobs && w.jobs[0].maxAttempts == Budget(maxAttempts)
    ensures 0 in w.performed && w.performed[0] == (if maxAttempts == 0 then 25 else if maxAttempts < 0 then 1 else maxAttempts)
    ensures w.jobs[0].state == Failed && w.budget == map[0 := Budget(maxAttempts)]
  {
    w := TriedTimes(cfg, maxAttempts, AtLeastOne(Budget(maxAttempts)));
  }
}
