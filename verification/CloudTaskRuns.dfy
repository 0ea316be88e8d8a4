/** Runs that use all a job's MaxAttempts and all of a key's limit: what is kept is also reached. */
module CloudTaskRuns {
  import opened Results
  import opened CloudTask
  import opened CloudTaskBackend

  // ----- Runs, one step at a time -----

  lemma {:induction false} RunSnoc(w: World, es: seq<Event>, e: Event)
    ensures Run(w, es + [e]) == Next(Run(w, es), e)
    decreases |es|
  {
    hide Next;
    if es == [] {
      assert Run(w, [e]) == Run(Next(w, e), []);
    } else {
      assert (es + [e])[1..] == es[1..] + [e];
      RunSnoc(Next(w, es[0]), es[1..], e);
    }
  }

  lemma ReachableNext(w: World, e: Event)
    requires Reachable(w)
    ensures Reachable(Next(w, e))
  {
    hide Next, Run;
    var cfg: Config, es: seq<Event> :| (forall k :: cfg.duration(k) > 0) && w == Run(Initial(cfg), es);
    RunSnoc(Initial(cfg), es, e);
  }

  lemma InitialReachable(cfg: Config)
    requires forall k :: cfg.duration(k) > 0
    ensures Reachable(Initial(cfg))
  {
    assert Initial(cfg) == Run(Initial(cfg), []);
  }

  lemma ReachableClaim(w: World, p: PushId, jobID: JobId, now: int, newSlot: SlotId, slot: SlotId)
    requires Reachable(w)
    ensures Reachable(AfterClaim(w, p, jobID, now, newSlot, slot))
  {
    hide Reachable, Next;
    var v := Next(w, Arrive(p, jobID, now));
    ReachableNext(w, Arrive(p, jobID, now));
    ReachableNext(v, LockRow(p));
    v := Next(v, LockRow(p));
    ReachableNext(v, Mark(p));
    v := Next(v, Mark(p));
    ReachableNext(v, CommitUnlimited(p));
    v := Next(v, CommitUnlimited(p));
    ReachableNext(v, Event.EnsureSlot(p, newSlot));
    v := Next(v, Event.EnsureSlot(p, newSlot));
    ReachableNext(v, LockSlot(p, slot));
    v := Next(v, LockSlot(p, slot));
    ReachableNext(v, Count(p));
    v := Next(v, Count(p));
    ReachableNext(v, CommitClaim(p));
  }

  lemma ReachablePerform(w: World, p: PushId, ok: bool, stored: bool)
    requires Reachable(w)
    ensures Reachable(AfterPerform(w, p, ok, stored))
  {
    hide Reachable, Next;
    ReachableNext(w, Dispatch(p, ok));
    ReachableNext(Next(w, Dispatch(p, ok)), Record(p, stored));
  }

  // ----- MaxAttempts is reached -----

  /** After k failed dispatches of job 0, each by a push of its own: it waits for the next delivery, or has failed for good. */
  ghost predicate Tried(w: World, cfg: Config, m: int, k: nat) {
    && w.cfg == cfg && Quiet(w) && (forall p :: p in w.pushes ==> p < k)
    && w.dispatches == map[0 := k] && w.budget == map[0 := m] && w.jobs.Keys == {0}
    && var job := w.jobs[0];
       job.attempts == k && job.maxAttempts == m && job.key == "" && job.state == if k < m then Pending else Failed
  }

  lemma Untried(cfg: Config, maxAttempts: int) returns (w: World)
    requires (forall k :: cfg.duration(k) > 0) && maxAttempts >= 0
    ensures Reachable(w) && Tried(w, cfg, if maxAttempts == 0 then 25 else maxAttempts, 0)
  {
    var e := Enqueue(0, maxAttempts, "");
    InitialReachable(cfg);
    ReachableNext(Initial(cfg), e);
    w := Next(Initial(cfg), e);
    hide Reachable;
    assert w == EnqueueStep(Initial(cfg), 0, maxAttempts, "");
  }

  /** A dispatch that fails, and its record, counted. */
  lemma PerformedOnce(w: World, p: PushId, row: Job)
    requires Quiet(w) && At(w, p) == Owned(row) && w.pushes[p].job in w.jobs && w.pushes[p].job in w.dispatches
    ensures var v, j := AfterPerform(w, p, false, true), w.pushes[p].job;
            && v.cfg == w.cfg && v.budget == w.budget && v.pushes.Keys == w.pushes.Keys
            && v.dispatches == w.dispatches[j := w.dispatches[j] + 1]
  {
    var j := w.pushes[p].job;
    var dispatched := DispatchStep(w, p, false);
    assert Next(w, Dispatch(p, false)) == dispatched;
    assert Next(dispatched, Record(p, true)) == RecordStep(dispatched, p, true);
    hide Next;
  }

  lemma TriedNext(w: World, cfg: Config, m: int, k: nat) returns (v: World)
    requires Reachable(w) && Tried(w, cfg, m, k) && k < m
    ensures Reachable(v) && Tried(v, cfg, m, k + 1)
  {
    hide AfterClaim, AfterPerform, Reachable;
    var row := Bumped(w.jobs[0], 0);
    UnlimitedClaim(w, k, 0, 0, 0, 0);
    ReachableClaim(w, k, 0, 0, 0, 0);
    var owned := AfterClaim(w, k, 0, 0, 0, 0);
    UnlimitedAnswers(w, k, 0, 0, row);
    Performed(owned, k, row, false, true);
    PerformedOnce(owned, k, row);
    ReachablePerform(owned, k, false, true);
    v := AfterPerform(owned, k, false, true);
  }

  lemma {:induction false} TriedTimes(cfg: Config, maxAttempts: int, k: nat) returns (w: World)
    requires (forall key :: cfg.duration(key) > 0) && maxAttempts >= 0 && k <= if maxAttempts == 0 then 25 else maxAttempts
    ensures Reachable(w) && Tried(w, cfg, if maxAttempts == 0 then 25 else maxAttempts, k)
  {
    hide Reachable, Tried;
    if k == 0 {
      w := Untried(cfg, maxAttempts);
    } else {
      w := TriedTimes(cfg, maxAttempts, k - 1);
      w := TriedNext(w, cfg, if maxAttempts == 0 then 25 else maxAttempts, k - 1);
    }
  }

  /** Every MaxAttempts that is not negative is used up by some run: that many dispatches, and then the job has failed. */
  lemma DispatchesReached(cfg: Config, maxAttempts: int) returns (w: World)
    requires (forall key :: cfg.duration(key) > 0) && maxAttempts >= 0
    ensures Reachable(w) && w.cfg == cfg && 0 in w.jobs && 0 in w.budget && 0 in w.dispatches
    ensures w.budget[0] == (if maxAttempts == 0 then 25 else maxAttempts) && w.dispatches[0] == w.budget[0]
    ensures w.jobs[0].state == Failed
  {
    w := TriedTimes(cfg, maxAttempts, if maxAttempts == 0 then 25 else maxAttempts);
  }

  // ----- The limit is reached -----

  function Waiting(cfg: Config, key: Key): Job {
    Job(Pending, 0, 1, key, cfg.limit(key), cfg.duration(key), 0)
  }

  /** Jobs 0 to n - 1 of key, the first k of them claimed at time 0, each by the push of its own number. */
  ghost predicate ClaimedUpTo(w: World, cfg: Config, key: Key, n: nat, k: nat) {
    && w.cfg == cfg && k <= n && Quiet(w)
    && (forall p :: p in w.pushes ==> p < k) && (forall s :: s in w.usedSlots ==> s < k) && w.slots.Keys <= w.usedSlots
    && (forall j: JobId :: j in w.jobs <==> j < n) && (forall j: JobId :: j in w.usedJobs <==> j < n)
    && (forall j: JobId :: j < n ==> w.jobs[j] == if j < k then Bumped(Waiting(cfg, key), 0) else Waiting(cfg, key))
    && (forall x :: x in w.lastClaim ==> w.lastClaim[x] == 0)
  }

  lemma EnqueuesNext(w: World, cfg: Config, key: Key, n: nat)
    requires ClaimedUpTo(w, cfg, key, n, 0)
    ensures ClaimedUpTo(EnqueueStep(w, n, 1, key), cfg, key, n + 1, 0)
  {
  }

  lemma {:induction false} AllEnqueued(cfg: Config, key: Key, n: nat) returns (w: World)
    requires forall k :: cfg.duration(k) > 0
    ensures Reachable(w) && ClaimedUpTo(w, cfg, key, n, 0)
  {
    if n == 0 {
      w := Initial(cfg);
      InitialReachable(cfg);
    } else {
      var v := AllEnqueued(cfg, key, n - 1);
      w := EnqueueStep(v, n - 1, 1, key);
      hide Reachable, ClaimedUpTo, EnqueueStep;
      assert w == Next(v, Enqueue(n - 1, 1, key));
      ReachableNext(v, Enqueue(n - 1, 1, key));
      EnqueuesNext(v, cfg, key, n - 1);
    }
  }

  lemma {:induction false} BelowSize(n: nat, s: set<JobId>)
    requires forall j: JobId :: j in s <==> j < n
    ensures |s| == n
    decreases n
  {
    if n > 0 {
      BelowSize(n - 1, s - {n - 1});
    }
  }

  lemma ActiveCount(jobs: map<JobId, Job>, cfg: Config, key: Key, n: nat, k: nat)
    requires k <= n && cfg.duration(key) > 0
    requires (forall j: JobId :: j in jobs <==> j < n)
    requires forall j: JobId :: j < n ==> jobs[j] == if j < k then Bumped(Waiting(cfg, key), 0) else Waiting(cfg, key)
    ensures |Active(jobs, key, 0, cfg.duration(key))| == k
  {
    var active := Active(jobs, key, 0, cfg.duration(key));
    forall j: JobId ensures j in active <==> j < k { assert j < n ==> jobs[j].key == key; }
    BelowSize(k, active);
  }

  /** The slot row is there afterwards, and nothing else has changed. */
  lemma WithSlotKeeps(w: World, cfg: Config, key: Key, n: nat, k: nat)
    requires ClaimedUpTo(w, cfg, key, n, k)
    ensures var with := WithSlot(w, key, 0, k, None);
            && Quiet(with) && with == w.(slots := with.slots, usedSlots := with.usedSlots)
            && (forall s :: s in with.usedSlots ==> s < k + 1) && with.slots.Keys <= with.usedSlots
  {
  }

  lemma SettledNext(w: World, with: World, cfg: Config, key: Key, n: nat, k: nat)
    requires ClaimedUpTo(w, cfg, key, n, k) && k < n <= cfg.limit(key) && key != "" && cfg.duration(key) > 0
    requires Quiet(with) && with == w.(slots := with.slots, usedSlots := with.usedSlots)
    requires (forall s :: s in with.usedSlots ==> s < k + 1) && with.slots.Keys <= with.usedSlots
    ensures ClaimedUpTo(Settled(with, k, k, 0, Bumped(w.jobs[k], 0)), cfg, key, n, k + 1)
  {
    hide Active;
    ActiveCount(w.jobs[k := Bumped(w.jobs[k], 0)], cfg, key, n, k + 1);
  }

  lemma ClaimsNext(w: World, cfg: Config, key: Key, n: nat, k: nat) returns (v: World)
    requires Reachable(w) && ClaimedUpTo(w, cfg, key, n, k) && k < n <= cfg.limit(key) && key != "" && cfg.duration(key) > 0
    ensures Reachable(v) && ClaimedUpTo(v, cfg, key, n, k + 1)
  {
    WithSlotKeeps(w, cfg, key, n, k);
    SettledNext(w, WithSlot(w, key, 0, k, None), cfg, key, n, k);
    hide AfterClaim, Reachable, Settled;
    var slot := k;
    if exists s | s in w.slots :: HasSlot(w, key, s) {
      slot :| slot in w.slots && HasSlot(w, key, slot);
    }
    LimitedClaim(w, k, k, 0, k, slot);
    ReachableClaim(w, k, k, 0, k, slot);
    v := AfterClaim(w, k, k, 0, k, slot);
  }

  lemma {:induction false} AllClaimed(cfg: Config, key: Key, n: nat, k: nat) returns (w: World)
    requires (forall x :: cfg.duration(x) > 0) && key != "" && k <= n <= cfg.limit(key)
    ensures Reachable(w) && ClaimedUpTo(w, cfg, key, n, k)
    decreases k
  {
    hide Reachable, ClaimedUpTo;
    if k == 0 {
      w := AllEnqueued(cfg, key, n);
    } else {
      w := AllClaimed(cfg, key, n, k - 1);
      w := ClaimsNext(w, cfg, key, n, k - 1);
    }
  }

  /** A key's limit is not only kept: some run has as many of its jobs executing as it allows. */
  lemma LimitReached(cfg: Config, key: Key) returns (w: World)
    requires (forall k :: cfg.duration(k) > 0) && key != ""
    ensures Reachable(w) && w.cfg == cfg && (key in w.lastClaim ==> w.lastClaim[key] <= 0)
    ensures |Active(w.jobs, key, 0, cfg.duration(key))| == cfg.limit(key)
  {
    w := AllClaimed(cfg, key, cfg.limit(key), cfg.limit(key));
    ActiveCount(w.jobs, cfg, key, cfg.limit(key), cfg.limit(key));
    hide Reachable, Active;
  }
}
