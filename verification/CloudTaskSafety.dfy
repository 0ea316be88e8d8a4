/** What follows for every interleaving of pushes, crashes and cleanup. */
module CloudTaskSafety {
  import opened CloudTask
  import opened CloudTaskInvariant

  /**
   The concurrency limit. At any time t from the latest committed claim's clock reading
   on, the committed executing rows of a key locked within its window number at most its
   limit, whatever order the claims' clock readings came in.
   */
  lemma LimitHolds(w: World, key: Key, t: int)
    requires Reachable(w) && key != ""
    requires key in w.lastClaim ==> w.lastClaim[key] <= t
    ensures |Active(w.jobs, key, t, w.cfg.duration(key))| <= w.cfg.limit(key)
  {
    ReachableGood(w);
    var active := Active(w.jobs, key, t, w.cfg.duration(key));
    if key in w.lastClaim {
      assert KeyOk(w, key);
      SubsetSize(active, Active(w.jobs, key, w.lastClaim[key], w.cfg.duration(key)));
    } else {
      forall j | j in w.jobs
        ensures j !in active
      {
        assert JobOk(w, j);
      }
      assert active == {};
    }
  }

  /** The lock row may come and go, but never do two claims hold one key at once. */
  lemma SlotExclusive(w: World, p: PushId, q: PushId)
    requires Reachable(w) && p in w.pushes && q in w.pushes
    requires w.pushes[p].phase.Holding? || w.pushes[p].phase.Counted?
    requires w.pushes[q].phase.Holding? || w.pushes[q].phase.Counted?
    requires w.pushes[p].phase.row.key == w.pushes[q].phase.row.key
    ensures p == q
  {
    ReachableGood(w);
    SlotHeldOnce(w, p, q);
  }

  /**
   Attempts stay within budget, and a pending job has one left exactly when its MaxAttempts
   is positive: a claim is exhausted only if the job was never to run at all.
   */
  lemma AttemptsBounded(w: World, j: JobId)
    requires Reachable(w) && j in w.jobs
    ensures 0 <= w.jobs[j].attempts <= Allowed(w.jobs[j].maxAttempts)
    ensures w.jobs[j].state == Pending ==> (w.jobs[j].attempts < w.jobs[j].maxAttempts <==> w.jobs[j].maxAttempts >= 1)
  {
    ReachableGood(w);
    assert JobOk(w, j);
  }

  /** Dispatch is called at most MaxAttempts times for a job, however often it is delivered. */
  lemma DispatchesBounded(w: World, j: JobId)
    requires Reachable(w) && j in w.dispatches
    ensures j in w.budget && w.dispatches[j] <= Allowed(w.budget[j])
  {
    ReachableGood(w);
    assert JobOk(w, j);
  }

  /** A job has at most one owner, and while its row exists the row is what that owner claimed. */
  lemma OneOwner(w: World, p: PushId, q: PushId)
    requires Reachable(w) && p in w.pushes && q in w.pushes
    requires Owner(w.pushes[p].phase) && Owner(w.pushes[q].phase) && w.pushes[p].job == w.pushes[q].job
    ensures p == q
    ensures w.pushes[p].job in w.jobs ==> w.jobs[w.pushes[p].job] == w.pushes[p].phase.row
  {
    ReachableGood(w);
    assert OwnerPairOk(w, p, q) && PushOk(w, p);
  }

  /**
   A push is acknowledged (200, so Cloud Tasks drops the task) only when its job is gone,
   no longer pending, or was never to run.
   */
  lemma AckMeansNotPending(w: World, e: Event, p: PushId)
    requires Reachable(w) && At(w, p) != Answered(200) && At(Next(w, e), p) == Answered(200)
    ensures var v := Next(w, e);
            var j := v.pushes[p].job;
            j in v.jobs ==> v.jobs[j].state != Pending || v.jobs[j].maxAttempts < 0
  {
    hide Next, Inv;
    ReachableGood(w);
    AnsweringStep(w, e, p);
    AckedStep(w, e, p);
  }

  /** Only two steps acknowledge a push: looking at its row, and recording what came of its dispatch. */
  lemma AnsweringStep(w: World, e: Event, p: PushId)
    requires At(w, p) != Answered(200) && At(Next(w, e), p) == Answered(200)
    ensures p in w.pushes && (e == LockRow(p) || (e.Record? && e.push == p))
  {
    hide LockRowStep, RecordStep, ArriveStep;
    if TableEvent(e) {
      TableStep(w, e);
    } else if e.LockRow? || e.Record? || e.Arrive? {
      OneStep(w, e);
      AnswersOwn(w, e, e.push, p);
    } else {
      ClaimStep(w, e, p);
    }
    hide Next;
  }

  lemma AnswersOwn(w: World, e: Event, q: PushId, p: PushId)
    requires At(w, p) != Answered(200)
    ensures e.Arrive? ==> At(ArriveStep(w, q, e.job, e.now), p) != Answered(200)
    ensures At(LockRowStep(w, q), p) == Answered(200) ==> p == q && p in w.pushes
    ensures e.Record? && At(RecordStep(w, q, e.stored), p) == Answered(200) ==> p == q && p in w.pushes
  {
  }

  lemma OneStep(w: World, e: Event)
    ensures e.LockRow? ==> Next(w, e) == LockRowStep(w, e.push)
    ensures e.Record? ==> Next(w, e) == RecordStep(w, e.push, e.stored)
    ensures e.Arrive? ==> Next(w, e) == ArriveStep(w, e.push, e.job, e.now)
  {
    hide LockRowStep, RecordStep, ArriveStep, MarkStep, EnsureSlotStep, LockSlotStep, CountStep, CommitClaimStep;
  }

  /** Steps on the tables alone. */
  predicate TableEvent(e: Event) {
    || e.Enqueue? || e.Withdraw? || e.PickStaleJob? || e.DeleteStaleJob? || e.FindIdleSlot? || e.DeleteIdleSlot?
  }

  lemma TableStep(w: World, e: Event)
    requires TableEvent(e)
    ensures Next(w, e).pushes == w.pushes
  {
    hide ArriveStep, LockRowStep, MarkStep, CommitUnlimitedStep, EnsureSlotStep, LockSlotStep, CountStep, CommitClaimStep;
    hide DispatchStep, RecordStep, StatementErrorStep, CrashStep;
  }

  /** The steps of a claim after its row is locked, and the dispatch, acknowledge nothing. */
  lemma ClaimStep(w: World, e: Event, p: PushId)
    requires !TableEvent(e) && !e.Arrive? && !e.LockRow? && !e.Record?
    ensures At(Next(w, e), p) == Answered(200) ==> At(w, p) == Answered(200)
  {
    if e.Mark? || e.EnsureSlot? || e.LockSlot? || e.Count? {
      OpenStep(w, e, p);
    } else if e.CommitUnlimited? || e.CommitClaim? {
      CommitStep(w, e, p);
    } else {
      hide MarkStep, EnsureSlotStep, LockSlotStep, CountStep, CommitUnlimitedStep, CommitClaimStep;
    }
  }

  lemma OpenStep(w: World, e: Event, p: PushId)
    requires e.Mark? || e.EnsureSlot? || e.LockSlot? || e.Count?
    ensures At(Next(w, e), p) == Answered(200) ==> At(w, p) == Answered(200)
  {
    hide CommitUnlimitedStep, CommitClaimStep, DispatchStep, StatementErrorStep, CrashStep, LockRowStep, RecordStep;
  }

  lemma CommitStep(w: World, e: Event, p: PushId)
    requires e.CommitUnlimited? || e.CommitClaim?
    ensures At(Next(w, e), p) == Answered(200) ==> At(w, p) == Answered(200)
  {
    hide MarkStep, EnsureSlotStep, LockSlotStep, CountStep, DispatchStep, StatementErrorStep, CrashStep, LockRowStep, RecordStep;
    hide EndTx;
    if InTx(At(w, e.push)) {
      var q := e.push;
      EndTxPushes(Move(w, q, Owned(At(w, q).row)), q);
      EndTxPushes(Move(w, q, Answered(429)), q);
    }
  }

  lemma EndTxPushes(w: World, p: PushId)
    ensures EndTx(w, p, true).pushes == w.pushes
  {
  }

  /** Looking at a row waits, takes it, or answers; only the last acknowledges. */
  lemma LookWaits(w: World, p: PushId)
    requires !At(w, p).Arrived? || w.pushes[p].job in w.jobLocks
    ensures LockRowStep(w, p) == w
  {
  }

  lemma LookLocks(w: World, p: PushId)
    requires At(w, p).Arrived? && w.pushes[p].job !in w.jobLocks && Eligible(w, w.pushes[p].job)
    ensures At(LockRowStep(w, p), p).Locked?
  {
  }

  lemma LookAnswers(w: World, p: PushId)
    requires At(w, p).Arrived? && w.pushes[p].job !in w.jobLocks && !Eligible(w, w.pushes[p].job)
    ensures LockRowStep(w, p) == Move(w, p, Answered(200))
  {
    hide Move;
  }

  lemma RecordAcked(w: World, p: PushId, stored: bool)
    requires p in w.pushes && At(w, p) != Answered(200) && At(RecordStep(w, p, stored), p) == Answered(200)
    ensures var v, j := RecordStep(w, p, stored), w.pushes[p].job;
            && p in v.pushes && v.pushes[p].job == j && At(w, p).Returned?
            && (j in v.jobs ==> v.jobs[j].state == Finished || v.jobs[j].state == Failed || (j in w.jobs && v.jobs[j] == w.jobs[j]))
  {
  }

  lemma AckedStep(w: World, e: Event, p: PushId)
    requires Inv(w) && p in w.pushes && (e == LockRow(p) || (e.Record? && e.push == p))
    requires At(w, p) != Answered(200) && At(Next(w, e), p) == Answered(200)
    ensures var v := Next(w, e);
            var j := w.pushes[p].job;
            p in v.pushes && v.pushes[p].job == j && (j in v.jobs ==> v.jobs[j].state != Pending || v.jobs[j].maxAttempts < 0)
  {
    hide LockRowStep, RecordStep, CountsOk, SlotsOk;
    OneStep(w, e);
    var j := w.pushes[p].job;
    assert PushOk(w, p);
    if j in w.usedJobs { assert JobOk(w, j); }
    if e.LockRow? {
      if !At(w, p).Arrived? || j in w.jobLocks {
        LookWaits(w, p);
      } else if Eligible(w, j) {
        LookLocks(w, p);
      } else {
        LookAnswers(w, p);
      }
    } else {
      RecordAcked(w, p, e.stored);
    }
    hide Next;
  }

  /** A deferred claim changes nothing but the row's last lock time. */
  lemma DeferralRestores(w: World, p: PushId)
    requires Reachable(w) && At(w, p).Counted? && At(w, p).over
    ensures var v := CommitClaimStep(w, p);
            var j := w.pushes[p].job;
            && At(v, p) == Answered(429)
            && j in w.jobs && v.jobs == w.jobs[j := w.jobs[j].(lockedAt := w.pushes[p].now)]
            && v.dispatches == w.dispatches && v.lastClaim == w.lastClaim
  {
    ReachableGood(w);
    assert PushOk(w, p);
  }

  // ----- With a negative MaxAttempts -----

  /**
   A job enqueued with a negative MaxAttempts is never claimed or dispatched: for as long
   as its row exists it is pending, in this world and in every later one.
   */
  lemma NegativeStaysPending(w: World, j: JobId, maxAttempts: int, key: Key, es: seq<Event>)
    requires Reachable(w) && j !in w.usedJobs && maxAttempts < 0
    ensures var v := Run(Next(w, Enqueue(j, maxAttempts, key)), es);
            && j in v.dispatches && v.dispatches[j] == 0
            && (j in v.jobs ==> v.jobs[j].state == Pending && v.jobs[j].attempts == 0)
            && forall p :: p in v.pushes && v.pushes[p].job == j ==> !InTx(v.pushes[p].phase) && !Owner(v.pushes[p].phase)
  {
    hide Next, Inv;
    ReachableGood(w);
    var enqueued := Next(w, Enqueue(j, maxAttempts, key));
    StepKeeps(w, Enqueue(j, maxAttempts, key));
    EnqueuedBudget(w, j, maxAttempts, key);
    RunKeeps(enqueued, es);
    BudgetStays(enqueued, es, j);
    NegativeIdle(Run(enqueued, es), j);
    hide Run;
  }

  lemma EnqueuedBudget(w: World, j: JobId, maxAttempts: int, key: Key)
    requires j !in w.usedJobs && maxAttempts < 0
    ensures var v := Next(w, Enqueue(j, maxAttempts, key)); j in v.usedJobs && j in v.budget && v.budget[j] == maxAttempts
  {
    assert Next(w, Enqueue(j, maxAttempts, key)) == EnqueueStep(w, j, maxAttempts, key);
  }

  lemma {:induction false} BudgetStays(w: World, es: seq<Event>, j: JobId)
    requires j in w.usedJobs && j in w.budget
    ensures var v := Run(w, es); j in v.usedJobs && j in v.budget && v.budget[j] == w.budget[j]
    decreases |es|
  {
    if es != [] {
      BudgetStep(w, es[0], j);
      hide Next;
      BudgetStays(Next(w, es[0]), es[1..], j);
    }
  }

  lemma BudgetStep(w: World, e: Event, j: JobId)
    requires j in w.usedJobs && j in w.budget
    ensures var v := Next(w, e); j in v.usedJobs && j in v.budget && v.budget[j] == w.budget[j]
  {
    if !TableEvent(e) {
      PushFrame(w, e, e.push);
      hide Next;
    } else {
      hide ArriveStep, LockRowStep, MarkStep, CommitUnlimitedStep, EnsureSlotStep, LockSlotStep, CountStep, CommitClaimStep;
      hide DispatchStep, RecordStep, StatementErrorStep, CrashStep;
    }
  }

  /** A step of push q enqueues nothing and leaves every other push where it is. */
  ghost predicate Frame(w: World, v: World, q: PushId) {
    && v.usedJobs == w.usedJobs && v.budget == w.budget
    && forall p :: p in w.pushes && p != q ==> p in v.pushes && v.pushes[p] == w.pushes[p]
  }

  lemma PushFrame(w: World, e: Event, q: PushId)
    requires !TableEvent(e) && e.push == q
    ensures Frame(w, Next(w, e), q)
  {
    hide Frame;
    match e
    case Arrive(_, j, now) => ArriveFrame(w, q, j, now);
    case LockRow(_) => LockRowFrame(w, q);
    case Mark(_) => MarkFrame(w, q);
    case CommitUnlimited(_) => CommitUnlimitedFrame(w, q);
    case EnsureSlot(_, s) => EnsureSlotFrame(w, q, s);
    case LockSlot(_, s) => LockSlotFrame(w, q, s);
    case Count(_) => CountFrame(w, q);
    case CommitClaim(_) => CommitClaimFrame(w, q);
    case Dispatch(_, ok) => DispatchFrame(w, q, ok);
    case Record(_, stored) => RecordFrame(w, q, stored);
    case StatementError(_) => EndedFrame(w, q);
    case Crash(_) => EndedFrame(w, q);
  }

  lemma MoveFrame(w: World, q: PushId, phase: Phase)
    requires q in w.pushes
    ensures Frame(w, Move(w, q, phase), q)
  {
  }

  lemma EndTxFrame(w: World, q: PushId, keepSlot: bool)
    ensures var v := EndTx(w, q, keepSlot); v.usedJobs == w.usedJobs && v.budget == w.budget && v.pushes == w.pushes
  {
  }

  lemma ArriveFrame(w: World, q: PushId, j: JobId, now: int)
    ensures Frame(w, ArriveStep(w, q, j, now), q)
  {
  }

  lemma LockRowFrame(w: World, q: PushId)
    ensures Frame(w, LockRowStep(w, q), q)
  {
    if At(w, q).Arrived? {
      MoveFrame(w, q, Answered(200));
      if w.pushes[q].job in w.jobs {
        MoveFrame(w, q, Locked(w.jobs[w.pushes[q].job]));
      }
    }
    hide Move;
  }

  lemma MarkFrame(w: World, q: PushId)
    ensures Frame(w, MarkStep(w, q), q)
  {
  }

  lemma CommitUnlimitedFrame(w: World, q: PushId)
    ensures Frame(w, CommitUnlimitedStep(w, q), q)
  {
  }

  lemma EnsureSlotFrame(w: World, q: PushId, s: SlotId)
    ensures Frame(w, EnsureSlotStep(w, q, s), q)
  {
    if At(w, q).Marked? {
      MoveFrame(w, q, Ensured(At(w, q).row));
    }
    hide Move;
  }

  lemma LockSlotFrame(w: World, q: PushId, s: SlotId)
    ensures Frame(w, LockSlotStep(w, q, s), q)
  {
  }

  lemma CountFrame(w: World, q: PushId)
    ensures Frame(w, CountStep(w, q), q)
  {
  }

  lemma CommitClaimFrame(w: World, q: PushId)
    ensures Frame(w, CommitClaimStep(w, q), q)
  {
    if At(w, q).Counted? {
      var row := At(w, q).row;
      MoveFrame(w, q, Answered(429));
      MoveFrame(w, q, Owned(row));
      EndTxFrame(Move(w, q, Answered(429)), q, true);
      EndTxFrame(Move(w, q, Owned(row)), q, true);
    }
    hide Move, EndTx;
  }

  lemma DispatchFrame(w: World, q: PushId, ok: bool)
    ensures Frame(w, DispatchStep(w, q, ok), q)
  {
  }

  lemma RecordFrame(w: World, q: PushId, stored: bool)
    ensures Frame(w, RecordStep(w, q, stored), q)
  {
  }

  lemma EndedFrame(w: World, q: PushId)
    ensures Frame(w, StatementErrorStep(w, q), q) && Frame(w, CrashStep(w, q), q)
  {
    if q in w.pushes {
      MoveFrame(w, q, Answered(500));
      MoveFrame(w, q, Crashed);
      EndTxFrame(Move(w, q, Answered(500)), q, false);
      EndTxFrame(Move(w, q, Crashed), q, false);
    }
    hide Move, EndTx;
  }

  lemma NegativeIdle(w: World, j: JobId)
    requires Inv(w) && j in w.usedJobs && j in w.budget && w.budget[j] < 0
    ensures j in w.dispatches && w.dispatches[j] == 0
    ensures j in w.jobs ==> w.jobs[j].state == Pending && w.jobs[j].attempts == 0
    ensures !Eligible(w, j) && j !in w.jobLocks
    ensures forall p :: p in w.pushes && w.pushes[p].job == j ==> !InTx(w.pushes[p].phase) && !Owner(w.pushes[p].phase)
  {
    assert j in w.jobLocks ==> JobLockOk(w, j);
    assert JobOk(w, j);
    forall p | p in w.pushes && w.pushes[p].job == j
      ensures !InTx(w.pushes[p].phase) && !Owner(w.pushes[p].phase)
    {
      assert PushOk(w, p);
    }
  }

  /** Each of its pushes looks at the row once and is acknowledged, unless a statement fails or the process crashes first. */
  lemma NegativeAcknowledged(w: World, e: Event, p: PushId)
    requires Reachable(w) && At(w, p).Arrived? && w.pushes[p].job in w.budget && w.budget[w.pushes[p].job] < 0
    ensures At(Next(w, LockRow(p)), p) == Answered(200)
    ensures e != StatementError(p) && e != Crash(p) ==> At(Next(w, e), p) == (if e == LockRow(p) then Answered(200) else Arrived)
  {
    ReachableGood(w);
    assert DomainsOk(w);
    NegativeIdle(w, w.pushes[p].job);
    hide Inv;
    LookAnswers(w, p);
    assert Next(w, LockRow(p)) == LockRowStep(w, p);
    if e != StatementError(p) && e != Crash(p) && e != LockRow(p) {
      ArrivedStays(w, e, p);
    }
    hide Next;
  }

  lemma ArrivedStays(w: World, e: Event, p: PushId)
    requires At(w, p).Arrived? && e != StatementError(p) && e != Crash(p) && e != LockRow(p)
    ensures At(Next(w, e), p) == Arrived
  {
    if TableEvent(e) {
      TableStep(w, e);
      hide Next;
    } else if e.push != p {
      PushFrame(w, e, e.push);
      hide Next;
    } else {
      hide LockRowStep, StatementErrorStep, CrashStep;
    }
  }
}
