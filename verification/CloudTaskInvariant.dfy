/**
 The invariant of the claim protocol, and that every step keeps it.

 A transaction that has locked a job row holds a snapshot of the row as it is stored, and
 no one else does; a claim that has committed is the stored row, with an attempt to spend.
 Every key has at most one slot row, committed or not, and whoever has finished counting
 under it still holds it, so the count it made cannot have grown since.
 */
module CloudTaskInvariant {
  import opened Results
  import opened CloudTask

  // ----- Invariants -----

  /** What a push may rely on in its current phase. */
  ghost predicate PushOk(w: World, p: PushId)
    requires p in w.pushes
  {
    var push := w.pushes[p];
    var phase := push.phase;
    // a claim transaction holds its job row, which is still the pending row it started from
    && (InTx(phase) ==>
          && push.job in w.jobLocks && w.jobLocks[push.job] == p
          && push.job in w.jobs && w.jobs[push.job].state == Pending
          && var stored := w.jobs[push.job];
             && stored.attempts < stored.maxAttempts
             && phase.row == (if phase.Locked? then stored
                           else stored.(attempts := stored.attempts + 1, state := Executing, lockedAt := push.now)))
    // a committed claim is still the stored row, unless the row was withdrawn
    && (Owner(phase) ==>
          && push.job in w.usedJobs && push.job in w.budget
          && 1 <= phase.row.attempts <= phase.row.maxAttempts == w.budget[push.job]
          && (push.job in w.jobs ==> w.jobs[push.job] == phase.row && phase.row.state == Executing))
    // a claim that has not dispatched yet has an attempt to spend
    && (phase.Owned? ==> push.job in w.dispatches && w.dispatches[push.job] < phase.row.attempts)
    && (phase.Ensured? || phase.Holding? || phase.Counted? ==> phase.row.key != "")
    && (phase.Holding? || phase.Counted? ==> phase.slot in w.slotLocks && w.slotLocks[phase.slot] == p)
  }

  ghost predicate JobOk(w: World, j: JobId)
    requires j in w.usedJobs
  {
    && j in w.dispatches && j in w.budget
    && w.dispatches[j] <= Allowed(w.budget[j])
    && (j in w.jobs ==>
          var job := w.jobs[j];
          && 0 <= w.dispatches[j] <= job.attempts <= Allowed(job.maxAttempts) && job.maxAttempts == w.budget[j]
          && (job.state == Pending ==> job.attempts < job.maxAttempts || job.maxAttempts < 0)
          && (job.maxAttempts < 0 ==> job.state == Pending)
          && job.limit == w.cfg.limit(job.key) && job.duration == w.cfg.duration(job.key)
          && (j in w.staleJobs ==> job.state == Finished || job.state == Failed)
          && (job.state == Executing && job.key != "" ==> job.key in w.lastClaim))
  }

  ghost predicate JobLockOk(w: World, j: JobId)
    requires j in w.jobLocks
  {
    var p := w.jobLocks[j];
    p in w.pushes && InTx(w.pushes[p].phase) && w.pushes[p].job == j
  }

  ghost predicate SlotOk(w: World, s: SlotId)
    requires s in w.slots
  {
    && s in w.usedSlots
    && (w.slots[s].inserter.Some? ==> s in w.slotLocks && w.slotLocks[s] == w.slots[s].inserter.value)
  }

  ghost predicate SlotLockOk(w: World, s: SlotId)
    requires s in w.slotLocks
  {
    var p := w.slotLocks[s];
    && s in w.slots && p in w.pushes
    && var phase := w.pushes[p].phase;
       && (phase.Ensured? || phase.Holding? || phase.Counted?)
       && phase.row.key == w.slots[s].key
  }

  /** The unique index on the slot table, over committed and uncommitted rows alike. */
  ghost predicate KeyPairOk(w: World, s: SlotId, t: SlotId) {
    s in w.slots && t in w.slots && w.slots[s].key == w.slots[t].key ==> s == t
  }

  /** No two pushes own one job. */
  ghost predicate OwnerPairOk(w: World, p: PushId, q: PushId) {
    p in w.pushes && q in w.pushes && Owner(w.pushes[p].phase) && Owner(w.pushes[q].phase) && w.pushes[p].job == w.pushes[q].job
    ==> p == q
  }

  /** A finished count leaves room for its own row, for as long as the slot is held. */
  ghost predicate CountOk(w: World, p: PushId)
    requires p in w.pushes
  {
    var push := w.pushes[p];
    push.phase.Counted? && !push.phase.over ==>
      var key := push.phase.row.key;
      |Active(w.jobs, key, push.now, w.cfg.duration(key))| + 1 <= w.cfg.limit(key)
  }

  ghost predicate KeyOk(w: World, key: Key)
    requires key in w.lastClaim
  {
    key != "" && |Active(w.jobs, key, w.lastClaim[key], w.cfg.duration(key))| <= w.cfg.limit(key)
  }

  ghost predicate DomainsOk(w: World) {
    && (forall k :: w.cfg.duration(k) > 0)
    && w.jobs.Keys <= w.usedJobs && w.staleJobs <= w.usedJobs
    && w.dispatches.Keys == w.usedJobs && w.budget.Keys == w.usedJobs
  }

  ghost predicate PushesOk(w: World) {
    && (forall p {:trigger PushOk(w, p)} :: p in w.pushes ==> PushOk(w, p))
    && (forall p, q {:trigger OwnerPairOk(w, p, q)} :: OwnerPairOk(w, p, q))
  }

  ghost predicate JobsOk(w: World) {
    && DomainsOk(w)
    && (forall j {:trigger JobOk(w, j)} :: j in w.usedJobs ==> JobOk(w, j))
    && (forall j {:trigger JobLockOk(w, j)} :: j in w.jobLocks ==> JobLockOk(w, j))
  }

  ghost predicate SlotsOk(w: World) {
    && (forall s {:trigger SlotOk(w, s)} :: s in w.slots ==> SlotOk(w, s))
    && (forall s {:trigger SlotLockOk(w, s)} :: s in w.slotLocks ==> SlotLockOk(w, s))
    && (forall s, t {:trigger KeyPairOk(w, s, t)} :: KeyPairOk(w, s, t))
  }

  ghost predicate CountsOk(w: World) {
    && (forall p {:trigger CountOk(w, p)} :: p in w.pushes ==> CountOk(w, p))
    && (forall key {:trigger KeyOk(w, key)} :: key in w.lastClaim ==> KeyOk(w, key))
  }

  ghost predicate Inv(w: World) {
    PushesOk(w) && JobsOk(w) && SlotsOk(w) && CountsOk(w)
  }

  // ----- Every step keeps the invariant -----

  lemma SubsetSize<T>(a: set<T>, b: set<T>)
    requires a <= b
    ensures |a| <= |b|
  {
    assert b == a + (b - a);
  }

  /** Steps that add no executing row keep every count. */
  lemma CountsShrink(w: World, v: World)
    requires CountsOk(w)
    requires v.cfg == w.cfg && v.lastClaim == w.lastClaim
    requires forall j :: j in v.jobs && v.jobs[j].state == Executing ==> j in w.jobs && w.jobs[j] == v.jobs[j]
    requires forall p :: p in v.pushes && v.pushes[p].phase.Counted? ==> p in w.pushes && w.pushes[p] == v.pushes[p]
    ensures CountsOk(v)
  {
    forall p | p in v.pushes
      ensures CountOk(v, p)
    {
      if v.pushes[p].phase.Counted? && !v.pushes[p].phase.over {
        var key, now := v.pushes[p].phase.row.key, v.pushes[p].now;
        assert CountOk(w, p);
        SubsetSize(Active(v.jobs, key, now, v.cfg.duration(key)), Active(w.jobs, key, now, v.cfg.duration(key)));
      }
    }
    forall key | key in v.lastClaim
      ensures KeyOk(v, key)
    {
      assert KeyOk(w, key);
      SubsetSize(Active(v.jobs, key, v.lastClaim[key], v.cfg.duration(key)), Active(w.jobs, key, v.lastClaim[key], v.cfg.duration(key)));
    }
  }

  /** Steps that leave the slot table alone and move no push out of, or to another key within, its slot phases. */
  lemma SlotsKeep(w: World, v: World)
    requires SlotsOk(w)
    requires v.slots == w.slots && v.slotLocks == w.slotLocks && v.usedSlots == w.usedSlots
    requires forall p :: p in w.pushes && (w.pushes[p].phase.Ensured? || w.pushes[p].phase.Holding? || w.pushes[p].phase.Counted?) ==>
      && p in v.pushes
      && (v.pushes[p].phase.Ensured? || v.pushes[p].phase.Holding? || v.pushes[p].phase.Counted?)
      && v.pushes[p].phase.row.key == w.pushes[p].phase.row.key
    ensures SlotsOk(v)
  {
    forall x | x in v.slots ensures SlotOk(v, x) { assert SlotOk(w, x); }
    forall x | x in v.slotLocks ensures SlotLockOk(v, x) { assert SlotLockOk(w, x); }
    forall x, y ensures KeyPairOk(v, x, y) { assert KeyPairOk(w, x, y); }
  }

  /** Steps that leave the job table and its locks alone and keep every transaction open on its row. */
  lemma JobsKeep(w: World, v: World)
    requires JobsOk(w)
    requires v.cfg == w.cfg && v.jobs == w.jobs && v.jobLocks == w.jobLocks && v.usedJobs == w.usedJobs
    requires v.staleJobs == w.staleJobs && v.dispatches == w.dispatches && v.budget == w.budget && v.lastClaim == w.lastClaim
    requires forall p :: p in w.pushes && InTx(w.pushes[p].phase) ==>
      p in v.pushes && InTx(v.pushes[p].phase) && v.pushes[p].job == w.pushes[p].job
    ensures JobsOk(v)
  {
    forall i | i in v.usedJobs ensures JobOk(v, i) { assert JobOk(w, i); }
    forall i | i in v.jobLocks ensures JobLockOk(v, i) { assert JobLockOk(w, i); }
  }

  /** Steps on the job table alone, none of them on a row some transaction or owner works on. */
  lemma PushesKeep(w: World, v: World)
    requires PushesOk(w)
    requires v.pushes == w.pushes && v.jobLocks == w.jobLocks && v.slotLocks == w.slotLocks
    requires w.usedJobs <= v.usedJobs && v.jobs.Keys <= w.jobs.Keys + (v.usedJobs - w.usedJobs)
    requires forall j :: j in w.usedJobs && j in w.budget ==> j in v.budget && v.budget[j] == w.budget[j]
    requires forall j :: j in w.usedJobs && j in w.dispatches ==> j in v.dispatches && v.dispatches[j] == w.dispatches[j]
    requires w.dispatches.Keys <= w.usedJobs
    requires forall j :: j in w.jobs && j in v.jobs ==> v.jobs[j] == w.jobs[j]
    requires forall j :: j in w.jobLocks && j in w.jobs ==> j in v.jobs
    ensures PushesOk(v)
  {
    forall q | q in v.pushes ensures PushOk(v, q) { assert PushOk(w, q); }
    forall q, r ensures OwnerPairOk(v, q, r) { assert OwnerPairOk(w, q, r); }
  }

  lemma EnqueueKeeps(w: World, j: JobId, m: int, k: Key)
    requires Inv(w)
    ensures Inv(EnqueueStep(w, j, m, k))
  {
    EnqueueJobs(w, j, m, k);
    if j !in w.usedJobs {
      var v := EnqueueStep(w, j, m, k);
      assert w.dispatches.Keys == w.usedJobs && w.jobs.Keys <= w.usedJobs;
      hide PushesOk, JobsOk, SlotsOk, CountsOk;
      assert CountsOk(v) by { CountsShrink(w, v); }
      assert SlotsOk(v) by { SlotsKeep(w, v); }
      PushesKeep(w, v);
    }
  }

  lemma EnqueueJobs(w: World, j: JobId, m: int, k: Key)
    requires JobsOk(w)
    ensures JobsOk(EnqueueStep(w, j, m, k))
  {
    var v := EnqueueStep(w, j, m, k);
    forall i | i in v.usedJobs ensures JobOk(v, i) { if i in w.usedJobs { assert JobOk(w, i); } }
    forall i | i in v.jobLocks ensures JobLockOk(v, i) { assert JobLockOk(w, i); }
  }

  /** Rows disappear only while no transaction holds them. */
  lemma DeleteJobKeeps(w: World, j: JobId, v: World)
    requires Inv(w) && j !in w.jobLocks
    requires v == w.(jobs := w.jobs - {j}, staleJobs := v.staleJobs) && v.staleJobs <= w.staleJobs
    ensures Inv(v)
  {
    CountsShrink(w, v);
    SlotsKeep(w, v);
    PushesKeep(w, v);
    hide CountsOk, SlotsOk, PushesOk;
    forall i | i in v.usedJobs ensures JobOk(v, i) { assert JobOk(w, i); }
    forall i | i in v.jobLocks ensures JobLockOk(v, i) { assert JobLockOk(w, i); }
  }

  lemma PickStaleJobKeeps(w: World, j: JobId)
    requires Inv(w)
    ensures Inv(PickStaleJobStep(w, j))
  {
    var v := PickStaleJobStep(w, j);
    PickStaleJobJobs(w, j);
    if v != w {
      assert w.dispatches.Keys == w.usedJobs;
      hide PushesOk, JobsOk, SlotsOk, CountsOk;
      assert CountsOk(v) by { CountsShrink(w, v); }
      assert SlotsOk(v) by { SlotsKeep(w, v); }
      PushesKeep(w, v);
    }
  }

  lemma PickStaleJobJobs(w: World, j: JobId)
    requires JobsOk(w)
    ensures JobsOk(PickStaleJobStep(w, j))
  {
    var v := PickStaleJobStep(w, j);
    forall i | i in v.usedJobs ensures JobOk(v, i) { assert JobOk(w, i); }
    forall i | i in v.jobLocks ensures JobLockOk(v, i) { assert JobLockOk(w, i); }
  }

  lemma ArriveKeeps(w: World, p: PushId, j: JobId, now: int)
    requires Inv(w)
    ensures Inv(ArriveStep(w, p, j, now))
  {
    ArrivePushes(w, p, j, now);
    if p !in w.pushes {
      var v := ArriveStep(w, p, j, now);
      hide PushesOk, JobsOk, SlotsOk, CountsOk;
      assert CountsOk(v) by { CountsShrink(w, v); }
      assert SlotsOk(v) by { SlotsKeep(w, v); }
      JobsKeep(w, v);
    }
  }

  lemma ArrivePushes(w: World, p: PushId, j: JobId, now: int)
    requires PushesOk(w)
    ensures PushesOk(ArriveStep(w, p, j, now))
  {
    var v := ArriveStep(w, p, j, now);
    forall q | q in v.pushes ensures PushOk(v, q) { if q in w.pushes { assert PushOk(w, q); } }
    forall q, r ensures OwnerPairOk(v, q, r) { assert OwnerPairOk(w, q, r); }
  }

  /** A push that holds nothing gives its answer. */
  lemma AnswerKeeps(w: World, p: PushId, phase: Phase)
    requires Inv(w) && p in w.pushes && w.pushes[p].phase.Arrived? && (phase.Answered? || phase.Crashed?)
    ensures Inv(Move(w, p, phase))
  {
    var v := Move(w, p, phase);
    assert CountsOk(v) by { CountsShrink(w, v); }
    assert SlotsOk(v) by { SlotsKeep(w, v); }
    assert JobsOk(v) by { JobsKeep(w, v); }
    hide CountsOk, SlotsOk, JobsOk;
    forall q | q in v.pushes ensures PushOk(v, q) { assert PushOk(w, q); }
    forall q, r ensures OwnerPairOk(v, q, r) { assert OwnerPairOk(w, q, r); }
  }

  lemma LockRowKeeps(w: World, p: PushId)
    requires Inv(w)
    ensures Inv(LockRowStep(w, p))
  {
    if At(w, p).Arrived? {
      var j := w.pushes[p].job;
      if j !in w.jobLocks && j in w.jobs && w.jobs[j].state == Pending && w.jobs[j].attempts < w.jobs[j].maxAttempts {
        LockedKeeps(w, p, j);
      } else {
        AnswerKeeps(w, p, Answered(200));
      }
    }
  }

  lemma LockedKeeps(w: World, p: PushId, j: JobId)
    requires Inv(w) && p in w.pushes && w.pushes[p].phase.Arrived? && w.pushes[p].job == j
    requires j !in w.jobLocks && j in w.jobs && w.jobs[j].state == Pending && w.jobs[j].attempts < w.jobs[j].maxAttempts
    ensures Inv(Move(w, p, Locked(w.jobs[j])).(jobLocks := w.jobLocks[j := p]))
  {
    var v := Move(w, p, Locked(w.jobs[j])).(jobLocks := w.jobLocks[j := p]);
    assert CountsOk(v) by { CountsShrink(w, v); }
    assert SlotsOk(v) by { SlotsKeep(w, v); }
    hide CountsOk, SlotsOk;
    forall q | q in v.pushes ensures PushOk(v, q) { assert PushOk(w, q); }
    forall q, r ensures OwnerPairOk(v, q, r) { assert OwnerPairOk(w, q, r); }
    forall i | i in v.usedJobs ensures JobOk(v, i) { assert JobOk(w, i); }
    forall i | i in v.jobLocks ensures JobLockOk(v, i) { if i in w.jobLocks { assert JobLockOk(w, i); } }
  }

  lemma MarkKeeps(w: World, p: PushId)
    requires Inv(w)
    ensures Inv(MarkStep(w, p))
  {
    MarkPushes(w, p);
    if At(w, p).Locked? {
      var v := MarkStep(w, p);
      hide PushesOk, JobsOk, SlotsOk, CountsOk;
      assert CountsOk(v) by { CountsShrink(w, v); }
      assert SlotsOk(v) by { SlotsKeep(w, v); }
      JobsKeep(w, v);
    }
  }

  lemma MarkPushes(w: World, p: PushId)
    requires PushesOk(w)
    ensures PushesOk(MarkStep(w, p))
  {
    var v := MarkStep(w, p);
    forall q | q in v.pushes ensures PushOk(v, q) { assert PushOk(w, q); }
    forall q, r ensures OwnerPairOk(v, q, r) { assert OwnerPairOk(w, q, r); }
  }

  lemma DispatchKeeps(w: World, p: PushId, ok: bool)
    requires Inv(w)
    ensures Inv(DispatchStep(w, p, ok))
  {
    var v := DispatchStep(w, p, ok);
    if v != w {
      assert CountsOk(v) by { CountsShrink(w, v); }
      assert SlotsOk(v) by { SlotsKeep(w, v); }
      hide CountsOk, SlotsOk;
      var j := w.pushes[p].job;
      assert PushOk(w, p) && JobOk(w, j);
      forall q | q in v.pushes ensures PushOk(v, q) { assert PushOk(w, q) && OwnerPairOk(w, p, q); }
      forall q, r ensures OwnerPairOk(v, q, r) { assert OwnerPairOk(w, q, r); }
      forall i | i in v.usedJobs ensures JobOk(v, i) { assert JobOk(w, i); }
      forall i | i in v.jobLocks ensures JobLockOk(v, i) { assert JobLockOk(w, i); }
    }
  }

  lemma RecordKeeps(w: World, p: PushId, stored: bool)
    requires Inv(w)
    ensures Inv(RecordStep(w, p, stored))
  {
    var v := RecordStep(w, p, stored);
    RecordPushes(w, p, stored);
    RecordJobs(w, p, stored);
    if v != w {
      hide PushesOk, JobsOk, SlotsOk, CountsOk;
      assert CountsOk(v) by { CountsShrink(w, v); }
      SlotsKeep(w, v);
    }
  }

  lemma RecordPushes(w: World, p: PushId, stored: bool)
    requires PushesOk(w)
    ensures PushesOk(RecordStep(w, p, stored))
  {
    var v := RecordStep(w, p, stored);
    if v != w {
      assert PushOk(w, p);
      forall q | q in v.pushes ensures PushOk(v, q) { assert PushOk(w, q) && OwnerPairOk(w, p, q); }
      forall q, r ensures OwnerPairOk(v, q, r) { assert OwnerPairOk(w, q, r); }
    }
  }

  lemma RecordJobs(w: World, p: PushId, stored: bool)
    requires PushesOk(w) && JobsOk(w)
    ensures JobsOk(RecordStep(w, p, stored))
  {
    var v := RecordStep(w, p, stored);
    if v != w {
      assert PushOk(w, p);
      forall i | i in v.usedJobs ensures JobOk(v, i) { assert JobOk(w, i); }
      forall i | i in v.jobLocks ensures JobLockOk(v, i) { assert JobLockOk(w, i); }
    }
  }

  lemma EnsureSlotKeeps(w: World, p: PushId, s: SlotId)
    requires Inv(w)
    ensures Inv(EnsureSlotStep(w, p, s))
  {
    var v := EnsureSlotStep(w, p, s);
    if v != w {
      hide Inv;
      if exists x | x in w.slots :: w.slots[x].key == At(w, p).row.key {
        EnsuredKeeps(w, p);
      } else {
        InsertedKeeps(w, p, s);
      }
    }
  }

  lemma EnsuredKeeps(w: World, p: PushId)
    requires Inv(w) && At(w, p).Marked? && At(w, p).row.key != ""
    ensures Inv(Move(w, p, Ensured(At(w, p).row)))
  {
    var v := Move(w, p, Ensured(At(w, p).row));
    EnsuredPushes(w, p, v);
    hide PushesOk, JobsOk, SlotsOk, CountsOk;
    assert CountsOk(v) by { CountsShrink(w, v); }
    assert SlotsOk(v) by { SlotsKeep(w, v); }
    JobsKeep(w, v);
  }

  lemma InsertedKeeps(w: World, p: PushId, s: SlotId)
    requires Inv(w) && At(w, p).Marked? && At(w, p).row.key != "" && s !in w.usedSlots
    requires !exists x | x in w.slots :: w.slots[x].key == At(w, p).row.key
    ensures Inv(Inserted(w, p, s))
  {
    var v := Inserted(w, p, s);
    InsertedPushes(w, p, s);
    InsertedSlots(w, p, s);
    hide PushesOk, JobsOk, SlotsOk, CountsOk;
    assert CountsOk(v) by { CountsShrink(w, v); }
    JobsKeep(w, v);
  }

  /** An identifier never handed out names no row and no lock. */
  lemma NewSlot(w: World, s: SlotId)
    requires SlotsOk(w) && s !in w.usedSlots
    ensures s !in w.slots && s !in w.slotLocks
  {
    assert s in w.slots ==> SlotOk(w, s);
    assert s in w.slotLocks ==> SlotLockOk(w, s);
  }

  lemma EnsuredPushes(w: World, p: PushId, v: World)
    requires PushesOk(w) && At(w, p).Marked? && At(w, p).row.key != "" && v == Move(w, p, Ensured(At(w, p).row))
    ensures PushesOk(v)
  {
    forall q | q in v.pushes ensures PushOk(v, q) { assert PushOk(w, q); }
    forall q, r ensures OwnerPairOk(v, q, r) { assert OwnerPairOk(w, q, r); }
  }

  lemma InsertedPushes(w: World, p: PushId, s: SlotId)
    requires PushesOk(w) && SlotsOk(w) && At(w, p).Marked? && At(w, p).row.key != "" && s !in w.usedSlots
    ensures PushesOk(Inserted(w, p, s))
  {
    var v := Inserted(w, p, s);
    NewSlot(w, s);
    forall q | q in v.pushes ensures PushOk(v, q) { assert PushOk(w, q); }
    forall q, r ensures OwnerPairOk(v, q, r) { assert OwnerPairOk(w, q, r); }
  }

  lemma InsertedSlots(w: World, p: PushId, s: SlotId)
    requires SlotsOk(w) && At(w, p).Marked? && s !in w.usedSlots
    requires !exists x | x in w.slots :: w.slots[x].key == At(w, p).row.key
    ensures SlotsOk(Inserted(w, p, s))
  {
    var v := Inserted(w, p, s);
    NewSlot(w, s);
    forall x | x in v.slots ensures SlotOk(v, x) { if x in w.slots { assert SlotOk(w, x); } }
    forall x | x in v.slotLocks ensures SlotLockOk(v, x) { if x in w.slotLocks { assert SlotLockOk(w, x); } }
    forall x, y ensures KeyPairOk(v, x, y) { assert KeyPairOk(w, x, y); }
  }

  lemma LockSlotKeeps(w: World, p: PushId, s: SlotId)
    requires Inv(w)
    ensures Inv(LockSlotStep(w, p, s))
  {
    var v := LockSlotStep(w, p, s);
    if v != w {
      assert CountsOk(v) by { CountsShrink(w, v); }
      assert JobsOk(v) by { JobsKeep(w, v); }
      hide CountsOk, JobsOk;
      assert PushOk(w, p);
      forall q | q in v.pushes ensures PushOk(v, q) { assert PushOk(w, q); }
      forall q, r ensures OwnerPairOk(v, q, r) { assert OwnerPairOk(w, q, r); }
      forall x | x in v.slots ensures SlotOk(v, x) { assert SlotOk(w, x); }
      forall x | x in v.slotLocks ensures SlotLockOk(v, x) { if x in w.slotLocks { assert SlotLockOk(w, x); } }
      forall x, y ensures KeyPairOk(v, x, y) { assert KeyPairOk(w, x, y); }
    }
  }

  /** A claim's own row counts once, and was not counted before. */
  lemma OwnRowCounts(w: World, p: PushId)
    requires Inv(w) && p in w.pushes && (w.pushes[p].phase.Holding? || w.pushes[p].phase.Counted?)
    ensures var push := w.pushes[p];
            var row, now := push.phase.row, push.now;
            && row.duration == w.cfg.duration(row.key) && row.limit == w.cfg.limit(row.key)
            && |Active(w.jobs[push.job := row], row.key, now, row.duration)|
               == |Active(w.jobs, row.key, now, row.duration)| + 1
  {
    hide CountsOk, SlotsOk;
    var push := w.pushes[p];
    var row, now, j := push.phase.row, push.now, push.job;
    assert PushOk(w, p);
    assert JobOk(w, j);
    var before, after := Active(w.jobs, row.key, now, row.duration), Active(w.jobs[j := row], row.key, now, row.duration);
    assert after == before + {j} && j !in before;
  }

  lemma CountKeeps(w: World, p: PushId)
    requires Inv(w)
    ensures Inv(CountStep(w, p))
  {
    var v := CountStep(w, p);
    if v != w {
      SlotsKeep(w, v);
      JobsKeep(w, v);
      OwnRowCounts(w, p);
      CountedKeeps(w, v, p);
      hide CountsOk, SlotsOk, JobsOk;
      assert PushOk(w, p);
      forall q | q in v.pushes ensures PushOk(v, q) { assert PushOk(w, q); }
      forall q, r ensures OwnerPairOk(v, q, r) { assert OwnerPairOk(w, q, r); }
    }
  }

  lemma CountedKeeps(w: World, v: World, p: PushId)
    requires CountsOk(w) && v.cfg == w.cfg && v.jobs == w.jobs && v.lastClaim == w.lastClaim
    requires p in v.pushes && v.pushes.Keys == w.pushes.Keys && forall q :: q in v.pushes && q != p ==> v.pushes[q] == w.pushes[q]
    requires CountOk(v, p)
    ensures CountsOk(v)
  {
    forall q | q in v.pushes ensures CountOk(v, q) { if q != p { assert CountOk(w, q); } }
    forall key | key in v.lastClaim ensures KeyOk(v, key) { assert KeyOk(w, key); }
  }

  // ----- The end of a claim transaction -----

  /** Ending a transaction frees its locks and no other, and decides the fate of the slot it inserted. */
  lemma EndTxSlots(w: World, p: PushId, keepSlot: bool, v: World)
    requires SlotsOk(w) && p in w.pushes
    requires v.pushes.Keys == w.pushes.Keys && forall q :: q in v.pushes && q != p ==> v.pushes[q] == w.pushes[q]
    requires var ended := EndTx(w, p, keepSlot);
             v.slots == ended.slots && v.slotLocks == ended.slotLocks && v.usedSlots == w.usedSlots
    ensures SlotsOk(v)
  {
    forall x | x in v.slots ensures SlotOk(v, x) { assert SlotOk(w, x); }
    forall x | x in v.slotLocks ensures SlotLockOk(v, x) {
      assert SlotLockOk(w, x);
      assert SlotOk(w, x);
    }
    forall x, y ensures KeyPairOk(v, x, y) { assert KeyPairOk(w, x, y); }
  }

  /** A claim that rolls back, at whatever point, leaves the job table as it was. */
  lemma RollbackKeeps(w: World, p: PushId, phase: Phase)
    requires Inv(w) && p in w.pushes && (phase.Answered? || phase.Crashed?)
    ensures Inv(EndTx(Move(w, p, phase), p, false))
  {
    var v := EndTx(Move(w, p, phase), p, false);
    assert CountsOk(v) by { CountsShrink(w, v); }
    assert SlotsOk(v) by { EndTxSlots(w, p, false, v); }
    hide CountsOk, SlotsOk;
    assert PushOk(w, p);
    forall q | q in v.pushes ensures PushOk(v, q) { assert PushOk(w, q); }
    forall q, r ensures OwnerPairOk(v, q, r) { assert OwnerPairOk(w, q, r); }
    forall i | i in v.usedJobs ensures JobOk(v, i) { assert JobOk(w, i); }
    forall i | i in v.jobLocks ensures JobLockOk(v, i) { assert JobLockOk(w, i); }
  }

  /** v is w once push p has committed its marked row and become its owner. */
  ghost predicate Committed(w: World, p: PushId, v: World) {
    && p in w.pushes && (w.pushes[p].phase.Marked? || w.pushes[p].phase.Counted?)
    && (var row, j := w.pushes[p].phase.row, w.pushes[p].job;
        v == EndTx(Move(w, p, Owned(row)), p, true).(jobs := w.jobs[j := row], lastClaim := v.lastClaim))
    && w.lastClaim.Keys <= v.lastClaim.Keys
    && (w.pushes[p].phase.row.key != "" ==> w.pushes[p].phase.row.key in v.lastClaim)
  }

  /** A commit that makes the marked row the stored one and the push its owner. */
  lemma CommitKeeps(w: World, p: PushId, v: World)
    requires Inv(w) && Committed(w, p, v)
    ensures PushesOk(v) && JobsOk(v) && SlotsOk(v)
  {
    CommitPushes(w, p, v);
    CommitJobs(w, p, v);
    hide PushesOk, JobsOk, CountsOk;
    EndTxSlots(w, p, true, v);
  }

  lemma CommitPushes(w: World, p: PushId, v: World)
    requires Inv(w) && Committed(w, p, v)
    ensures PushesOk(v)
  {
    hide CountsOk, SlotsOk;
    assert PushOk(w, p) && JobOk(w, w.pushes[p].job);
    forall q | q in v.pushes ensures PushOk(v, q) { assert PushOk(w, q); }
    forall q, r ensures OwnerPairOk(v, q, r) {
      if q in w.pushes { assert PushOk(w, q); }
      if r in w.pushes { assert PushOk(w, r); }
      assert OwnerPairOk(w, q, r);
    }
  }

  lemma CommitJobs(w: World, p: PushId, v: World)
    requires Inv(w) && Committed(w, p, v)
    ensures JobsOk(v)
  {
    hide CountsOk, SlotsOk;
    assert PushOk(w, p) && JobOk(w, w.pushes[p].job);
    hide PushesOk;
    forall i | i in v.usedJobs ensures JobOk(v, i) { assert JobOk(w, i); }
    forall i | i in v.jobLocks ensures JobLockOk(v, i) { assert JobLockOk(w, i); }
  }

  lemma CommitUnlimitedKeeps(w: World, p: PushId)
    requires Inv(w)
    ensures Inv(CommitUnlimitedStep(w, p))
  {
    var v := CommitUnlimitedStep(w, p);
    if v != w {
      assert PushOk(w, p);
      CommitKeeps(w, p, v);
      UnlimitedCounts(w, v, p);
    }
  }

  /** Rows without a key are outside every window that is counted. */
  lemma UnlimitedCounts(w: World, v: World, p: PushId)
    requires Inv(w) && p in w.pushes && w.pushes[p].phase.Marked? && w.pushes[p].phase.row.key == ""
    requires var row, j := w.pushes[p].phase.row, w.pushes[p].job;
             v == EndTx(Move(w, p, Owned(row)), p, true).(jobs := w.jobs[j := row])
    ensures CountsOk(v)
  {
    hide SlotsOk, JobsOk;
    var j := w.pushes[p].job;
    assert PushOk(w, p);
    forall q | q in v.pushes ensures CountOk(v, q) {
      if v.pushes[q].phase.Counted? {
        assert CountOk(w, q) && PushOk(w, q);
        var key, now := v.pushes[q].phase.row.key, v.pushes[q].now;
        assert Active(v.jobs, key, now, v.cfg.duration(key)) == Active(w.jobs, key, now, w.cfg.duration(key));
      }
    }
    forall key | key in v.lastClaim ensures KeyOk(v, key) {
      assert KeyOk(w, key);
      assert Active(v.jobs, key, w.lastClaim[key], v.cfg.duration(key)) == Active(w.jobs, key, w.lastClaim[key], w.cfg.duration(key));
    }
  }

  /** Two claims that hold a slot for one key are one and the same. */
  lemma SlotHeldOnce(w: World, p: PushId, q: PushId)
    requires Inv(w) && p in w.pushes && q in w.pushes
    requires w.pushes[p].phase.Holding? || w.pushes[p].phase.Counted?
    requires w.pushes[q].phase.Holding? || w.pushes[q].phase.Counted?
    requires w.pushes[p].phase.row.key == w.pushes[q].phase.row.key
    ensures p == q
  {
    hide CountsOk, JobsOk;
    assert PushOk(w, p) && PushOk(w, q);
    var s, t := w.pushes[p].phase.slot, w.pushes[q].phase.slot;
    assert SlotLockOk(w, s) && SlotLockOk(w, t) && KeyPairOk(w, s, t);
  }

  lemma CommitClaimKeeps(w: World, p: PushId)
    requires Inv(w)
    ensures Inv(CommitClaimStep(w, p))
  {
    if At(w, p).Counted? {
      if At(w, p).over {
        DeferralKeeps(w, p);
      } else {
        var v := CommitClaimStep(w, p);
        CommitKeeps(w, p, v);
        ClaimCounts(w, v, p);
      }
    }
  }

  /** An over-budget claim gives the row back exactly as pending as it was, with its attempts. */
  lemma DeferralKeeps(w: World, p: PushId)
    requires Inv(w) && At(w, p).Counted? && At(w, p).over
    ensures Inv(CommitClaimStep(w, p))
  {
    var v := CommitClaimStep(w, p);
    DeferralPushes(w, p);
    DeferralJobs(w, p);
    assert PushOk(w, p);
    hide PushesOk, JobsOk;
    assert CountsOk(v) by { CountsShrink(w, v); }
    EndTxSlots(w, p, true, v);
  }

  lemma DeferralPushes(w: World, p: PushId)
    requires Inv(w) && At(w, p).Counted? && At(w, p).over
    ensures PushesOk(CommitClaimStep(w, p))
  {
    hide CountsOk, SlotsOk;
    var v := CommitClaimStep(w, p);
    assert PushOk(w, p) && JobOk(w, w.pushes[p].job);
    hide JobsOk;
    forall q | q in v.pushes ensures PushOk(v, q) { assert PushOk(w, q); }
    forall q, r ensures OwnerPairOk(v, q, r) { assert OwnerPairOk(w, q, r); }
  }

  lemma DeferralJobs(w: World, p: PushId)
    requires Inv(w) && At(w, p).Counted? && At(w, p).over
    ensures JobsOk(CommitClaimStep(w, p))
  {
    hide CountsOk, SlotsOk;
    var v := CommitClaimStep(w, p);
    assert PushOk(w, p) && JobOk(w, w.pushes[p].job);
    hide PushesOk;
    forall i | i in v.usedJobs ensures JobOk(v, i) { assert JobOk(w, i); }
    forall i | i in v.jobLocks ensures JobLockOk(v, i) { assert JobLockOk(w, i); }
  }

  lemma ClaimCounts(w: World, v: World, p: PushId)
    requires Inv(w) && At(w, p).Counted? && !At(w, p).over && v == CommitClaimStep(w, p)
    ensures CountsOk(v)
  {
    var push := w.pushes[p];
    var row, j, now := push.phase.row, push.job, push.now;
    OwnRowCounts(w, p);
    assert PushOk(w, p) && CountOk(w, p);
    forall q | q in v.pushes ensures CountOk(v, q) {
      if v.pushes[q].phase.Counted? && !v.pushes[q].phase.over {
        assert CountOk(w, q);
        var key := v.pushes[q].phase.row.key;
        if key == row.key {
          SlotHeldOnce(w, p, q);
        } else {
          OtherKey(w.jobs, j, row, key, v.pushes[q].now, v.cfg.duration(key));
        }
      }
    }
    forall key | key in v.lastClaim ensures KeyOk(v, key) {
      if key != row.key {
        assert KeyOk(w, key);
        OtherKey(w.jobs, j, row, key, w.lastClaim[key], v.cfg.duration(key));
      }
    }
  }

  lemma OtherKey(jobs: map<JobId, Job>, j: JobId, row: Job, key: Key, t: int, duration: int)
    requires j in jobs && jobs[j].key == row.key != key
    ensures Active(jobs[j := row], key, t, duration) == Active(jobs, key, t, duration)
  {
  }

  lemma FindIdleSlotKeeps(w: World, s: SlotId)
    requires Inv(w)
    ensures Inv(FindIdleSlotStep(w, s))
  {
    var v := FindIdleSlotStep(w, s);
    if v != w {
      assert w.dispatches.Keys == w.usedJobs;
      hide PushesOk, JobsOk, SlotsOk, CountsOk;
      assert v == w.(idleSlots := w.idleSlots + {s});
      hide FindIdleSlotStep;
      assert CountsOk(v) by { CountsShrink(w, v); }
      assert SlotsOk(v) by { SlotsKeep(w, v); }
      assert JobsOk(v) by { JobsKeep(w, v); }
      PushesKeep(w, v);
    }
  }

  lemma DeleteIdleSlotKeeps(w: World, s: SlotId)
    requires Inv(w)
    ensures Inv(DeleteIdleSlotStep(w, s))
  {
    var v := DeleteIdleSlotStep(w, s);
    DeleteIdleSlotSlots(w, s);
    if v != w {
      assert w.dispatches.Keys == w.usedJobs;
      hide PushesOk, JobsOk, SlotsOk, CountsOk;
      assert CountsOk(v) by { CountsShrink(w, v); }
      assert JobsOk(v) by { JobsKeep(w, v); }
      PushesKeep(w, v);
    }
  }

  lemma DeleteIdleSlotSlots(w: World, s: SlotId)
    requires SlotsOk(w)
    ensures SlotsOk(DeleteIdleSlotStep(w, s))
  {
    var v := DeleteIdleSlotStep(w, s);
    forall x | x in v.slots ensures SlotOk(v, x) { assert SlotOk(w, x); }
    forall x | x in v.slotLocks ensures SlotLockOk(v, x) { assert SlotLockOk(w, x); }
    forall x, y ensures KeyPairOk(v, x, y) { assert KeyPairOk(w, x, y); }
  }

  lemma StepKeeps(w: World, e: Event)
    requires Inv(w)
    ensures Inv(Next(w, e))
  {
    hide Inv;
    match e
    case Enqueue(j, m, k) => EnqueueKeeps(w, j, m, k);
    case Withdraw(j) => if j in w.jobs && j !in w.jobLocks { DeleteJobKeeps(w, j, Next(w, e)); }
    case Arrive(p, j, now) => ArriveKeeps(w, p, j, now);
    case LockRow(p) => LockRowKeeps(w, p);
    case Mark(p) => MarkKeeps(w, p);
    case CommitUnlimited(p) => CommitUnlimitedKeeps(w, p);
    case EnsureSlot(p, s) => EnsureSlotKeeps(w, p, s);
    case LockSlot(p, s) => LockSlotKeeps(w, p, s);
    case Count(p) => CountKeeps(w, p);
    case CommitClaim(p) => CommitClaimKeeps(w, p);
    case Dispatch(p, ok) => DispatchKeeps(w, p, ok);
    case Record(p, stored) => RecordKeeps(w, p, stored);
    case StatementError(p) => if p in w.pushes { RollbackKeeps(w, p, Answered(500)); }
    case Crash(p) => if p in w.pushes { RollbackKeeps(w, p, Crashed); }
    case PickStaleJob(j) => PickStaleJobKeeps(w, j);
    case DeleteStaleJob(j) => if j in w.staleJobs && j !in w.jobLocks { DeleteJobKeeps(w, j, Next(w, e)); }
    case FindIdleSlot(s) => FindIdleSlotKeeps(w, s);
    case DeleteIdleSlot(s) => DeleteIdleSlotKeeps(w, s);
  }

  lemma InitialGood(cfg: Config)
    requires forall k :: cfg.duration(k) > 0
    ensures Inv(Initial(cfg))
  {
  }

  lemma {:induction false} RunKeeps(w: World, es: seq<Event>)
    requires Inv(w)
    ensures Inv(Run(w, es))
    decreases |es|
  {
    if es != [] {
      StepKeeps(w, es[0]);
      RunKeeps(Next(w, es[0]), es[1..]);
    }
  }

  lemma ReachableGood(w: World)
    requires Reachable(w)
    ensures Inv(w)
  {
    var cfg: Config, es: seq<Event> :| (forall k :: cfg.duration(k) > 0) && w == Run(Initial(cfg), es);
    InitialGood(cfg);
    RunKeeps(Initial(cfg), es);
  }
}
