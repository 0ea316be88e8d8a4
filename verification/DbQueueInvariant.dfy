/**
 The invariant of the claim protocol, and that every step keeps it.

 A row that is selected is locked by the claim that selected it, a row that is held is
 stored as the claim's snapshot shows it, and no row belongs to two claims. Without row
 locks, the executing rows of a key inside its window number at most the limit at the
 time of the latest claim, and so at every later time.
 */
module DbQueueInvariant {
  import opened DbQueue

  // ----- Invariants -----

  ghost predicate ClaimOk(w: World, h: Handle)
    requires h in w.claims
  {
    var j, phase := w.claims[h].job, w.claims[h].phase;
    // a selected row is locked, and still as it was read
    && (phase.Selected? ==>
          && w.cfg.rowLocking && j in w.locks && w.locks[j] == h && j in w.jobs && w.jobs[j] == phase.row
          && phase.row.state == Available && (phase.row.key == "" || phase.row.limit > 0))
    // a held row is what its holder thinks it is
    && (Owner(phase) ==>
          && j in w.jobs && w.jobs[j] == phase.row && phase.row.state == Executing && j in w.performed
          && w.performed[j] == phase.row.attempts + if phase.Performed? then 1 else 0)
  }

  /** No two claims hold one row. */
  ghost predicate PairOk(w: World, h: Handle, g: Handle) {
    h in w.claims && g in w.claims && Owner(w.claims[h].phase) && Owner(w.claims[g].phase) && w.claims[h].job == w.claims[g].job
    ==> h == g
  }

  ghost predicate LockOk(w: World, j: JobId)
    requires j in w.locks
  {
    w.locks[j] in w.claims && w.claims[w.locks[j]].phase.Selected? && w.claims[w.locks[j]].job == j
  }

  ghost predicate JobOk(w: World, j: JobId)
    requires j in w.usedJobs
  {
    && j in w.performed && j in w.budget && w.performed[j] <= AtLeastOne(w.budget[j])
    && (j in w.jobs ==>
          var job := w.jobs[j];
          && 0 <= job.attempts <= w.performed[j] <= job.attempts + 1 && job.maxAttempts == w.budget[j]
          && (job.state == Available ==> w.performed[j] == job.attempts < AtLeastOne(job.maxAttempts))
          && (job.state == Executing ==> job.attempts < AtLeastOne(job.maxAttempts))
          && (job.state == Executing && job.key != "" ==> job.key in w.lastClaim)
          && job.limit == w.cfg.limit(job.key) && job.duration == w.cfg.duration(job.key)
          && (j in w.stale ==> job.state == Finished))
  }

  ghost predicate KeyOk(w: World, key: Key)
    requires key in w.lastClaim
  {
    key != "" && w.cfg.limit(key) > 0 && (!w.cfg.rowLocking ==> |Active(w.jobs, key, w.lastClaim[key], w.cfg.duration(key))| <= w.cfg.limit(key))
  }

  ghost predicate ClaimsOk(w: World) {
    && (forall h {:trigger ClaimOk(w, h)} :: h in w.claims ==> ClaimOk(w, h))
    && (forall h, g {:trigger PairOk(w, h, g)} :: PairOk(w, h, g))
    && (forall j {:trigger LockOk(w, j)} :: j in w.locks ==> LockOk(w, j))
    && (!w.cfg.rowLocking ==> w.locks == map[])
  }

  ghost predicate JobsOk(w: World) {
    && w.jobs.Keys <= w.usedJobs && w.stale <= w.usedJobs && w.performed.Keys == w.usedJobs
    && (forall j {:trigger JobOk(w, j)} :: j in w.usedJobs ==> JobOk(w, j))
  }

  ghost predicate KeysOk(w: World) {
    forall key {:trigger KeyOk(w, key)} :: key in w.lastClaim ==> KeyOk(w, key)
  }

  ghost predicate Inv(w: World) {
    ClaimsOk(w) && JobsOk(w) && KeysOk(w)
  }

  // ----- Every step keeps the invariant -----

  lemma SubsetSize<T>(a: set<T>, b: set<T>)
    requires a <= b
    ensures |a| <= |b|
  {
    assert b == a + (b - a);
  }

  /** Steps that add no executing row keep every count. */
  lemma KeysShrink(w: World, v: World)
    requires KeysOk(w) && v.cfg == w.cfg && v.lastClaim == w.lastClaim
    requires forall j :: j in v.jobs && v.jobs[j].state == Executing ==> j in w.jobs && w.jobs[j] == v.jobs[j]
    ensures KeysOk(v)
  {
    forall key | key in v.lastClaim
      ensures KeyOk(v, key)
    {
      assert KeyOk(w, key);
      SubsetSize(Active(v.jobs, key, v.lastClaim[key], v.cfg.duration(key)), Active(w.jobs, key, v.lastClaim[key], v.cfg.duration(key)));
    }
  }

  /** Steps that leave every row alone that some claim has selected or holds. */
  lemma ClaimsKeep(w: World, v: World)
    requires ClaimsOk(w)
    requires v.cfg == w.cfg && v.claims == w.claims && v.locks == w.locks
    requires forall h :: h in w.claims && w.claims[h].job in w.jobs && !w.claims[h].phase.Done? ==>
      w.claims[h].job in v.jobs && v.jobs[w.claims[h].job] == w.jobs[w.claims[h].job]
    requires forall j :: j in w.performed ==> j in v.performed && v.performed[j] == w.performed[j]
    ensures ClaimsOk(v)
  {
    forall h | h in v.claims ensures ClaimOk(v, h) { assert ClaimOk(w, h); }
    forall h, g ensures PairOk(v, h, g) { assert PairOk(w, h, g); }
    forall j | j in v.locks ensures LockOk(v, j) { assert LockOk(w, j); }
  }

  /** Steps that leave the table alone. */
  lemma JobsKeep(w: World, v: World)
    requires JobsOk(w)
    requires v.cfg == w.cfg && v.jobs == w.jobs && v.usedJobs == w.usedJobs && v.stale == w.stale
    requires v.performed == w.performed && v.budget == w.budget && v.lastClaim == w.lastClaim
    ensures JobsOk(v)
  {
    forall j | j in v.usedJobs ensures JobOk(v, j) { assert JobOk(w, j); }
  }

  lemma EnqueueKeeps(w: World, j: JobId, m: int, q: string, at: int, k: Key)
    requires Inv(w) && j !in w.usedJobs
    ensures Inv(EnqueueStep(w, j, m, q, at, k))
  {
    var v := EnqueueStep(w, j, m, q, at, k);
    assert KeysOk(v) by { KeysShrink(w, v); }
    assert ClaimsOk(v) by { ClaimsKeep(w, v); }
    hide KeysOk, ClaimsOk;
    forall i | i in v.usedJobs ensures JobOk(v, i) { if i != j { assert JobOk(w, i); } }
  }

  lemma ClaimAtomicKeeps(w: World, h: Handle, j: JobId, qs: seq<string>, now: int)
    requires Inv(w) && !w.cfg.rowLocking && h !in w.claims && Candidate(w.jobs, {}, j, qs, now)
    ensures Inv(ClaimAtomicStep(w, h, j, qs, now))
  {
    var v := ClaimAtomicStep(w, h, j, qs, now);
    var row := w.jobs[j];
    assert JobOk(w, j);
    assert KeysOk(v) by { ClaimedCounts(w, j, now); KeysSame(Claimed(w, j, now), v); }
    hide KeysOk;
    assert JobsOk(v) by { ClaimedJobs(w, j, now); JobsKeep(Claimed(w, j, now), v); }
    hide JobsOk, Candidate;
    forall g | g in v.claims ensures ClaimOk(v, g) { if g != h { assert ClaimOk(w, g); } }
    forall f, g ensures PairOk(v, f, g) {
      assert PairOk(w, f, g);
      if f in w.claims { assert ClaimOk(w, f); }
      if g in w.claims { assert ClaimOk(w, g); }
    }
  }

  lemma KeysSame(w: World, v: World)
    requires KeysOk(w) && v.cfg == w.cfg && v.lastClaim == w.lastClaim && v.jobs == w.jobs
    ensures KeysOk(v)
  {
    forall key | key in v.lastClaim ensures KeyOk(v, key) { assert KeyOk(w, key); }
  }

  /** The guard leaves room for the row it lets through. */
  lemma ClaimedCounts(w: World, j: JobId, now: int)
    requires KeysOk(w) && j in w.jobs && w.jobs[j].state == Available
    requires w.jobs[j].limit == w.cfg.limit(w.jobs[j].key) && w.jobs[j].duration == w.cfg.duration(w.jobs[j].key)
    requires w.jobs[j].key == "" || w.jobs[j].limit > 0
    requires !w.cfg.rowLocking ==> WithinLimit(w.jobs, w.jobs[j], now)
    ensures KeysOk(Claimed(w, j, now))
  {
    var v := Claimed(w, j, now);
    var mine := w.jobs[j].key;
    forall key | key in v.lastClaim
      ensures KeyOk(v, key)
    {
      var t, d := v.lastClaim[key], w.cfg.duration(key);
      if key == mine && mine != "" {
        SubsetSize(Active(v.jobs, key, t, d), Active(w.jobs, key, t, d) + {j});
      } else {
        assert KeyOk(w, key);
        assert Active(v.jobs, key, t, d) == Active(w.jobs, key, t, d);
      }
    }
  }

  lemma ClaimedJobs(w: World, j: JobId, now: int)
    requires JobsOk(w) && j in w.jobs && w.jobs[j].state == Available
    ensures JobsOk(Claimed(w, j, now))
  {
    var v := Claimed(w, j, now);
    forall i | i in v.usedJobs ensures JobOk(v, i) { assert JobOk(w, i); }
  }

  lemma SelectRowKeeps(w: World, h: Handle, j: JobId, qs: seq<string>, now: int)
    requires Inv(w) && w.cfg.rowLocking && h !in w.claims && Candidate(w.jobs, w.locks.Keys, j, qs, now)
    ensures Inv(SelectRowStep(w, h, j, qs, now))
  {
    var v := SelectRowStep(w, h, j, qs, now);
    assert KeysOk(v) by { KeysSame(w, v); }
    assert JobsOk(v) by { JobsKeep(w, v); }
    hide KeysOk, JobsOk;
    forall g | g in v.claims ensures ClaimOk(v, g) { if g != h { assert ClaimOk(w, g); } }
    forall f, g ensures PairOk(v, f, g) { assert PairOk(w, f, g); }
    forall i | i in v.locks ensures LockOk(v, i) { if i != j { assert LockOk(w, i); } }
  }

  lemma MarkRowKeeps(w: World, h: Handle)
    requires Inv(w) && At(w, h).Selected?
    ensures Inv(MarkRowStep(w, h))
  {
    var v := MarkRowStep(w, h);
    var j, now := w.claims[h].job, w.claims[h].now;
    assert ClaimOk(w, h);
    assert JobOk(w, j);
    assert KeysOk(v) by { ClaimedCounts(w, j, now); KeysSame(Claimed(w, j, now), v); }
    hide KeysOk;
    assert JobsOk(v) by { ClaimedJobs(w, j, now); JobsKeep(Claimed(w, j, now), v); }
    hide JobsOk;
    forall g | g in v.claims ensures ClaimOk(v, g) { assert ClaimOk(w, g); }
    forall f, g ensures PairOk(v, f, g) {
      assert PairOk(w, f, g);
      if f in w.claims { assert ClaimOk(w, f); }
      if g in w.claims { assert ClaimOk(w, g); }
    }
    forall i | i in v.locks ensures LockOk(v, i) { assert LockOk(w, i); }
  }

  lemma PerformKeeps(w: World, h: Handle, ok: bool)
    requires Inv(w) && At(w, h).Held?
    ensures Inv(PerformStep(w, h, ok))
  {
    var v := PerformStep(w, h, ok);
    var j := w.claims[h].job;
    assert ClaimOk(w, h) && JobOk(w, j);
    assert KeysOk(v) by { KeysSame(w, v); }
    hide KeysOk;
    forall g | g in v.claims ensures ClaimOk(v, g) { assert ClaimOk(w, g) && PairOk(w, h, g); }
    forall f, g ensures PairOk(v, f, g) { assert PairOk(w, f, g); }
    forall i | i in v.locks ensures LockOk(v, i) { assert LockOk(w, i); }
    forall i | i in v.usedJobs ensures JobOk(v, i) { assert JobOk(w, i); }
  }

  /** A claim that ends without writing: its row stays as it is stored. */
  lemma DropKeeps(w: World, h: Handle)
    requires Inv(w) && h in w.claims
    ensures Inv(DropStep(w, h))
  {
    if At(w, h).Selected? {
      RollbackKeeps(w, h);
    } else {
      ForgottenKeeps(w, h);
    }
  }

  lemma ForgottenKeeps(w: World, h: Handle)
    requires Inv(w) && h in w.claims && !At(w, h).Selected?
    ensures Inv(Move(w, h, Done))
  {
    var v := Move(w, h, Done);
    assert KeysOk(v) by { KeysSame(w, v); }
    assert JobsOk(v) by { JobsKeep(w, v); }
    hide KeysOk, JobsOk;
    forall g | g in v.claims ensures ClaimOk(v, g) { assert ClaimOk(w, g); }
    forall f, g ensures PairOk(v, f, g) { assert PairOk(w, f, g); }
    forall i | i in v.locks ensures LockOk(v, i) { assert LockOk(w, i); }
  }

  lemma RollbackKeeps(w: World, h: Handle)
    requires Inv(w) && At(w, h).Selected?
    ensures Inv(DropStep(w, h))
  {
    var v := DropStep(w, h);
    assert ClaimOk(w, h);
    assert KeysOk(v) by { KeysSame(w, v); }
    assert JobsOk(v) by { JobsKeep(w, v); }
    hide KeysOk, JobsOk;
    forall g | g in v.claims ensures ClaimOk(v, g) { assert ClaimOk(w, g); }
    forall f, g ensures PairOk(v, f, g) { assert PairOk(w, f, g); }
    forall i | i in v.locks ensures LockOk(v, i) { assert LockOk(w, i); }
  }

  lemma RecordKeeps(w: World, h: Handle, stored: bool, at: int)
    requires Inv(w) && At(w, h).Performed?
    ensures Inv(RecordStep(w, h, stored, at))
  {
    var j := w.claims[h].job;
    assert ClaimOk(w, h);
    if !stored {
      ForgottenKeeps(w, h);
    } else if j !in w.locks {
      RecordedKeeps(w, h, at);
    }
  }

  lemma RecordedKeeps(w: World, h: Handle, at: int)
    requires Inv(w) && At(w, h).Performed? && w.claims[h].job in w.jobs && w.claims[h].job !in w.locks
    ensures Inv(RecordStep(w, h, true, at))
  {
    var v := RecordStep(w, h, true, at);
    var j := w.claims[h].job;
    assert ClaimOk(w, h) && JobOk(w, j);
    assert KeysOk(v) by { KeysShrink(w, v); }
    hide KeysOk;
    assert JobsOk(v) by {
      forall i | i in v.usedJobs ensures JobOk(v, i) { assert JobOk(w, i); }
    }
    hide JobsOk;
    forall g | g in v.claims ensures ClaimOk(v, g) { assert ClaimOk(w, g) && PairOk(w, h, g); }
    forall f, g ensures PairOk(v, f, g) { assert PairOk(w, f, g); }
    forall i | i in v.locks ensures LockOk(v, i) { assert LockOk(w, i); }
  }

  lemma PickStaleKeeps(w: World, j: JobId)
    requires Inv(w) && j in w.jobs && w.jobs[j].state == Finished
    ensures Inv(PickStaleStep(w, j))
  {
    var v := PickStaleStep(w, j);
    assert KeysOk(v) by { KeysSame(w, v); }
    assert ClaimsOk(v) by { ClaimsKeep(w, v); }
    hide KeysOk, ClaimsOk;
    forall i | i in v.usedJobs ensures JobOk(v, i) { assert JobOk(w, i); }
  }

  /** Only finished rows are deleted, and those no claim has selected or holds. */
  lemma DeleteStaleKeeps(w: World, j: JobId)
    requires Inv(w) && j in w.stale && j !in w.locks
    ensures Inv(DeleteStaleStep(w, j))
  {
    var v := DeleteStaleStep(w, j);
    assert JobOk(w, j);
    assert KeysOk(v) by { KeysShrink(w, v); }
    hide KeysOk;
    forall h | h in w.claims && !w.claims[h].phase.Done? ensures w.claims[h].job != j { assert ClaimOk(w, h); }
    assert ClaimsOk(v) by { ClaimsKeep(w, v); }
    hide ClaimsOk;
    forall i | i in v.usedJobs ensures JobOk(v, i) { assert JobOk(w, i); }
  }

  lemma StepKeeps(w: World, e: Event)
    requires Inv(w)
    ensures Inv(Next(w, e))
  {
    hide Inv;
    match e
    case Enqueue(j, m, q, at, k) => if j !in w.usedJobs { EnqueueKeeps(w, j, m, q, at, k); }
    case ClaimAtomic(h, j, qs, now) =>
      if !w.cfg.rowLocking && h !in w.claims && Candidate(w.jobs, {}, j, qs, now) { ClaimAtomicKeeps(w, h, j, qs, now); }
    case SelectRow(h, j, qs, now) =>
      if w.cfg.rowLocking && h !in w.claims && Candidate(w.jobs, w.locks.Keys, j, qs, now) { SelectRowKeeps(w, h, j, qs, now); }
    case MarkRow(h) => if At(w, h).Selected? { MarkRowKeeps(w, h); }
    case Perform(h, ok) => if At(w, h).Held? { PerformKeeps(w, h, ok); }
    case Record(h, stored, at) => if At(w, h).Performed? { RecordKeeps(w, h, stored, at); }
    case Drop(h) => if h in w.claims { DropKeeps(w, h); }
    case PickStale(j) => if j in w.jobs && w.jobs[j].state == Finished { PickStaleKeeps(w, j); }
    case DeleteStale(j) => if j in w.stale && j !in w.locks { DeleteStaleKeeps(w, j); }
  }

  lemma {:induction false} RunKeeps(w: World, es: seq<Event>)
    requires Inv(w)
    ensures Inv(Run(w, es))
    decreases |es|
  {
    if es != [] {
      StepKeeps(w, es[0]);
      RunKeeps(Next(w, es[0]), es[1..]);
    }
  }

  lemma ReachableGood(w: World)
    requires Reachable(w)
    ensures Inv(w)
  {
    var cfg: Config, es: seq<Event> :| w == Run(Initial(cfg), es);
    RunKeeps(Initial(cfg), es);
  }
}
