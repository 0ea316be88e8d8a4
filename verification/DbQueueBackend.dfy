/** The worker's own code in jobs/backend/dbqueue: claiming, writing back an outcome, the retry delay. */
module DbQueueBackend {
  import opened Results
  import opened DbQueue

  // Claiming and writing back are tied to the small steps of DbQueue they stand for, so what is proved there for every
  // interleaving is proved about them.

  // ----- The retry delay -----

  const TWO_63 := 0x8000_0000_0000_0000
  const TWO_64 := 0x1_0000_0000_0000_0000

  /** The low 64 bits, read as two's complement. */
  function Wrap(n: int): int {
    var low := n % TWO_64;
    if low >= TWO_63 then low - TWO_64 else low
  }

  function Pow2(n: nat): nat {
    if n == 0 then 1 else 2 * Pow2(n - 1)
  }

  /** Go's division by two truncates toward zero. */
  function Half(n: int): int {
    if n < 0 then -(-n / 2) else n / 2
  }

  /** The delay before jitter. */
  function Cap(base: int, max: int, attempts: nat): int {
    var d := Wrap(base * Pow2(if attempts > 10 then 10 else attempts));
    if d <= 0 || d > max then max else d
  }

  /**
   computeBackoff; random is what rand.Int64N(half + 1) returns, and there is no result
   when that call panics.
   */
  method ComputeBackoff(base: int, max: int, attempts: nat, random: nat) returns (delay: Option<int>)
    ensures delay.None? <==> max <= -2
    ensures delay.Some? && random <= Half(Cap(base, max, attempts)) ==>
      Half(Cap(base, max, attempts)) <= delay.value <= Cap(base, max, attempts) || max == -1
    ensures delay.Some? && max >= 0 && random <= Half(Cap(base, max, attempts)) ==> 0 <= delay.value <= max
  {
    var exp := attempts;
    if exp > 10 {
      exp := 10;
    }
    var d := Wrap(base * Pow2(exp));
    if d <= 0 || d > max {
      d := max;
    }
    var half := Half(d);
    if half + 1 <= 0 {
      return None;
    }
    delay := Some(half + random);
  }

  /** While nothing overflows, the delay doubles with every attempt up to the tenth, and then stays. */
  lemma BackoffDoubles(base: int, max: int, attempts: nat)
    requires 0 < base && base * 1024 < TWO_63
    ensures var d := base * Pow2(if attempts > 10 then 10 else attempts);
            Cap(base, max, attempts) == (if d > max then max else d)
    ensures Cap(base, max, attempts) <= Cap(base, max, attempts + 1)
  {
    var n := if attempts > 10 then 10 else attempts;
    var m := if attempts + 1 > 10 then 10 else attempts + 1;
    PowUpTo(n);
    PowUpTo(m);
    PowSteps(n);
    Scaled(base, Pow2(n), 1024);
    Scaled(base, Pow2(m), 1024);
    Scaled(base, Pow2(n), Pow2(m));
  }

  lemma {:induction false} PowSteps(n: nat)
    ensures 1 <= Pow2(n) < Pow2(n + 1)
  {
    if n > 0 {
      PowSteps(n - 1);
    }
  }

  lemma {:induction false} PowUpTo(n: nat)
    requires n <= 10
    ensures 1 <= Pow2(n) <= 1024
    decreases 10 - n
  {
    if n == 10 {
      assert Pow2(8) == 4 * Pow2(6) && Pow2(6) == 4 * Pow2(4) && Pow2(4) == 4 * Pow2(2) && Pow2(2) == 4;
    } else {
      PowUpTo(n + 1);
      PowSteps(n);
    }
  }

  lemma Scaled(base: int, a: int, b: int)
    requires 0 < base && 1 <= a <= b
    ensures 0 < base * a <= base * b
  {
  }

  /** The delay doubles with every attempt up to the tenth, and is capped at max. */
  ghost predicate DoublesUpTo(base: int, max: int, attempts: nat) {
    var d := base * Pow2(if attempts > 10 then 10 else attempts);
    Cap(base, max, attempts) == if d < max then d else max
  }

  /** The delay as it is documented, for every attempt. */
  ghost predicate AsDocumented(base: int, max: int) {
    forall attempts: nat :: DoublesUpTo(base, max, attempts)
  }

  /** Doubled n times, base fits under max, or overflows to something that is taken for too much. */
  ghost predicate CapsRight(base: int, max: int, n: nat) {
    var d := base * Pow2(n);
    d <= max || Wrap(d) <= 0 || Wrap(d) >= max
  }

  /** The documented delay is kept for all attempts exactly when none of the eleven products overflows to a positive number below max. */
  lemma BackoffIff(base: int, max: int)
    requires 0 < base && 0 <= max < TWO_63
    ensures AsDocumented(base, max) <==> forall n: nat :: n <= 10 ==> CapsRight(base, max, n)
  {
    hide Pow2, Wrap;
    forall attempts: nat
      ensures DoublesUpTo(base, max, attempts) <==> CapsRight(base, max, if attempts > 10 then 10 else attempts)
    {
      var n := if attempts > 10 then 10 else attempts;
      PowUpTo(n);
      Scaled(base, 1, Pow2(n));
      WrapSmall(base * Pow2(n));
    }
    hide DoublesUpTo, CapsRight;
    if AsDocumented(base, max) {
      forall n: nat | n <= 10 ensures CapsRight(base, max, n) { assert DoublesUpTo(base, max, n); }
    }
    if forall n: nat :: n <= 10 ==> CapsRight(base, max, n) {
      forall attempts: nat
        ensures DoublesUpTo(base, max, attempts)
      {
        assert CapsRight(base, max, if attempts > 10 then 10 else attempts);
      }
    }
  }

  lemma WrapSmall(d: int)
    ensures 0 <= d < TWO_63 ==> Wrap(d) == d
  {
  }

  /** With a base so large that a product overflows, a late retry can be almost immediate. */
  lemma BackoffOverflows()
    ensures Cap(0x40_0000_0000_0001, TWO_63 - 1, 10) == 1024
    ensures !AsDocumented(0x40_0000_0000_0001, TWO_63 - 1)
  {
    PowTen();
    assert 0x40_0000_0000_0001 * 1024 == TWO_64 + 1024;
    assert !CapsRight(0x40_0000_0000_0001, TWO_63 - 1, 10);
    BackoffIff(0x40_0000_0000_0001, TWO_63 - 1);
  }

  lemma PowTen()
    ensures Pow2(10) == 1024
  {
    assert Pow2(8) == 4 * Pow2(6) && Pow2(6) == 4 * Pow2(4) && Pow2(4) == 4 * Pow2(2) && Pow2(2) == 4;
  }

  // ----- Claiming -----

  /** w after the steps of one poll's claims, the first of them numbered first. */
  function AfterClaims(w: World, first: Handle, ids: seq<JobId>, queues: seq<string>, now: int): World {
    if ids == [] then w
    else
      var before := AfterClaims(w, first, ids[..|ids| - 1], queues, now);
      Next(before, ClaimAtomic(first + |ids| - 1, ids[|ids| - 1], queues, now))
  }

  lemma MoreClaimed(w: World, first: Handle, ids: seq<JobId>, id: JobId, queues: seq<string>, now: int)
    ensures AfterClaims(w, first, ids + [id], queues, now)
            == ClaimAtomicStep(AfterClaims(w, first, ids, queues, now), first + |ids|, id, queues, now)
  {
    hide ClaimAtomicStep;
    assert (ids + [id])[..|ids|] == ids;
  }

  lemma SelectThenMark(w: World, h: Handle, id: JobId, queues: seq<string>, now: int)
    requires w.cfg.rowLocking && h !in w.claims && Candidate(w.jobs, w.locks.Keys, id, queues, now)
    ensures var v := Run(w, [SelectRow(h, id, queues, now), MarkRow(h)]);
            && v.jobs == w.jobs[id := Marked(w.jobs[id], now)] && v.locks == w.locks
            && At(v, h) == Held(Marked(w.jobs[id], now)) && v.claims[h].job == id
  {
    assert id in w.jobs && id !in w.locks;
    hide Candidate;
    var select, mark := SelectRow(h, id, queues, now), MarkRow(h);
    assert [select, mark][1..] == [mark];
    assert Run(Next(w, select), [mark]) == Run(Next(Next(w, select), mark), []);
    assert w.locks[id := h] - {id} == w.locks;
  }

  /** Among ready rows one was scheduled first. */
  lemma {:induction false} FirstReady(jobs: map<JobId, Job>, some: set<JobId>, queues: seq<string>, now: int) returns (j: JobId)
    requires some <= jobs.Keys && some != {} && forall i :: i in some ==> Ready(jobs, i, queues, now)
    ensures j in some && forall i :: i in some ==> jobs[j].scheduledAt <= jobs[i].scheduledAt
    decreases |some|
  {
    hide Ready;
    var any :| any in some;
    var rest := some - {any};
    j := any;
    if rest != {} {
      var k := FirstReady(jobs, rest, queues, now);
      if jobs[k].scheduledAt < jobs[any].scheduledAt {
        j := k;
      }
    }
    forall i | i in some ensures jobs[j].scheduledAt <= jobs[i].scheduledAt { assert i == any || i in rest; }
  }

  /** What claiming ids has made of the table: each row once, none that was not there to be taken, no other touched. */
  ghost predicate Batch(before: map<JobId, Job>, jobs: map<JobId, Job>, ids: seq<JobId>, rows: seq<Job>, queues: seq<string>, now: int) {
    && |ids| == |rows| && jobs.Keys == before.Keys
    && (forall i, k :: 0 <= i < k < |ids| ==> ids[i] != ids[k])
    && (forall i :: 0 <= i < |ids| ==> ids[i] in before && Taken(before[ids[i]], queues, now, rows[i]) && jobs[ids[i]] == rows[i])
    && (forall j :: j in jobs && j !in ids ==> jobs[j] == before[j])
  }

  predicate Taken(row: Job, queues: seq<string>, now: int, claimed: Job) {
    row.state == Available && row.queue in queues && row.scheduledAt <= now && claimed == Marked(row, now)
  }

  lemma BatchGrows(before: map<JobId, Job>, jobs: map<JobId, Job>, ids: seq<JobId>, rows: seq<Job>, queues: seq<string>, now: int, id: JobId)
    requires Batch(before, jobs, ids, rows, queues, now) && Ready(jobs, id, queues, now)
    ensures Batch(before, jobs[id := Marked(jobs[id], now)], ids + [id], rows + [Marked(jobs[id], now)], queues, now)
  {
    hide WithinLimit;
    BatchTaken(before, jobs, ids, rows, queues, now);
  }

  /** Claimed rows are executing, so they are not claimed again. */
  lemma BatchTaken(before: map<JobId, Job>, jobs: map<JobId, Job>, ids: seq<JobId>, rows: seq<Job>, queues: seq<string>, now: int)
    requires Batch(before, jobs, ids, rows, queues, now)
    ensures forall j :: j in ids ==> j in jobs && jobs[j].state == Executing
  {
  }

  /** The claims numbered from first hold the rows claimed, and no later claim exists. */
  ghost predicate HeldFrom(v: World, first: Handle, ids: seq<JobId>, rows: seq<Job>) {
    && |ids| == |rows| && (forall h :: h in v.claims ==> h < first + |ids|)
    && (forall i :: 0 <= i < |ids| ==> At(v, first + i) == Held(rows[i]) && v.claims[first + i].job == ids[i])
  }

  lemma HeldGrows(v: World, first: Handle, ids: seq<JobId>, rows: seq<Job>, queues: seq<string>, now: int, id: JobId)
    requires HeldFrom(v, first, ids, rows) && !v.cfg.rowLocking && Candidate(v.jobs, {}, id, queues, now)
    ensures var next := ClaimAtomicStep(v, first + |ids|, id, queues, now);
            && HeldFrom(next, first, ids + [id], rows + [Marked(v.jobs[id], now)])
            && next.cfg == v.cfg && next.jobs == v.jobs[id := Marked(v.jobs[id], now)]
  {
    hide WithinLimit;
  }

  /** Waiting in one of the queues, and its time has come. */
  ghost predicate Due(job: Job, queues: seq<string>, now: int) {
    job.state == Available && job.queue in queues && job.scheduledAt <= now
  }

  /** Fewer rows of its key than its limit run that were locked within its duration. */
  ghost predicate HasRoom(jobs: map<JobId, Job>, job: Job, now: int) {
    job.key == "" ||
    var running := set j | j in jobs && jobs[j].state == Executing && jobs[j].key == job.key && now - job.duration < jobs[j].lockedAt;
    |running| < job.limit
  }

  /** Ready is due with room. */
  lemma ReadyIff(jobs: map<JobId, Job>, queues: seq<string>, now: int)
    ensures forall j <- jobs :: Ready(jobs, j, queues, now) <==> Due(jobs[j], queues, now) && HasRoom(jobs, jobs[j], now)
  {
    forall j | j in jobs
      ensures Ready(jobs, j, queues, now) <==> Due(jobs[j], queues, now) && HasRoom(jobs, jobs[j], now)
    {
      var job := jobs[j];
      var running := set i | i in jobs && jobs[i].state == Executing && jobs[i].key == job.key && now - job.duration < jobs[i].lockedAt;
      assert Active(jobs, job.key, now, job.duration) == running;
    }
  }

  class Backend {
    var jobs: map<JobId, Job>

    /** claimOne as a single UPDATE: the earliest ready row, if there is one. */
    method ClaimOne(queues: seq<string>, now: int) returns (id: JobId, row: Job, ok: bool)
      modifies this
      ensures ok <==> exists j :: Ready(old(jobs), j, queues, now)
      ensures ok ==> Candidate(old(jobs), {}, id, queues, now)
      ensures ok ==> row == Marked(old(jobs)[id], now) && jobs == old(jobs)[id := row]
      ensures ok ==> Due(old(jobs)[id], queues, now) && HasRoom(old(jobs), old(jobs)[id], now) && row == old(jobs)[id].(state := Executing, lockedAt := now)
      ensures ok ==> forall j <- old(jobs) :: Due(old(jobs)[j], queues, now) && HasRoom(old(jobs), old(jobs)[j], now) ==>
        old(jobs)[id].scheduledAt <= old(jobs)[j].scheduledAt
      ensures !ok ==> forall j <- jobs :: !(Due(jobs[j], queues, now) && HasRoom(jobs, jobs[j], now))
      ensures !ok ==> jobs == old(jobs)
    {
      ReadyIff(jobs, queues, now);
      hide Due, HasRoom;
      id, row, ok := 0, Job(Available, 0, 0, "", 0, "", 0, 0, 0), false;
      var ready := set j | j in jobs && Ready(jobs, j, queues, now);
      if ready == {} {
        assert forall j :: Ready(jobs, j, queues, now) ==> j in ready;
        return;
      }
      ghost var first := FirstReady(jobs, ready, queues, now);
      assert Candidate(jobs, {}, first, queues, now);
      id :| id in jobs && Candidate(jobs, {}, id, queues, now);
      row, ok := Marked(jobs[id], now), true;
      jobs := jobs[id := row];
    }

    /** claimOneLocking: the earliest ready row no other transaction has locked, locked and then marked. */
    method ClaimOneLocking(queues: seq<string>, now: int, locked: set<JobId>, ghost w: World, ghost h: Handle)
      returns (id: JobId, row: Job, ok: bool, ghost v: World)
      requires jobs == w.jobs && w.cfg.rowLocking && locked == w.locks.Keys && h !in w.claims
      modifies this
      ensures ok <==> exists j :: Ready(old(jobs), j, queues, now) && j !in locked
      ensures ok ==> Candidate(old(jobs), locked, id, queues, now) && v == Run(w, [SelectRow(h, id, queues, now), MarkRow(h)])
      ensures ok ==> row == Marked(old(jobs)[id], now) && At(v, h) == Held(row) && v.locks.Keys == locked
      ensures ok ==> Due(old(jobs)[id], queues, now) && HasRoom(old(jobs), old(jobs)[id], now) && id !in locked
      ensures ok ==> row == old(jobs)[id].(state := Executing, lockedAt := now) && jobs == old(jobs)[id := row]
      ensures ok ==> forall j <- old(jobs) :: Due(old(jobs)[j], queues, now) && HasRoom(old(jobs), old(jobs)[j], now) && j !in locked ==>
        old(jobs)[id].scheduledAt <= old(jobs)[j].scheduledAt
      ensures !ok ==> forall j <- jobs :: j in locked || !(Due(jobs[j], queues, now) && HasRoom(jobs, jobs[j], now))
      ensures !ok ==> v == w
      ensures v.jobs == jobs
    {
      ReadyIff(jobs, queues, now);
      hide Due, HasRoom;
      id, row, ok, v := 0, Job(Available, 0, 0, "", 0, "", 0, 0, 0), false, w;
      var ready := set j | j in jobs && Ready(jobs, j, queues, now) && j !in locked;
      if ready == {} {
        assert forall j :: Ready(jobs, j, queues, now) && j !in locked ==> j in ready;
        return;
      }
      ghost var first := FirstReady(jobs, ready, queues, now);
      assert Candidate(jobs, locked, first, queues, now);
      id :| id in jobs && Candidate(jobs, locked, id, queues, now);
      SelectThenMark(w, h, id, queues, now);
      v := Run(w, [SelectRow(h, id, queues, now), MarkRow(h)]);
      hide Run;
      row, ok := Marked(jobs[id], now), true;
      jobs := jobs[id := row];
    }

    /**
     claim: takes rows one at a time until the batch is full, none is ready, or the
     statement numbered failAt fails; what it has claimed by then it returns all the same.
     */
    method Claim(queues: seq<string>, batchSize: nat, now: int, failAt: nat, ghost w: World, ghost first: Handle)
      returns (ids: seq<JobId>, rows: seq<Job>, failed: bool, ghost v: World)
      requires jobs == w.jobs && !w.cfg.rowLocking && forall h :: h in w.claims ==> h < first
      modifies this
      ensures |ids| <= batchSize && Batch(old(jobs), jobs, ids, rows, queues, now)
      ensures failed ==> |ids| == failAt < batchSize
      ensures !failed && |ids| < batchSize ==> forall j :: !Ready(jobs, j, queues, now)
      ensures v == AfterClaims(w, first, ids, queues, now) && v.jobs == jobs
      ensures HeldFrom(v, first, ids, rows)
    {
      hide AfterClaims, Ready, Batch, HeldFrom;
      ids, rows, failed := [], [], false;
      v := AfterClaims(w, first, ids, queues, now);
      NoClaims(w, first, queues, now);
      while |ids| < batchSize
        invariant |ids| <= batchSize && !failed && Batch(old(jobs), jobs, ids, rows, queues, now)
        invariant v == AfterClaims(w, first, ids, queues, now) && v.jobs == jobs && v.cfg == w.cfg
        invariant HeldFrom(v, first, ids, rows)
        decreases batchSize - |ids|
      {
        if |ids| == failAt {
          failed := true;
          return;
        }
        ghost var before := jobs;
        var id, row, ok := ClaimOne(queues, now);
        if !ok {
          break;
        }
        BatchGrows(old(jobs), before, ids, rows, queues, now, id);
        MoreClaimed(w, first, ids, id, queues, now);
        HeldGrows(v, first, ids, rows, queues, now, id);
        v := ClaimAtomicStep(v, first + |ids|, id, queues, now);
        ids, rows := ids + [id], rows + [row];
      }
    }

    /** finish; stored is false when the UPDATE fails, which is only logged. */
    method Finish(id: JobId, stored: bool)
      modifies this
      ensures jobs == if stored && id in old(jobs) then old(jobs)[id := old(jobs)[id].(state := Finished)] else old(jobs)
    {
      if stored && id in jobs {
        jobs := jobs[id := jobs[id].(state := Finished)];
      }
    }

    /** fail: the snapshot's attempts plus one, terminal when that reaches the maximum. */
    method Fail(id: JobId, row: Job, stored: bool, retryAt: int)
      modifies this
      ensures !stored || id !in old(jobs) ==> jobs == old(jobs)
      ensures stored && id in old(jobs) && row.attempts + 1 < row.maxAttempts ==>
        jobs == old(jobs)[id := old(jobs)[id].(state := Available, attempts := row.attempts + 1, scheduledAt := retryAt)]
      ensures stored && id in old(jobs) && row.attempts + 1 >= row.maxAttempts ==>
        jobs == old(jobs)[id := old(jobs)[id].(state := Failed, attempts := row.attempts + 1)]
    {
      var attempts := row.attempts + 1;
      if stored && id in jobs {
        var updated := jobs[id].(attempts := attempts);
        if attempts >= row.maxAttempts {
          updated := updated.(state := Failed);
        } else {
          updated := updated.(state := Available, scheduledAt := retryAt);
        }
        jobs := jobs[id := updated];
      }
    }

    /** dispatch, once the job has run: the steps of performing it and writing the outcome back. */
    method Dispatch(id: JobId, row: Job, ok: bool, stored: bool, retryAt: int, ghost w: World, ghost h: Handle) returns (ghost v: World)
      requires jobs == w.jobs && At(w, h) == Held(row) && w.claims[h].job == id && id !in w.locks
      modifies this
      ensures v == Run(w, [Perform(h, ok), Record(h, stored, retryAt)]) && v.jobs == jobs
      ensures At(v, h) == Done
      ensures !stored || id !in old(jobs) ==> jobs == old(jobs)
      ensures stored && id in old(jobs) && ok ==> jobs == old(jobs)[id := old(jobs)[id].(state := Finished)]
      ensures stored && id in old(jobs) && !ok && row.attempts + 1 < row.maxAttempts ==>
        jobs == old(jobs)[id := old(jobs)[id].(state := Available, attempts := row.attempts + 1, scheduledAt := retryAt)]
      ensures stored && id in old(jobs) && !ok && row.attempts + 1 >= row.maxAttempts ==>
        jobs == old(jobs)[id := old(jobs)[id].(state := Failed, attempts := row.attempts + 1)]
    {
      Outcome(w, h, id, row, ok, stored, retryAt);
      v := Run(w, [Perform(h, ok), Record(h, stored, retryAt)]);
      hide Run;
      if ok {
        Finish(id, stored);
        return;
      }
      Fail(id, row, stored, retryAt);
    }
  }

  lemma NoClaims(w: World, first: Handle, queues: seq<string>, now: int)
    requires forall h :: h in w.claims ==> h < first
    ensures AfterClaims(w, first, [], queues, now) == w
    ensures Batch(w.jobs, w.jobs, [], [], queues, now) && HeldFrom(w, first, [], [])
  {
  }

  lemma Outcome(w: World, h: Handle, id: JobId, row: Job, ok: bool, stored: bool, retryAt: int)
    requires At(w, h) == Held(row) && w.claims[h].job == id && id !in w.locks
    ensures var v := Run(w, [Perform(h, ok), Record(h, stored, retryAt)]);
            && At(v, h) == Done
            && v.jobs == if stored && id in w.jobs then w.jobs[id := Recorded(w.jobs[id], row, ok, retryAt)] else w.jobs
  {
    var perform, record := Perform(h, ok), Record(h, stored, retryAt);
    var mid := Next(w, perform);
    assert [perform, record][1..] == [record];
    assert Run(mid, [record]) == Run(Next(mid, record), []);
  }
}
