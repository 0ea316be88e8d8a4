/**
 The claim protocol of jobs/backend/dbqueue: any number of workers poll one table,
 claim rows, perform them and write the outcome back, while cleanup deletes old rows.

 On a database without row locks a claim is one UPDATE; with row locks it is a SELECT ...
 FOR UPDATE SKIP LOCKED and an UPDATE in one transaction. Each statement is one step, and
 a worker may crash, or have a statement fail, between any two.
 */
module DbQueue {
  type JobId = nat
  type Handle = nat      // one claim of one row, by whichever worker
  type Key = string      // "" means no concurrency limit

  const DEFAULT_MAX_ATTEMPTS := 25

  datatype JobState = Available | Executing | Finished | Failed

  datatype Job = Job(
    state: JobState,
    attempts: int,
    maxAttempts: int,
    queue: string,
    scheduledAt: int,
    key: Key,
    limit: int,
    duration: int,
    lockedAt: int
  )

  datatype Phase =
    | Selected(row: Job)             // the row is locked, not yet updated
    | Held(row: Job)                 // the claim is committed, the row about to be performed
    | Performed(row: Job, ok: bool)  // Dispatch came back
    | Done

  datatype Claim = Claim(job: JobId, now: int, phase: Phase)

  datatype Config = Config(rowLocking: bool, limit: Key -> nat, duration: Key -> int)

  datatype World = World(
    cfg: Config,
    jobs: map<JobId, Job>,
    locks: map<JobId, Handle>,
    claims: map<Handle, Claim>,
    usedJobs: set<JobId>,
    stale: set<JobId>,               // rows cleanup has selected and not deleted yet
    performed: map<JobId, nat>,      // history: calls of Dispatch per job
    budget: map<JobId, int>,         // history: MaxAttempts the job was enqueued with
    lastClaim: map<Key, int>         // history: the now of the claim committed last, per key
  )

  predicate Owner(phase: Phase) {
    phase.Held? || phase.Performed?
  }

  function AtLeastOne(n: int): int {
    if n < 1 then 1 else n
  }

  function Active(jobs: map<JobId, Job>, key: Key, t: int, duration: int): set<JobId> {
    set j | j in jobs && jobs[j].key == key && jobs[j].state == Executing && jobs[j].lockedAt > t - duration
  }

  // ----- Steps -----

  datatype Event =
    | Enqueue(job: JobId, maxAttempts: int, queue: string, scheduledAt: int, key: Key)
    | ClaimAtomic(h: Handle, job: JobId, queues: seq<string>, now: int)
    | SelectRow(h: Handle, job: JobId, queues: seq<string>, now: int)
    | MarkRow(h: Handle)
    | Perform(h: Handle, ok: bool)
    | Record(h: Handle, stored: bool, retryAt: int)   // finish or fail; stored is false when the UPDATE errors
    | Drop(h: Handle)                                 // the worker crashes, or the claim's transaction or poll fails
    | PickStale(job: JobId)
    | DeleteStale(job: JobId)

  function At(w: World, h: Handle): Phase {
    if h in w.claims then w.claims[h].phase else Done
  }

  function Move(w: World, h: Handle, phase: Phase): World
    requires h in w.claims
  {
    w.(claims := w.claims[h := w.claims[h].(phase := phase)])
  }

  /** concurrencyGuard. */
  predicate WithinLimit(jobs: map<JobId, Job>, job: Job, now: int) {
    job.key == "" || |Active(jobs, job.key, now, job.duration)| < job.limit
  }

  predicate Ready(jobs: map<JobId, Job>, j: JobId, queues: seq<string>, now: int) {
    && j in jobs && jobs[j].state == Available && jobs[j].scheduledAt <= now && jobs[j].queue in queues
    && WithinLimit(jobs, jobs[j], now)
  }

  /** The row ORDER BY scheduled_at LIMIT 1 comes back with: no ready row outside skipped was scheduled earlier. */
  predicate Candidate(jobs: map<JobId, Job>, skipped: set<JobId>, j: JobId, queues: seq<string>, now: int) {
    && Ready(jobs, j, queues, now) && j !in skipped
    && forall i | i in jobs :: Ready(jobs, i, queues, now) && i !in skipped ==> jobs[j].scheduledAt <= jobs[i].scheduledAt
  }

  function Marked(row: Job, now: int): Job {
    row.(state := Executing, lockedAt := now)
  }

  /** MaxAttempts as it is stored: the default when the caller gives none. */
  function Budget(maxAttempts: int): int {
    if maxAttempts == 0 then DEFAULT_MAX_ATTEMPTS else maxAttempts
  }

  function EnqueueStep(w: World, j: JobId, maxAttempts: int, queue: string, scheduledAt: int, key: Key): World {
    if j in w.usedJobs then w
    else
      var budget := Budget(maxAttempts);
      w.(jobs := w.jobs[j := Job(Available, 0, budget, queue, scheduledAt, key, w.cfg.limit(key), w.cfg.duration(key), 0)],
         usedJobs := w.usedJobs + {j},
         performed := w.performed[j := 0],
         budget := w.budget[j := budget])
  }

  function Claimed(w: World, j: JobId, now: int): World
    requires j in w.jobs
  {
    w.(jobs := w.jobs[j := Marked(w.jobs[j], now)],
       lastClaim := if w.jobs[j].key == "" then w.lastClaim else w.lastClaim[w.jobs[j].key := now])
  }

  /** claimOneSQLite. */
  function ClaimAtomicStep(w: World, h: Handle, j: JobId, queues: seq<string>, now: int): World {
    if w.cfg.rowLocking || h in w.claims || !Candidate(w.jobs, {}, j, queues, now) then w
    else Claimed(w, j, now).(claims := w.claims[h := Claim(j, now, Held(Marked(w.jobs[j], now)))])
  }

  /** The SELECT of claimOneLocking. */
  function SelectRowStep(w: World, h: Handle, j: JobId, queues: seq<string>, now: int): World {
    if !w.cfg.rowLocking || h in w.claims || !Candidate(w.jobs, w.locks.Keys, j, queues, now) then w
    else w.(claims := w.claims[h := Claim(j, now, Selected(w.jobs[j]))], locks := w.locks[j := h])
  }

  /** The UPDATE and COMMIT of claimOneLocking. */
  function MarkRowStep(w: World, h: Handle): World {
    if !At(w, h).Selected? || w.claims[h].job !in w.jobs then w
    else
      var j, now := w.claims[h].job, w.claims[h].now;
      Move(Claimed(w, j, now), h, Held(Marked(At(w, h).row, now))).(locks := w.locks - {j})
  }

  function PerformStep(w: World, h: Handle, ok: bool): World {
    if !At(w, h).Held? then w
    else
      var j := w.claims[h].job;
      Move(w, h, Performed(At(w, h).row, ok))
        .(performed := w.performed[j := (if j in w.performed then w.performed[j] else 0) + 1])
  }

  /** What finish or fail makes of the stored row; fail writes back its snapshot's attempts. */
  function Recorded(stored: Job, snapshot: Job, ok: bool, retryAt: int): Job {
    if ok then stored.(state := Finished)
    else if snapshot.attempts + 1 >= snapshot.maxAttempts then stored.(attempts := snapshot.attempts + 1, state := Failed)
    else stored.(attempts := snapshot.attempts + 1, state := Available, scheduledAt := retryAt)
  }

  function RecordStep(w: World, h: Handle, stored: bool, retryAt: int): World {
    if !At(w, h).Performed? then w
    else
      var j, row := w.claims[h].job, At(w, h).row;
      if !stored || j !in w.jobs then Move(w, h, Done)
      else if j in w.locks then w     // waits
      else Move(w, h, Done).(jobs := w.jobs[j := Recorded(w.jobs[j], row, At(w, h).ok, retryAt)])
  }

  function DropStep(w: World, h: Handle): World {
    if h !in w.claims then w
    else if At(w, h).Selected? then Move(w, h, Done).(locks := w.locks - {w.claims[h].job})
    else Move(w, h, Done)
  }

  function PickStaleStep(w: World, j: JobId): World {
    if j in w.jobs && w.jobs[j].state == Finished then w.(stale := w.stale + {j}) else w
  }

  function DeleteStaleStep(w: World, j: JobId): World {
    if j in w.stale && j !in w.locks then w.(jobs := w.jobs - {j}, stale := w.stale - {j}) else w
  }

  /** One step; an event that is not enabled changes nothing. */
  function Next(w: World, e: Event): World {
    match e
    case Enqueue(j, m, q, at, k) => EnqueueStep(w, j, m, q, at, k)
    case ClaimAtomic(h, j, qs, now) => ClaimAtomicStep(w, h, j, qs, now)
    case SelectRow(h, j, qs, now) => SelectRowStep(w, h, j, qs, now)
    case MarkRow(h) => MarkRowStep(w, h)
    case Perform(h, ok) => PerformStep(w, h, ok)
    case Record(h, stored, at) => RecordStep(w, h, stored, at)
    case Drop(h) => DropStep(w, h)
    case PickStale(j) => PickStaleStep(w, j)
    case DeleteStale(j) => DeleteStaleStep(w, j)
  }

  function Run(w: World, es: seq<Event>): World
    decreases |es|
  {
    if es == [] then w else Run(Next(w, es[0]), es[1..])
  }

  function Initial(cfg: Config): World {
    World(cfg, map[], map[], map[], {}, {}, map[], map[], map[])
  }

  /** Every world some interleaving of any workers, crashes and cleanups leads to. */
  ghost predicate Reachable(w: World) {
    exists cfg: Config, es: seq<Event> :: w == Run(Initial(cfg), es)
  }
}
