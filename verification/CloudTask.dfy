/**
 The claim protocol of jobs/backend/cloudtask: any number of HTTP pushes race over job
 rows and per-key slot rows, while cleanup deletes rows beside them.

 Every SQL statement is one step. A claim transaction keeps its writes private until it
 commits, holds explicit row locks until it ends, and reads committed rows overlaid with
 its own. A push may crash, or have a statement fail, between any two steps.
 */
module CloudTask {
  import opened Results

  type JobId = nat
  type SlotId = nat
  type PushId = nat
  type Key = string      // "" means no concurrency limit

  const DEFAULT_MAX_ATTEMPTS := 25

  datatype JobState = Pending | Executing | Finished | Failed

  datatype Job = Job(
    state: JobState,
    attempts: int,
    maxAttempts: int,
    key: Key,
    limit: int,
    duration: int,
    lockedAt: int
  )

  /** A row of cloudtask_concurrency_slots; inserter is the transaction that has not committed it yet. */
  datatype Slot = Slot(key: Key, createdAt: int, inserter: Option<PushId>)

  datatype Phase =
    | Arrived                                      // about to lock the job row
    | Locked(row: Job)                             // row lock held, row as read: pending, attempts left
    | Marked(row: Job)                             // private UPDATE to executing
    | Ensured(row: Job)                            // after INSERT ... ON CONFLICT DO NOTHING
    | Holding(row: Job, slot: SlotId)              // slot row locked
    | Counted(row: Job, slot: SlotId, over: bool)  // active rows counted
    | Owned(row: Job)                              // claim committed, about to dispatch
    | Returned(row: Job, ok: bool)                 // Dispatch came back
    | Answered(code: int)
    | Crashed

  datatype Push = Push(job: JobId, now: int, phase: Phase)

  datatype Config = Config(limit: Key -> nat, duration: Key -> int)

  datatype World = World(
    cfg: Config,
    jobs: map<JobId, Job>,
    slots: map<SlotId, Slot>,
    jobLocks: map<JobId, PushId>,
    slotLocks: map<SlotId, PushId>,
    pushes: map<PushId, Push>,
    usedJobs: set<JobId>,
    usedSlots: set<SlotId>,
    staleJobs: set<JobId>,             // rows cleanupJobs has selected and not deleted yet
    idleSlots: set<SlotId>,            // rows cleanupSlots has found idle and not deleted yet
    dispatches: map<JobId, nat>,       // history: calls of Dispatch per job
    budget: map<JobId, int>,           // history: MaxAttempts the job was enqueued with
    lastClaim: map<Key, int>           // history: the now of the claim committed last, per key
  )

  /** How often a job may be attempted: never, when MaxAttempts is negative. */
  function Allowed(maxAttempts: int): nat {
    if maxAttempts < 0 then 0 else maxAttempts
  }

  predicate InTx(phase: Phase) {
    phase.Locked? || phase.Marked? || phase.Ensured? || phase.Holding? || phase.Counted?
  }

  predicate Owner(phase: Phase) {
    phase.Owned? || phase.Returned?
  }

  /** The rows counted against key's limit at time t, for a window of the given length. */
  function Active(jobs: map<JobId, Job>, key: Key, t: int, duration: int): set<JobId> {
    set j | j in jobs && jobs[j].key == key && jobs[j].state == Executing && jobs[j].lockedAt > t - duration
  }

  // ----- Steps -----

  datatype Event =
    | Enqueue(job: JobId, maxAttempts: int, key: Key)
    | Withdraw(job: JobId)                    // Enqueue deletes its row when CreateTask failed
    | Arrive(push: PushId, job: JobId, now: int)
    | LockRow(push: PushId)
    | Mark(push: PushId)
    | CommitUnlimited(push: PushId)
    | EnsureSlot(push: PushId, slot: SlotId)
    | LockSlot(push: PushId, slot: SlotId)
    | Count(push: PushId)
    | CommitClaim(push: PushId)
    | Dispatch(push: PushId, ok: bool)
    | Record(push: PushId, stored: bool)      // finish or fail; stored is false when the UPDATE errors
    | StatementError(push: PushId)            // rolls the claim back and answers 500
    | Crash(push: PushId)
    | PickStaleJob(job: JobId)
    | DeleteStaleJob(job: JobId)
    | FindIdleSlot(slot: SlotId)
    | DeleteIdleSlot(slot: SlotId)

  function At(w: World, p: PushId): Phase {
    if p in w.pushes then w.pushes[p].phase else Crashed
  }

  function Move(w: World, p: PushId, phase: Phase): World
    requires p in w.pushes
  {
    w.(pushes := w.pushes[p := w.pushes[p].(phase := phase)])
  }

  /** Ends a transaction: its locks are released; a slot it inserted is kept or dropped. */
  function EndTx(w: World, p: PushId, keepSlot: bool): World {
    w.(jobLocks := map j | j in w.jobLocks && w.jobLocks[j] != p :: w.jobLocks[j],
       slotLocks := map s | s in w.slotLocks && w.slotLocks[s] != p :: w.slotLocks[s],
       slots := if keepSlot then
                  map s | s in w.slots :: if w.slots[s].inserter == Some(p) then w.slots[s].(inserter := None) else w.slots[s]
                else
                  map s | s in w.slots && w.slots[s].inserter != Some(p) :: w.slots[s])
  }

  function EnqueueStep(w: World, j: JobId, maxAttempts: int, key: Key): World {
    if j in w.usedJobs then w
    else
      var budget := if maxAttempts == 0 then DEFAULT_MAX_ATTEMPTS else maxAttempts;
      w.(jobs := w.jobs[j := Job(Pending, 0, budget, key, w.cfg.limit(key), w.cfg.duration(key), 0)],
         usedJobs := w.usedJobs + {j},
         dispatches := w.dispatches[j := 0],
         budget := w.budget[j := budget])
  }

  function WithdrawStep(w: World, j: JobId): World {
    if j in w.jobs && j !in w.jobLocks then w.(jobs := w.jobs - {j}) else w
  }

  function ArriveStep(w: World, p: PushId, j: JobId, now: int): World {
    if p in w.pushes then w else w.(pushes := w.pushes[p := Push(j, now, Arrived)])
  }

  /** A row a claim may take. */
  predicate Eligible(w: World, j: JobId) {
    j in w.jobs && w.jobs[j].state == Pending && w.jobs[j].attempts < w.jobs[j].maxAttempts
  }

  /** SELECT ... FOR UPDATE, waiting for the lock, and the checks on the row it returns. */
  function LockRowStep(w: World, p: PushId): World {
    if !At(w, p).Arrived? then w
    else
      var j := w.pushes[p].job;
      if j in w.jobLocks then w                                     // waits
      else if j !in w.jobs then Move(w, p, Answered(200))           // claimSkip: no such row
      else if w.jobs[j].state != Pending then Move(w, p, Answered(200))                  // claimSkip
      else if w.jobs[j].attempts >= w.jobs[j].maxAttempts then Move(w, p, Answered(200)) // claimExhausted
      else Move(w, p, Locked(w.jobs[j])).(jobLocks := w.jobLocks[j := p])
  }

  function MarkStep(w: World, p: PushId): World {
    if !At(w, p).Locked? then w
    else
      var push := w.pushes[p];
      var row := push.phase.row;
      Move(w, p, Marked(row.(attempts := row.attempts + 1, state := Executing, lockedAt := push.now)))
  }

  function CommitUnlimitedStep(w: World, p: PushId): World {
    if !At(w, p).Marked? || At(w, p).row.key != "" then w
    else
      var row := At(w, p).row;
      EndTx(Move(w, p, Owned(row)), p, true).(jobs := w.jobs[w.pushes[p].job := row])
  }

  /** The world after the claim has inserted slot row s. */
  function Inserted(w: World, p: PushId, s: SlotId): World
    requires At(w, p).Marked?
  {
    Move(w, p, Ensured(At(w, p).row)).(slots := w.slots[s := Slot(At(w, p).row.key, w.pushes[p].now, Some(p))],
                                       slotLocks := w.slotLocks[s := p],
                                       usedSlots := w.usedSlots + {s})
  }

  function EnsureSlotStep(w: World, p: PushId, s: SlotId): World {
    if !At(w, p).Marked? || At(w, p).row.key == "" then w
    else
      var row := At(w, p).row;
      if exists x | x in w.slots :: w.slots[x].key == row.key && w.slots[x].inserter.Some? then w  // waits on the unique index
      else if exists x | x in w.slots :: w.slots[x].key == row.key then Move(w, p, Ensured(row))   // DO NOTHING
      else if s in w.usedSlots then w
      else
        Inserted(w, p, s)
  }

  /** SELECT ... FOR UPDATE on the slot; when cleanup has just deleted it, the claim fails (StatementError). */
  function LockSlotStep(w: World, p: PushId, s: SlotId): World {
    if !At(w, p).Ensured? then w
    else
      var row := At(w, p).row;
      if s !in w.slots || w.slots[s].key != row.key then w
      else if w.slots[s].inserter.Some? && w.slots[s].inserter != Some(p) then w        // not visible
      else if s in w.slotLocks && w.slotLocks[s] != p then w                            // waits
      else Move(w, p, Holding(row, s)).(slotLocks := w.slotLocks[s := p])
  }

  /** The count sees committed rows and, over them, the row this transaction has marked. */
  function CountStep(w: World, p: PushId): World {
    if !At(w, p).Holding? then w
    else
      var row, now := At(w, p).row, w.pushes[p].now;
      var count := |Active(w.jobs[w.pushes[p].job := row], row.key, now, row.duration)|;
      Move(w, p, Counted(row, At(w, p).slot, count > row.limit))
  }

  function CommitClaimStep(w: World, p: PushId): World {
    if !At(w, p).Counted? then w
    else
      var row, j := At(w, p).row, w.pushes[p].job;
      if At(w, p).over then
        // release the claim and undo the attempt bump
        EndTx(Move(w, p, Answered(429)), p, true)
          .(jobs := w.jobs[j := row.(attempts := row.attempts - 1, state := Pending)])
      else
        EndTx(Move(w, p, Owned(row)), p, true)
          .(jobs := w.jobs[j := row], lastClaim := w.lastClaim[row.key := w.pushes[p].now])
  }

  function DispatchStep(w: World, p: PushId, ok: bool): World {
    if !At(w, p).Owned? then w
    else
      var j := w.pushes[p].job;
      Move(w, p, Returned(At(w, p).row, ok))
        .(dispatches := w.dispatches[j := (if j in w.dispatches then w.dispatches[j] else 0) + 1])
  }

  function RecordStep(w: World, p: PushId, stored: bool): World {
    if !At(w, p).Returned? then w
    else
      var row, j := At(w, p).row, w.pushes[p].job;
      var exhausted := row.attempts >= row.maxAttempts;
      var state := if At(w, p).ok then Finished else if exhausted then Failed else Pending;
      var answered := Move(w, p, Answered(if At(w, p).ok || exhausted then 200 else 500));
      if !stored || j !in w.jobs then answered
      else if j in w.jobLocks then w   // waits
      else answered.(jobs := w.jobs[j := w.jobs[j].(state := state)])
  }

  function StatementErrorStep(w: World, p: PushId): World {
    if At(w, p).Arrived? || InTx(At(w, p)) then EndTx(Move(w, p, Answered(500)), p, false) else w
  }

  function CrashStep(w: World, p: PushId): World {
    if p in w.pushes && !At(w, p).Answered? then EndTx(Move(w, p, Crashed), p, false) else w
  }

  /** cleanupJobs: selecting finished and failed rows, then deleting them by id. */
  function PickStaleJobStep(w: World, j: JobId): World {
    if j in w.jobs && (w.jobs[j].state == Finished || w.jobs[j].state == Failed)
    then w.(staleJobs := w.staleJobs + {j}) else w
  }

  function DeleteStaleJobStep(w: World, j: JobId): World {
    if j in w.staleJobs && j !in w.jobLocks then w.(jobs := w.jobs - {j}, staleJobs := w.staleJobs - {j}) else w
  }

  /** cleanupSlots: the check for executing rows and the delete are separate statements. */
  function FindIdleSlotStep(w: World, s: SlotId): World {
    if s in w.slots && w.slots[s].inserter.None?
       && !exists j | j in w.jobs :: w.jobs[j].key == w.slots[s].key && w.jobs[j].state == Executing
    then w.(idleSlots := w.idleSlots + {s}) else w
  }

  function DeleteIdleSlotStep(w: World, s: SlotId): World {
    if s in w.idleSlots && s !in w.slotLocks && !(s in w.slots && w.slots[s].inserter.Some?)
    then w.(slots := w.slots - {s}, idleSlots := w.idleSlots - {s}) else w
  }

  /** One step; an event that is not enabled changes nothing. */
  function Next(w: World, e: Event): World {
    match e
    case Enqueue(j, m, k) => EnqueueStep(w, j, m, k)
    case Withdraw(j) => WithdrawStep(w, j)
    case Arrive(p, j, now) => ArriveStep(w, p, j, now)
    case LockRow(p) => LockRowStep(w, p)
    case Mark(p) => MarkStep(w, p)
    case CommitUnlimited(p) => CommitUnlimitedStep(w, p)
    case EnsureSlot(p, s) => EnsureSlotStep(w, p, s)
    case LockSlot(p, s) => LockSlotStep(w, p, s)
    case Count(p) => CountStep(w, p)
    case CommitClaim(p) => CommitClaimStep(w, p)
    case Dispatch(p, ok) => DispatchStep(w, p, ok)
    case Record(p, stored) => RecordStep(w, p, stored)
    case StatementError(p) => StatementErrorStep(w, p)
    case Crash(p) => CrashStep(w, p)
    case PickStaleJob(j) => PickStaleJobStep(w, j)
    case DeleteStaleJob(j) => DeleteStaleJobStep(w, j)
    case FindIdleSlot(s) => FindIdleSlotStep(w, s)
    case DeleteIdleSlot(s) => DeleteIdleSlotStep(w, s)
  }

  function Run(w: World, es: seq<Event>): World
    decreases |es|
  {
    if es == [] then w else Run(Next(w, es[0]), es[1..])
  }

  function Initial(cfg: Config): World {
    World(cfg, map[], map[], map[], map[], map[], {}, {}, {}, {}, map[], map[], map[])
  }

  /** Every world some interleaving of any pushes, crashes and cleanups leads to. */
  ghost predicate Reachable(w: World) {
    exists cfg: Config, es: seq<Event> :: (forall k :: cfg.duration(k) > 0) && w == Run(Initial(cfg), es)
  }
}
