/**
 The backend's own code, statement by statement, on the two tables it works on: claiming,
 finishing, failing and answering a push; each method is tied to the steps it stands for.
 */
module CloudTaskBackend {
  import opened Results
  import opened CloudTask

  // What is proved of those steps for every interleaving, in CloudTaskSafety, is so proved about this code.

  datatype ClaimResult = ClaimExecute | ClaimSkip | ClaimDeferred | ClaimExhausted

  /** w after the statements of one claim transaction; after the one that ends it, the rest change nothing. */
  function AfterClaim(w: World, p: PushId, jobID: JobId, now: int, newSlot: SlotId, slot: SlotId): World {
    var locked := Next(Next(w, Arrive(p, jobID, now)), LockRow(p));
    var marked := Next(Next(locked, Mark(p)), CommitUnlimited(p));
    var holding := Next(Next(marked, EnsureSlot(p, newSlot)), LockSlot(p, slot));
    Next(Next(holding, Count(p)), CommitClaim(p))
  }

  /** No transaction is open. */
  ghost predicate Quiet(w: World) {
    w.jobLocks == map[] && w.slotLocks == map[] && forall s :: s in w.slots ==> w.slots[s].inserter.None?
  }

  lemma ClaimSteps(w: World, p: PushId, jobID: JobId, now: int, newSlot: SlotId, slot: SlotId)
    ensures AfterClaim(w, p, jobID, now, newSlot, slot) == Claimed(w, p, jobID, now, newSlot, slot)
  {
    hide ArriveStep, LockRowStep, MarkStep, CommitUnlimitedStep, EnsureSlotStep, LockSlotStep, CountStep, CommitClaimStep;
  }

  function Claimed(w: World, p: PushId, jobID: JobId, now: int, newSlot: SlotId, slot: SlotId): World {
    var marked := MarkStep(LockRowStep(ArriveStep(w, p, jobID, now), p), p);
    Ending(CommitUnlimitedStep(marked, p), p, newSlot, slot)
  }

  /** The statements a claim with a concurrency key goes on to. */
  function Ending(w: World, p: PushId, newSlot: SlotId, slot: SlotId): World {
    CommitClaimStep(CountStep(LockSlotStep(EnsureSlotStep(w, p, newSlot), p, slot), p), p)
  }

  function Bumped(row: Job, now: int): Job {
    row.(attempts := row.attempts + 1, state := Executing, lockedAt := now)
  }

  /** w with push p standing at the given phase, and nothing else changed. */
  function Standing(w: World, p: PushId, jobID: JobId, now: int, phase: Phase): World {
    w.(pushes := w.pushes[p := Push(jobID, now, phase)])
  }

  /** A push whose claim is over takes no further claim step. */
  lemma ClaimOver(w: World, p: PushId, newSlot: SlotId, slot: SlotId)
    requires At(w, p).Owned? || At(w, p).Answered?
    ensures MarkStep(w, p) == w && CommitUnlimitedStep(w, p) == w && Ending(w, p, newSlot, slot) == w
  {
    assert EnsureSlotStep(w, p, newSlot) == w && LockSlotStep(w, p, slot) == w && CountStep(w, p) == w && CommitClaimStep(w, p) == w;
  }

  /** The slot table as a commit makes it. */
  function Visible(slots: map<SlotId, Slot>): map<SlotId, Slot> {
    map s | s in slots :: slots[s].(inserter := None)
  }

  lemma MoveStanding(w: World, p: PushId, jobID: JobId, now: int, phase: Phase, next: Phase)
    ensures Move(Standing(w, p, jobID, now, phase), p, next) == Standing(w, p, jobID, now, next)
  {
    assert w.pushes[p := Push(jobID, now, phase)][p := Push(jobID, now, next)] == w.pushes[p := Push(jobID, now, next)];
  }

  lemma SkippedClaim(w: World, p: PushId, jobID: JobId, now: int, newSlot: SlotId, slot: SlotId)
    requires Quiet(w) && p !in w.pushes && !Eligible(w, jobID)
    ensures AfterClaim(w, p, jobID, now, newSlot, slot) == Standing(w, p, jobID, now, Answered(200))
  {
    hide AfterClaim, MarkStep, CommitUnlimitedStep, Ending, Move;
    ClaimSteps(w, p, jobID, now, newSlot, slot);
    assert ArriveStep(w, p, jobID, now) == Standing(w, p, jobID, now, Arrived);
    MoveStanding(w, p, jobID, now, Arrived, Answered(200));
    assert LockRowStep(ArriveStep(w, p, jobID, now), p) == Standing(w, p, jobID, now, Answered(200));
    ClaimOver(Standing(w, p, jobID, now, Answered(200)), p, newSlot, slot);
  }

  /** An eligible row is locked and marked, the mark seen by no one else yet. */
  lemma MarkedClaim(w: World, p: PushId, jobID: JobId, now: int)
    requires Quiet(w) && p !in w.pushes && Eligible(w, jobID)
    ensures MarkStep(LockRowStep(ArriveStep(w, p, jobID, now), p), p)
            == Standing(w, p, jobID, now, Marked(Bumped(w.jobs[jobID], now))).(jobLocks := map[jobID := p])
  {
    var arrived := Standing(w, p, jobID, now, Arrived);
    assert ArriveStep(w, p, jobID, now) == arrived;
    LockedClaim(w, p, jobID, now);
    hide LockRowStep, ArriveStep, Move;
    var with := w.(jobLocks := map[jobID := p]);
    MoveStanding(with, p, jobID, now, Locked(w.jobs[jobID]), Marked(Bumped(w.jobs[jobID], now)));
  }

  lemma LockedClaim(w: World, p: PushId, jobID: JobId, now: int)
    requires Quiet(w) && Eligible(w, jobID)
    ensures LockRowStep(Standing(w, p, jobID, now, Arrived), p) == Standing(w, p, jobID, now, Locked(w.jobs[jobID])).(jobLocks := map[jobID := p])
  {
    hide Move;
    MoveStanding(w, p, jobID, now, Arrived, Locked(w.jobs[jobID]));
  }

  lemma UnlimitedClaim(w: World, p: PushId, jobID: JobId, now: int, newSlot: SlotId, slot: SlotId)
    requires Quiet(w) && p !in w.pushes && Eligible(w, jobID) && w.jobs[jobID].key == ""
    ensures var row := Bumped(w.jobs[jobID], now);
            AfterClaim(w, p, jobID, now, newSlot, slot) == Standing(w, p, jobID, now, Owned(row)).(jobs := w.jobs[jobID := row])
  {
    hide AfterClaim, ArriveStep, LockRowStep, MarkStep, Ending, EndTx;
    var row := Bumped(w.jobs[jobID], now);
    ClaimSteps(w, p, jobID, now, newSlot, slot);
    MarkedClaim(w, p, jobID, now);
    var marked := Standing(w, p, jobID, now, Marked(row)).(jobLocks := map[jobID := p]);
    var v := Standing(w, p, jobID, now, Owned(row)).(jobs := w.jobs[jobID := row]);
    EndedQuiet(marked, p, Owned(row));
    assert w.slots == Visible(w.slots);
    assert CommitUnlimitedStep(marked, p) == v;
    ClaimOver(v, p, newSlot, slot);
  }

  /** A transaction that ends where no other is open leaves no lock behind. */
  lemma EndedQuiet(w: World, p: PushId, phase: Phase)
    requires p in w.pushes
    requires forall j :: j in w.jobLocks ==> w.jobLocks[j] == p
    requires forall s :: s in w.slotLocks ==> w.slotLocks[s] == p
    requires forall s :: s in w.slots && w.slots[s].inserter.Some? ==> w.slots[s].inserter == Some(p)
    ensures EndTx(Move(w, p, phase), p, true) == Move(w, p, phase).(jobLocks := map[], slotLocks := map[], slots := Visible(w.slots))
  {
  }

  /** The committed slot rows hold one for key, namely this. */
  predicate HasSlot(w: World, key: Key, slot: SlotId) {
    slot in w.slots && w.slots[slot].key == key
  }

  /** w once the slot row of key exists: as it is, or with the row newSlot. */
  function WithSlot(w: World, key: Key, now: int, newSlot: SlotId, inserter: Option<PushId>): World {
    if exists s | s in w.slots :: HasSlot(w, key, s) then w
    else w.(slots := w.slots[newSlot := Slot(key, now, inserter)], usedSlots := w.usedSlots + {newSlot})
  }

  /** Where a claim with a key stands once its slot is locked. */
  function Held(w: World, p: PushId, jobID: JobId, now: int, phase: Phase, slot: SlotId): World {
    Standing(w, p, jobID, now, phase).(jobLocks := map[jobID := p], slotLocks := map[slot := p])
  }

  /** With the row marked, the claim inserts the slot row unless it exists, and locks it. */
  lemma HoldingClaim(w: World, p: PushId, jobID: JobId, now: int, row: Job, newSlot: SlotId, slot: SlotId)
    requires Quiet(w) && row.key != "" && newSlot !in w.usedSlots && newSlot !in w.slots
    requires HasSlot(WithSlot(w, row.key, now, newSlot, Some(p)), row.key, slot)
    ensures var marked := Standing(w, p, jobID, now, Marked(row)).(jobLocks := map[jobID := p]);
            LockSlotStep(EnsureSlotStep(marked, p, newSlot), p, slot)
            == Held(WithSlot(w, row.key, now, newSlot, Some(p)), p, jobID, now, Holding(row, slot), slot)
  {
    var marked := Standing(w, p, jobID, now, Marked(row)).(jobLocks := map[jobID := p]);
    hide EnsureSlotStep, LockSlotStep;
    if exists s | s in w.slots :: HasSlot(w, row.key, s) {
      ConflictingClaim(w, p, jobID, now, row, newSlot);
      assert w.slots[slot].inserter.None? && w.slotLocks == map[];
      LockingClaim(w, p, jobID, now, row, slot);
    } else {
      InsertingClaim(w, p, jobID, now, row, newSlot);
      var with := WithSlot(w, row.key, now, newSlot, Some(p));
      assert slot == newSlot;
      LockingClaim(with.(slotLocks := map[slot := p]), p, jobID, now, row, slot);
    }
  }

  /** The slot row is locked when it is committed, or the claim's own, and no one else has it locked. */
  lemma LockingClaim(w: World, p: PushId, jobID: JobId, now: int, row: Job, slot: SlotId)
    requires HasSlot(w, row.key, slot) && (w.slots[slot].inserter.None? || w.slots[slot].inserter == Some(p))
    requires w.slotLocks == map[] || w.slotLocks == map[slot := p]
    ensures LockSlotStep(Standing(w, p, jobID, now, Ensured(row)).(jobLocks := map[jobID := p]), p, slot)
            == Held(w, p, jobID, now, Holding(row, slot), slot)
  {
    hide Move;
    MoveStanding(w.(jobLocks := map[jobID := p]), p, jobID, now, Ensured(row), Holding(row, slot));
  }

  lemma ConflictingClaim(w: World, p: PushId, jobID: JobId, now: int, row: Job, newSlot: SlotId)
    requires Quiet(w) && row.key != "" && exists s | s in w.slots :: HasSlot(w, row.key, s)
    ensures var marked := Standing(w, p, jobID, now, Marked(row)).(jobLocks := map[jobID := p]);
            EnsureSlotStep(marked, p, newSlot) == Standing(w, p, jobID, now, Ensured(row)).(jobLocks := map[jobID := p])
  {
    var s :| s in w.slots && HasSlot(w, row.key, s);
    var marked := Standing(w, p, jobID, now, Marked(row)).(jobLocks := map[jobID := p]);
    hide Move;
    MoveStanding(w.(jobLocks := map[jobID := p]), p, jobID, now, Marked(row), Ensured(row));
    assert s in marked.slots && marked.slots[s].key == row.key;
    assert marked.slots == w.slots && At(marked, p) == Marked(row);
  }

  lemma InsertingClaim(w: World, p: PushId, jobID: JobId, now: int, row: Job, newSlot: SlotId)
    requires Quiet(w) && row.key != "" && newSlot !in w.usedSlots && !exists s | s in w.slots :: HasSlot(w, row.key, s)
    ensures var marked := Standing(w, p, jobID, now, Marked(row)).(jobLocks := map[jobID := p]);
            EnsureSlotStep(marked, p, newSlot)
            == Held(WithSlot(w, row.key, now, newSlot, Some(p)), p, jobID, now, Ensured(row), newSlot)
  {
    var marked := Standing(w, p, jobID, now, Marked(row)).(jobLocks := map[jobID := p]);
    assert marked.slots == w.slots && At(marked, p) == Marked(row) && marked.pushes[p].now == now;
    assert EnsureSlotStep(marked, p, newSlot) == Inserted(marked, p, newSlot) by {
      hide Inserted, Held, WithSlot;
      assert forall s | s in marked.slots :: !HasSlot(w, row.key, s) && marked.slots[s].key != row.key;
    }
    hide EnsureSlotStep;
    MoveStanding(w.(jobLocks := map[jobID := p]), p, jobID, now, Marked(row), Ensured(row));
  }

  /** What the claim leaves: over the limit, the row pending again with its attempts; else the row taken. */
  function Settled(w: World, p: PushId, jobID: JobId, now: int, row: Job): World {
    if |Active(w.jobs[jobID := row], row.key, now, row.duration)| > row.limit then
      Standing(w, p, jobID, now, Answered(429)).(jobs := w.jobs[jobID := row.(attempts := row.attempts - 1, state := Pending)])
    else
      Standing(w, p, jobID, now, Owned(row)).(jobs := w.jobs[jobID := row], lastClaim := w.lastClaim[row.key := now])
  }

  lemma SettledClaim(w: World, p: PushId, jobID: JobId, now: int, row: Job, newSlot: SlotId, slot: SlotId)
    requires Quiet(w) && newSlot !in w.slots
    ensures CommitClaimStep(CountStep(Held(WithSlot(w, row.key, now, newSlot, Some(p)), p, jobID, now, Holding(row, slot), slot), p), p)
            == Settled(WithSlot(w, row.key, now, newSlot, None), p, jobID, now, row)
  {
    hide EndTx, CountStep, CommitClaimStep, Active, Settled, WithSlot, Quiet;
    var with, open := WithSlot(w, row.key, now, newSlot, None), WithSlot(w, row.key, now, newSlot, Some(p));
    var over := |Active(w.jobs[jobID := row], row.key, now, row.duration)| > row.limit;
    SlotPresent(w, p, row.key, now, newSlot);
    CountingClaim(open, p, jobID, now, row, slot);
    EndedClaim(with, open, p, jobID, now, Counted(row, slot, over), if over then Answered(429) else Owned(row), slot);
    CommittedClaim(with, Held(open, p, jobID, now, Counted(row, slot, over), slot), p, jobID, now, row, slot, over);
  }

  /** with and open are w with the slot row there, committed in the one and perhaps p's own in the other. */
  ghost predicate SlotRows(w: World, with: World, open: World, p: PushId) {
    && Quiet(with) && open == with.(slots := open.slots)
    && with.slots == Visible(open.slots)
    && (forall s :: s in open.slots && open.slots[s].inserter.Some? ==> open.slots[s].inserter == Some(p))
    && with.jobs == w.jobs && with.dispatches == w.dispatches
  }

  lemma SlotPresent(w: World, p: PushId, key: Key, now: int, newSlot: SlotId)
    requires Quiet(w) && newSlot !in w.slots
    ensures SlotRows(w, WithSlot(w, key, now, newSlot, None), WithSlot(w, key, now, newSlot, Some(p)), p)
  {
    hide SlotRows;
    if exists s | s in w.slots :: HasSlot(w, key, s) {
      SlotKept(w, p);
    } else {
      SlotAdded(w, p, key, now, newSlot);
    }
  }

  lemma SlotKept(w: World, p: PushId)
    requires Quiet(w)
    ensures SlotRows(w, w, w, p)
  {
    assert w.slots == Visible(w.slots);
  }

  lemma SlotAdded(w: World, p: PushId, key: Key, now: int, newSlot: SlotId)
    requires Quiet(w) && newSlot !in w.slots
    ensures var with := w.(slots := w.slots[newSlot := Slot(key, now, None)], usedSlots := w.usedSlots + {newSlot});
            SlotRows(w, with, with.(slots := w.slots[newSlot := Slot(key, now, Some(p))]), p)
  {
    InsertedSlot(w.slots, newSlot, key, now, p);
  }

  lemma InsertedSlot(slots: map<SlotId, Slot>, newSlot: SlotId, key: Key, now: int, p: PushId)
    requires newSlot !in slots && forall s :: s in slots ==> slots[s].inserter.None?
    ensures var open := slots[newSlot := Slot(key, now, Some(p))];
            slots[newSlot := Slot(key, now, None)] == Visible(open)
  {
  }

  lemma CountingClaim(w: World, p: PushId, jobID: JobId, now: int, row: Job, slot: SlotId)
    ensures var over := |Active(w.jobs[jobID := row], row.key, now, row.duration)| > row.limit;
            CountStep(Held(w, p, jobID, now, Holding(row, slot), slot), p) == Held(w, p, jobID, now, Counted(row, slot, over), slot)
  {
  }

  /** The commit makes the inserted slot row everyone's and frees both locks. */
  lemma EndedClaim(w: World, open: World, p: PushId, jobID: JobId, now: int, phase: Phase, next: Phase, slot: SlotId)
    requires Quiet(w) && open == w.(slots := open.slots)
    requires w.slots == Visible(open.slots)
    requires forall s :: s in open.slots && open.slots[s].inserter.Some? ==> open.slots[s].inserter == Some(p)
    ensures EndTx(Move(Held(open, p, jobID, now, phase, slot), p, next), p, true) == Standing(w, p, jobID, now, next)
  {
    hide EndTx;
    var held := Held(open, p, jobID, now, phase, slot);
    assert Move(held, p, next) == Held(open, p, jobID, now, next, slot) by {
      assert held.pushes[p := Push(jobID, now, next)] == open.pushes[p := Push(jobID, now, next)];
    }
    EndedQuiet(held, p, next);
    assert Visible(held.slots) == w.slots;
  }

  lemma CommittedClaim(w: World, counted: World, p: PushId, jobID: JobId, now: int, row: Job, slot: SlotId, over: bool)
    requires At(counted, p) == Counted(row, slot, over) && counted.pushes[p].job == jobID && counted.pushes[p].now == now
    requires counted.jobs == w.jobs && counted.lastClaim == w.lastClaim
    requires over == (|Active(w.jobs[jobID := row], row.key, now, row.duration)| > row.limit)
    requires var phase := if over then Answered(429) else Owned(row);
             EndTx(Move(counted, p, phase), p, true) == Standing(w, p, jobID, now, phase)
    ensures CommitClaimStep(counted, p) == Settled(w, p, jobID, now, row)
  {
    hide EndTx, Active;
  }

  lemma LimitedClaim(w: World, p: PushId, jobID: JobId, now: int, newSlot: SlotId, slot: SlotId)
    requires Quiet(w) && p !in w.pushes && Eligible(w, jobID) && newSlot !in w.usedSlots && newSlot !in w.slots
    requires w.jobs[jobID].key != "" && HasSlot(WithSlot(w, w.jobs[jobID].key, now, newSlot, Some(p)), w.jobs[jobID].key, slot)
    ensures var row := Bumped(w.jobs[jobID], now);
            AfterClaim(w, p, jobID, now, newSlot, slot)
            == Settled(WithSlot(w, row.key, now, newSlot, None), p, jobID, now, row)
  {
    hide AfterClaim, ArriveStep, LockRowStep, MarkStep, EnsureSlotStep, LockSlotStep, CountStep, CommitClaimStep;
    hide WithSlot, Settled;
    var row := Bumped(w.jobs[jobID], now);
    ClaimSteps(w, p, jobID, now, newSlot, slot);
    MarkedClaim(w, p, jobID, now);
    var marked := Standing(w, p, jobID, now, Marked(row)).(jobLocks := map[jobID := p]);
    assert CommitUnlimitedStep(marked, p) == marked;
    HoldingClaim(w, p, jobID, now, row, newSlot, slot);
    SettledClaim(w, p, jobID, now, row, newSlot, slot);
  }

  /** What push p has come to in v, for each result of its claim on w. */
  ghost predicate ClaimAnswers(w: World, v: World, p: PushId, jobID: JobId, row: Job, result: ClaimResult) {
    && p in v.pushes && v.pushes[p].job == jobID && v.dispatches == w.dispatches
    && match result
       case ClaimExecute => At(v, p) == Owned(row) && jobID in v.jobs && v.jobs[jobID] == row
       case ClaimDeferred => At(v, p) == Answered(429)
       case _ => At(v, p) == Answered(200) && v.jobs == w.jobs
  }

  lemma SettledAnswers(w: World, p: PushId, jobID: JobId, now: int, row: Job)
    requires Quiet(w)
    ensures var over := |Active(w.jobs[jobID := row], row.key, now, row.duration)| > row.limit;
            var v := Settled(w, p, jobID, now, row);
            && ClaimAnswers(w, v, p, jobID, row, if over then ClaimDeferred else ClaimExecute)
            && Quiet(v) && v.slots == w.slots
            && v.jobs == w.jobs[jobID := if over then row.(attempts := row.attempts - 1, state := Pending) else row]
  {
    hide Active;
  }

  lemma UnlimitedAnswers(w: World, p: PushId, jobID: JobId, now: int, row: Job)
    requires Quiet(w)
    ensures var v := Standing(w, p, jobID, now, Owned(row)).(jobs := w.jobs[jobID := row]);
            ClaimAnswers(w, v, p, jobID, row, ClaimExecute) && Quiet(v) && v.jobs == w.jobs[jobID := row] && v.slots == w.slots
  {
  }

  lemma SkippedAnswers(w: World, p: PushId, jobID: JobId, now: int)
    requires Quiet(w)
    ensures var v := Standing(w, p, jobID, now, Answered(200));
            && (forall row, result: ClaimResult :: result.ClaimSkip? || result.ClaimExhausted? ==>
                  ClaimAnswers(w, v, p, jobID, row, result))
            && Quiet(v) && v.jobs == w.jobs && v.slots == w.slots
  {
  }

  function Code(row: Job, ok: bool): int {
    if ok || row.attempts >= row.maxAttempts then 200 else 500
  }

  /** The state finish or fail stores. */
  function Outcome(row: Job, ok: bool): JobState {
    if ok then Finished else if row.attempts >= row.maxAttempts then Failed else Pending
  }

  /** w after the steps of a push once its claim is committed. */
  function AfterPerform(w: World, p: PushId, ok: bool, stored: bool): World {
    Next(Next(w, Dispatch(p, ok)), Record(p, stored))
  }

  lemma Performed(w: World, p: PushId, row: Job, ok: bool, stored: bool)
    requires Quiet(w) && At(w, p) == Owned(row)
    ensures var v := AfterPerform(w, p, ok, stored);
            var j := w.pushes[p].job;
            && At(v, p) == Answered(Code(row, ok)) && Quiet(v) && v.slots == w.slots
            && v.jobs == if stored && j in w.jobs then w.jobs[j := w.jobs[j].(state := Outcome(row, ok))] else w.jobs
  {
  }

  /** A push that has answered performs nothing. */
  lemma NotPerformed(w: World, p: PushId, ok: bool, stored: bool)
    requires At(w, p).Answered?
    ensures AfterPerform(w, p, ok, stored) == w
  {
  }

  /** w after cleanupSlots' statements: a check and perhaps a delete for each row it looks at. */
  function AfterCleanup(w: World, stale: seq<SlotId>): World {
    if stale == [] then w
    else
      var s := stale[|stale| - 1];
      Next(Next(AfterCleanup(w, stale[..|stale| - 1]), FindIdleSlot(s)), DeleteIdleSlot(s))
  }

  predicate Busy(jobs: map<JobId, Job>, key: Key) {
    exists j | j in jobs :: jobs[j].key == key && jobs[j].state == Executing
  }

  lemma CleanedSlot(w: World, s: SlotId)
    requires Quiet(w) && w.idleSlots == {}
    ensures Next(Next(w, FindIdleSlot(s)), DeleteIdleSlot(s))
            == if s in w.slots && !Busy(w.jobs, w.slots[s].key) then w.(slots := w.slots - {s}) else w
  {
    var found := FindIdleSlotStep(w, s);
    assert Next(w, FindIdleSlot(s)) == found;
    assert Next(found, DeleteIdleSlot(s)) == DeleteIdleSlotStep(found, s);
    hide Next;
    if s in w.slots && !Busy(w.jobs, w.slots[s].key) {
      assert found == w.(idleSlots := {s});
    } else if s in w.slots {
      var j :| j in w.jobs && w.jobs[j].key == w.slots[s].key && w.jobs[j].state == Executing;
      assert found == w;
    }
  }

  /** A deferred claim answers alike whatever row it hands back. */
  lemma DeferredRow(w: World, with: World, v: World, p: PushId, jobID: JobId, marked: Job, row: Job, result: ClaimResult)
    requires ClaimAnswers(with, v, p, jobID, marked, result) && with.jobs == w.jobs && with.dispatches == w.dispatches
    requires result.ClaimDeferred? || row == marked
    ensures ClaimAnswers(w, v, p, jobID, row, result)
  {
  }

  // ----- What a claim comes to, in terms of the tables alone -----

  /** The row is there, waits, and has an attempt left. */
  ghost predicate Takeable(jobs: map<JobId, Job>, jobID: JobId) {
    jobID in jobs && jobs[jobID].state == Pending && jobs[jobID].attempts < jobs[jobID].maxAttempts
  }

  /** With this row the executing ones of its key, locked within its duration, are no more than its limit. */
  ghost predicate FitsLimit(jobs: map<JobId, Job>, jobID: JobId, now: int)
    requires jobID in jobs
  {
    var job := jobs[jobID];
    var others := set j | j in jobs && j != jobID && jobs[j].state == Executing && jobs[j].key == job.key && now - job.duration < jobs[j].lockedAt;
    job.key == "" || |others| + (if job.duration > 0 then 1 else 0) <= job.limit
  }

  lemma NoKeyFits(jobs: map<JobId, Job>, jobID: JobId, now: int)
    requires jobID in jobs && jobs[jobID].key == ""
    ensures FitsLimit(jobs, jobID, now)
  {
  }

  /** The key had no slot row, and now has this one. */
  ghost predicate OneSlotMore(before: map<SlotId, Slot>, after: map<SlotId, Slot>, key: Key, now: int, newSlot: SlotId) {
    key != "" && (forall s :: s in before ==> before[s].key != key) && after == before[newSlot := Slot(key, now, None)]
  }

  lemma CountsOthers(jobs: map<JobId, Job>, jobID: JobId, now: int)
    requires jobID in jobs && jobs[jobID].key != ""
    ensures var row := Bumped(jobs[jobID], now);
            |Active(jobs[jobID := row], row.key, now, row.duration)| <= row.limit <==> FitsLimit(jobs, jobID, now)
  {
    var row := Bumped(jobs[jobID], now);
    var others := set j | j in jobs && j != jobID && jobs[j].state == Executing && jobs[j].key == row.key && now - row.duration < jobs[j].lockedAt;
    var active := Active(jobs[jobID := row], row.key, now, row.duration);
    if row.duration > 0 {
      assert active == others + {jobID};
    } else {
      assert active == others;
    }
    var job := jobs[jobID];
    assert others == set j | j in jobs && j != jobID && jobs[j].state == Executing && jobs[j].key == job.key && now - job.duration < jobs[j].lockedAt;
  }

  class Backend {
    var jobs: map<JobId, Job>
    var slots: map<SlotId, Slot>

    /** The tables are those of a world in which nothing else is under way. */
    ghost predicate Shows(w: World)
      reads this
    {
      jobs == w.jobs && slots == w.slots && Quiet(w)
    }

    /**
     claimForExecution, alone: what it leaves in the tables and what it returns are what
     the steps of its transaction make of the world.
     */
    method ClaimForExecution(jobID: JobId, now: int, newSlot: SlotId, ghost w: World, ghost p: PushId)
      returns (row: Job, result: ClaimResult, ghost v: World, ghost slot: SlotId)
      requires Shows(w) && p !in w.pushes && newSlot !in w.usedSlots && newSlot !in w.slots
      modifies this
      ensures v == AfterClaim(w, p, jobID, now, newSlot, slot) && Shows(v)
      ensures ClaimAnswers(w, v, p, jobID, row, result)
      ensures result.ClaimExecute? <==> Takeable(old(jobs), jobID) && FitsLimit(old(jobs), jobID, now)
      ensures result.ClaimDeferred? <==> Takeable(old(jobs), jobID) && !FitsLimit(old(jobs), jobID, now)
      ensures result.ClaimExecute? ==>
        && row == old(jobs)[jobID].(attempts := old(jobs)[jobID].attempts + 1, state := Executing, lockedAt := now)
        && jobs == old(jobs)[jobID := row]
      ensures result.ClaimDeferred? ==> jobs == old(jobs)[jobID := old(jobs)[jobID].(lockedAt := now)]
      ensures !Takeable(old(jobs), jobID) ==> jobs == old(jobs) && slots == old(slots)
      ensures slots == old(slots) || (Takeable(old(jobs), jobID) && OneSlotMore(old(slots), slots, old(jobs)[jobID].key, now, newSlot))
      ensures Takeable(old(jobs), jobID) && old(jobs)[jobID].key != "" ==> exists s :: s in slots && slots[s].key == old(jobs)[jobID].key
    {
      hide AfterClaim, ClaimAnswers, Quiet, Standing, FitsLimit;
      row, result, slot := Job(Pending, 0, 0, "", 0, 0, 0), ClaimSkip, newSlot;
      v := AfterClaim(w, p, jobID, now, newSlot, slot);
      if !Eligible(w, jobID) {
        SkippedClaim(w, p, jobID, now, newSlot, slot);
      }
      SkippedAnswers(w, p, jobID, now);
      if jobID !in jobs {
        return;
      }
      row := jobs[jobID];
      if row.state != Pending {
        return;
      }
      if row.attempts >= row.maxAttempts {
        result := ClaimExhausted;
        return;
      }
      row := row.(attempts := row.attempts + 1, state := Executing, lockedAt := now);
      if row.key == "" {
        UnlimitedClaim(w, p, jobID, now, newSlot, slot);
        UnlimitedAnswers(w, p, jobID, now, row);
        NoKeyFits(jobs, jobID, now);
        jobs, result := jobs[jobID := row], ClaimExecute;
        return;
      }
      row, result, v, slot := ClaimWithinLimit(jobID, row, now, newSlot, w, p);
    }

    /** The rest of the transaction, for a row with a concurrency key. */
    method ClaimWithinLimit(jobID: JobId, marked: Job, now: int, newSlot: SlotId, ghost w: World, ghost p: PushId)
      returns (row: Job, result: ClaimResult, ghost v: World, ghost slot: SlotId)
      requires Shows(w) && p !in w.pushes && newSlot !in w.usedSlots && newSlot !in w.slots
      requires Eligible(w, jobID) && marked == Bumped(w.jobs[jobID], now) && marked.key != ""
      modifies this
      ensures v == AfterClaim(w, p, jobID, now, newSlot, slot) && Shows(v)
      ensures ClaimAnswers(w, v, p, jobID, row, result)
      ensures result == if FitsLimit(old(jobs), jobID, now) then ClaimExecute else ClaimDeferred
      ensures result.ClaimExecute? ==> row == marked && jobs == old(jobs)[jobID := marked]
      ensures result.ClaimDeferred? ==> jobs == old(jobs)[jobID := old(jobs)[jobID].(lockedAt := now)]
      ensures slots == old(slots) || OneSlotMore(old(slots), slots, marked.key, now, newSlot)
      ensures exists s :: s in slots && slots[s].key == marked.key
    {
      CountsOthers(jobs, jobID, now);
      hide AfterClaim, Settled, Active, WithSlot, HasSlot, ClaimAnswers, Quiet, Standing, FitsLimit, OneSlotMore;
      row := marked;
      // the transaction's own view of the table, stored when it commits
      var tx := jobs[jobID := row];
      slot := EnsureSlot(row.key, now, newSlot, w, p);
      LimitedClaim(w, p, jobID, now, newSlot, slot);
      ghost var with := WithSlot(w, row.key, now, newSlot, None);
      SlotPresent(w, p, row.key, now, newSlot);
      SettledAnswers(with, p, jobID, now, row);
      v := AfterClaim(w, p, jobID, now, newSlot, slot);
      var count := |Active(tx, row.key, now, row.duration)|;
      result := ClaimExecute;
      if count > row.limit {
        row := row.(attempts := row.attempts - 1, state := Pending);
        tx := tx[jobID := row];
        result := ClaimDeferred;
      }
      jobs := tx;
      DeferredRow(w, with, v, p, jobID, marked, row, result);
    }

    /** INSERT ... ON CONFLICT DO NOTHING, and the row the following SELECT finds. */
    method EnsureSlot(key: Key, now: int, newSlot: SlotId, ghost w: World, ghost p: PushId) returns (ghost slot: SlotId)
      requires Shows(w) && newSlot !in w.slots
      modifies this`slots
      ensures slots == WithSlot(w, key, now, newSlot, None).slots && Quiet(WithSlot(w, key, now, newSlot, None))
      ensures HasSlot(WithSlot(w, key, now, newSlot, Some(p)), key, slot)
      ensures slot in slots && slots[slot].key == key
      ensures slots == if exists s | s in old(slots) :: old(slots)[s].key == key then old(slots) else old(slots)[newSlot := Slot(key, now, None)]
      ensures key != "" ==> slots == old(slots) || OneSlotMore(old(slots), slots, key, now, newSlot)
    {
      if exists s | s in slots :: slots[s].key == key {
        slot :| slot in slots && slots[slot].key == key;
      } else {
        slot := newSlot;
        slots := slots[newSlot := Slot(key, now, None)];
      }
    }

    /** finish; stored is false when the UPDATE fails, which is only logged. */
    method Finish(jobID: JobId, stored: bool)
      modifies this`jobs
      ensures jobs == if stored && jobID in old(jobs) then old(jobs)[jobID := old(jobs)[jobID].(state := Finished)] else old(jobs)
    {
      if stored && jobID in jobs {
        jobs := jobs[jobID := jobs[jobID].(state := Finished)];
      }
    }

    /** fail: terminal once the attempts are used up, otherwise back to pending. */
    method Fail(jobID: JobId, row: Job, stored: bool) returns (exhausted: bool)
      modifies this`jobs
      ensures exhausted <==> row.attempts >= row.maxAttempts
      ensures jobs == if stored && jobID in old(jobs)
                      then old(jobs)[jobID := old(jobs)[jobID].(state := if exhausted then Failed else Pending)]
                      else old(jobs)
    {
      exhausted := row.attempts >= row.maxAttempts;
      var state := Pending;
      if exhausted {
        state := Failed;
      }
      if stored && jobID in jobs {
        jobs := jobs[jobID := jobs[jobID].(state := state)];
      }
    }

    /**
     handlePush after authentication, alone: the tables and the answer are those of the
     push's steps. ok is what Dispatch returns, stored whether its outcome could be written.
     */
    method HandlePush(jobID: JobId, now: int, newSlot: SlotId, ok: bool, stored: bool, ghost w: World, ghost p: PushId)
      returns (code: int, ghost v: World, ghost slot: SlotId)
      requires Shows(w) && p !in w.pushes && newSlot !in w.usedSlots && newSlot !in w.slots
      modifies this
      ensures Shows(v)
      ensures jobID == 0 ==> code == 400 && v == w
      ensures jobID != 0 ==> At(v, p) == Answered(code)
      ensures jobID != 0 ==> v == AfterPerform(AfterClaim(w, p, jobID, now, newSlot, slot), p, ok, stored)
      ensures code == if jobID == 0 then 400
                      else if !Takeable(old(jobs), jobID) then 200
                      else if !FitsLimit(old(jobs), jobID, now) then 429
                      else if ok || old(jobs)[jobID].attempts + 1 >= old(jobs)[jobID].maxAttempts then 200
                      else 500
      ensures jobID == 0 || !Takeable(old(jobs), jobID) ==> jobs == old(jobs) && slots == old(slots)
      ensures code == 429 ==> jobs == old(jobs)[jobID := old(jobs)[jobID].(lockedAt := now)]
      ensures jobID != 0 && Takeable(old(jobs), jobID) && FitsLimit(old(jobs), jobID, now) ==>
        var taken := old(jobs)[jobID].(attempts := old(jobs)[jobID].attempts + 1, state := Executing, lockedAt := now);
        var state := if !stored then Executing else if ok then Finished else if taken.attempts >= taken.maxAttempts then Failed else Pending;
        jobs == old(jobs)[jobID := taken.(state := state)]
    {
      hide AfterClaim, AfterPerform, Quiet, FitsLimit;
      if jobID == 0 {
        code, v, slot := 400, w, newSlot;
        return;
      }
      var row, result;
      row, result, v, slot := ClaimForExecution(jobID, now, newSlot, w, p);
      if result != ClaimExecute {
        NotPerformed(v, p, ok, stored);
        code := if result == ClaimDeferred then 429 else 200;
        return;
      }
      Performed(v, p, row, ok, stored);
      v := AfterPerform(v, p, ok, stored);
      if ok {
        Finish(jobID, stored);
        code := 200;
        return;
      }
      var exhausted := Fail(jobID, row, stored);
      code := if exhausted then 200 else 500;
    }

    /** cleanupSlots over the rows it has selected: those whose key has no executing row go. */
    method CleanupSlots(stale: seq<SlotId>, ghost w: World) returns (ghost v: World)
      requires Shows(w) && w.idleSlots == {}
      modifies this`slots
      ensures v == AfterCleanup(w, stale) && Shows(v)
      ensures forall s :: s in slots <==> s in old(slots) && (s in stale ==> Busy(jobs, old(slots)[s].key))
      ensures forall s :: s in slots ==> slots[s] == old(slots)[s]
    {
      hide Next, Busy;
      v := w;
      for i := 0 to |stale|
        invariant v == AfterCleanup(w, stale[..i]) && v == w.(slots := slots) && Quiet(v)
        invariant forall s :: s in slots <==> s in old(slots) && (s in stale[..i] ==> Busy(jobs, old(slots)[s].key))
        invariant forall s :: s in slots ==> slots[s] == old(slots)[s]
      {
        var s := stale[i];
        CleanedSlot(v, s);
        assert stale[..i + 1][..i] == stale[..i];
        v := Next(Next(v, FindIdleSlot(s)), DeleteIdleSlot(s));
        if s in slots && !Busy(jobs, slots[s].key) {
          slots := slots - {s};
        }
      }
      assert stale[..|stale|] == stale;
    }
  }
}
