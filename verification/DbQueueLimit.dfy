/** When the queue keeps a key's concurrency limit, and when row locks let workers exceed it. */
module DbQueueLimit {
  import opened DbQueue
  import opened DbQueueInvariant
  import opened DbQueueSafety

  /** At time t, no more rows of key run inside its window than its limit allows. */
  ghost predicate Keeps(w: World, key: Key, t: int) {
    |Active(w.jobs, key, t, w.cfg.duration(key))| <= w.cfg.limit(key)
  }

  /** Whatever workers do, the limit is kept at the time of the latest claim and after. */
  ghost predicate AlwaysKeeps(cfg: Config, key: Key) {
    forall w: World, t: int :: Reachable(w) && w.cfg == cfg && (key in w.lastClaim ==> w.lastClaim[key] <= t) ==> Keeps(w, key, t)
  }

  /** The limit is kept in every run exactly without row locks, or if it is zero. */
  lemma LimitKeptIff(cfg: Config, key: Key)
    requires key != "" && cfg.duration(key) > 0
    ensures AlwaysKeeps(cfg, key) <==> !cfg.rowLocking || cfg.limit(key) == 0
  {
    if cfg.rowLocking && cfg.limit(key) > 0 {
      var w := Overshoot(cfg, key);
      assert !Keeps(w, key, 0);
    } else {
      forall w: World, t: int | Reachable(w) && w.cfg == cfg && (key in w.lastClaim ==> w.lastClaim[key] <= t)
        ensures Keeps(w, key, t)
      {
        if cfg.rowLocking {
          ZeroKeeps(w, key, t);
        } else {
          LimitHolds(w, key, t);
        }
      }
    }
  }

  /** A key with limit zero is never claimed at all. */
  lemma ZeroKeeps(w: World, key: Key, t: int)
    requires Reachable(w) && key != "" && w.cfg.limit(key) == 0
    ensures Active(w.jobs, key, t, w.cfg.duration(key)) == {}
  {
    ReachableGood(w);
    assert key in w.lastClaim ==> KeyOk(w, key);
    forall j | j in w.jobs
      ensures w.jobs[j].state == Executing ==> w.jobs[j].key != key
    {
      assert JobOk(w, j);
    }
  }

  // ----- One row more than the limit: all selected before any is marked -----

  function Row(cfg: Config, key: Key): Job {
    Job(Available, 0, 1, "default", 0, key, cfg.limit(key), cfg.duration(key), 0)
  }

  /** Rows 0 to n - 1 wait, of which the first k are selected, each by the handle of its own number. */
  ghost predicate Half(w: World, cfg: Config, key: Key, n: nat, k: nat) {
    && w.cfg == cfg && k <= n && key !in w.lastClaim
    && (forall i: JobId :: i in w.jobs <==> i < n) && (forall i: JobId :: i in w.usedJobs <==> i < n)
    && (forall i: JobId :: i < n ==> w.jobs[i] == Row(cfg, key))
    && (forall i: JobId :: i in w.claims <==> i < k) && (forall i: JobId :: i in w.locks <==> i < k)
    && (forall i: JobId :: i < k ==> w.claims[i] == Claim(i, 0, Selected(Row(cfg, key))))
  }

  lemma {:induction false} AllEnqueued(cfg: Config, key: Key, n: nat) returns (w: World)
    ensures Reachable(w) && Half(w, cfg, key, n, 0)
  {
    if n == 0 {
      w := Initial(cfg);
      InitialReachable(cfg);
    } else {
      var v := AllEnqueued(cfg, key, n - 1);
      var e := Enqueue(n - 1, 1, "default", 0, key);
      w := EnqueueStep(v, n - 1, 1, "default", 0, key);
      assert w == Next(v, e) by { hide EnqueueStep; }
      ReachableNext(v, e);
      EnqueuesNext(v, cfg, key, n - 1);
    }
  }

  lemma EnqueuesNext(w: World, cfg: Config, key: Key, n: nat)
    requires Half(w, cfg, key, n, 0)
    ensures Half(EnqueueStep(w, n, 1, "default", 0, key), cfg, key, n + 1, 0)
  {
  }

  lemma {:induction false} AllSelected(cfg: Config, key: Key, n: nat, k: nat) returns (w: World)
    requires cfg.rowLocking && cfg.limit(key) > 0 && k <= n
    ensures Reachable(w) && Half(w, cfg, key, n, k)
    decreases k
  {
    if k == 0 {
      w := AllEnqueued(cfg, key, n);
    } else {
      var v := AllSelected(cfg, key, n, k - 1);
      var e := SelectRow(k - 1, k - 1, QUEUES, 0);
      w := SelectRowStep(v, k - 1, k - 1, QUEUES, 0);
      assert w == Next(v, e) by { hide SelectRowStep; }
      ReachableNext(v, e);
      SelectsNext(v, cfg, key, n, k - 1);
    }
  }

  lemma SelectsNext(w: World, cfg: Config, key: Key, n: nat, k: nat)
    requires cfg.rowLocking && cfg.limit(key) > 0 && Half(w, cfg, key, n, k) && k < n
    ensures Half(SelectRowStep(w, k, k, QUEUES, 0), cfg, key, n, k + 1)
  {
    assert Active(w.jobs, key, 0, cfg.duration(key)) == {};
    assert QUEUES[0] in QUEUES;
    assert Ready(w.jobs, k, QUEUES, 0);
    assert Candidate(w.jobs, w.locks.Keys, k, QUEUES, 0);
    hide Candidate;
  }

  /** All n rows are selected, and the first k of them marked. */
  ghost predicate MarkedUpTo(w: World, cfg: Config, key: Key, n: nat, k: nat) {
    && w.cfg == cfg && k <= n
    && (forall i: JobId :: i in w.jobs <==> i < n) && (forall i: JobId :: i in w.claims <==> i < n)
    && (forall i: JobId :: i < n ==> w.jobs[i] == if i < k then Marked(Row(cfg, key), 0) else Row(cfg, key))
    && (forall i: JobId :: k <= i < n ==> w.claims[i] == Claim(i, 0, Selected(Row(cfg, key))))
    && (key in w.lastClaim ==> w.lastClaim[key] == 0)
  }

  lemma {:induction false} AllMarked(cfg: Config, key: Key, n: nat, k: nat) returns (w: World)
    requires cfg.rowLocking && cfg.limit(key) > 0 && key != "" && k <= n
    ensures Reachable(w) && MarkedUpTo(w, cfg, key, n, k)
    decreases k
  {
    if k == 0 {
      w := AllSelected(cfg, key, n, n);
    } else {
      var v := AllMarked(cfg, key, n, k - 1);
      w := Next(v, MarkRow(k - 1));
      ReachableNext(v, MarkRow(k - 1));
      hide Reachable;
    }
  }

  lemma {:induction false} BelowSize(n: nat, s: set<JobId>)
    requires forall i: JobId :: i in s <==> i < n
    ensures |s| == n
    decreases n
  {
    if n > 0 {
      BelowSize(n - 1, s - {n - 1});
    }
  }

  /** With row locks and room for one, some run ends with one row more than the limit at work. */
  lemma Overshoot(cfg: Config, key: Key) returns (w: World)
    requires cfg.rowLocking && cfg.limit(key) > 0 && key != "" && cfg.duration(key) > 0
    ensures Reachable(w) && w.cfg == cfg && (key in w.lastClaim ==> w.lastClaim[key] <= 0)
    ensures |Active(w.jobs, key, 0, cfg.duration(key))| == cfg.limit(key) + 1
  {
    var n := cfg.limit(key) + 1;
    w := AllMarked(cfg, key, n, n);
    hide Reachable;
    var active := Active(w.jobs, key, 0, cfg.duration(key));
    forall i: JobId ensures i in active <==> i < n { assert i < n ==> w.jobs[i] == Marked(Row(cfg, key), 0); }
    BelowSize(n, active);
  }

  // ----- Without row locks the limit is reached -----

  /** Rows 0 to n - 1, of which the first k are claimed, each by the handle of its own number. */
  ghost predicate ClaimedUpTo(w: World, cfg: Config, key: Key, n: nat, k: nat) {
    && w.cfg == cfg && k <= n
    && (forall i: JobId :: i in w.jobs <==> i < n) && (forall i: JobId :: i in w.claims <==> i < k)
    && (forall i: JobId :: i < n ==> w.jobs[i] == if i < k then Marked(Row(cfg, key), 0) else Row(cfg, key))
    && (key in w.lastClaim ==> w.lastClaim[key] == 0)
  }

  lemma {:induction false} AllClaimed(cfg: Config, key: Key, n: nat, k: nat) returns (w: World)
    requires !cfg.rowLocking && cfg.duration(key) > 0 && key != "" && k <= n <= cfg.limit(key)
    ensures Reachable(w) && ClaimedUpTo(w, cfg, key, n, k)
    decreases k
  {
    if k == 0 {
      w := AllEnqueued(cfg, key, n);
    } else {
      var v := AllClaimed(cfg, key, n, k - 1);
      w := Next(v, ClaimAtomic(k - 1, k - 1, QUEUES, 0));
      ReachableNext(v, ClaimAtomic(k - 1, k - 1, QUEUES, 0));
      hide Reachable, ClaimedUpTo, ClaimAtomicStep;
      ClaimsNext(v, cfg, key, n, k - 1);
    }
  }

  lemma ClaimsNext(w: World, cfg: Config, key: Key, n: nat, k: nat)
    requires !cfg.rowLocking && cfg.duration(key) > 0 && key != "" && ClaimedUpTo(w, cfg, key, n, k) && k < n <= cfg.limit(key)
    ensures ClaimedUpTo(ClaimAtomicStep(w, k, k, QUEUES, 0), cfg, key, n, k + 1)
  {
    ActiveCount(w, cfg, key, n, k);
    assert QUEUES[0] in QUEUES;
    assert Ready(w.jobs, k, QUEUES, 0);
    assert Candidate(w.jobs, {}, k, QUEUES, 0);
    hide Candidate;
  }

  lemma ActiveCount(w: World, cfg: Config, key: Key, n: nat, k: nat)
    requires cfg.duration(key) > 0 && ClaimedUpTo(w, cfg, key, n, k)
    ensures |Active(w.jobs, key, 0, cfg.duration(key))| == k
  {
    var active := Active(w.jobs, key, 0, cfg.duration(key));
    forall i: JobId ensures i in active <==> i < k { assert i < n ==> w.jobs[i].key == key; }
    BelowSize(k, active);
  }

  /** Without row locks the limit is not only kept: some run has as many rows of the key at work as it allows. */
  lemma LimitReached(cfg: Config, key: Key) returns (w: World)
    requires !cfg.rowLocking && key != "" && cfg.duration(key) > 0
    ensures Reachable(w) && w.cfg == cfg && (key in w.lastClaim ==> w.lastClaim[key] <= 0)
    ensures |Active(w.jobs, key, 0, cfg.duration(key))| == cfg.limit(key)
  {
    w := AllClaimed(cfg, key, cfg.limit(key), cfg.limit(key));
    ActiveCount(w, cfg, key, cfg.limit(key), cfg.limit(key));
  }

  // ----- Transactions that do not overlap keep it -----

  /** Claim h has a row of key selected, and not yet marked. */
  ghost predicate Selecting(w: World, h: Handle, key: Key) {
    At(w, h).Selected? && At(w, h).row.key == key
  }

  ghost predicate Alone(w: World, key: Key) {
    forall h, g :: Selecting(w, h, key) && Selecting(w, g, key) ==> h == g
  }

  /** At no point of the run do two claims have rows of key selected. */
  ghost predicate Apart(w: World, es: seq<Event>, key: Key)
    decreases |es|
  {
    Alone(w, key) && (es == [] || Apart(Next(w, es[0]), es[1..], key))
  }

  /** The limit is kept, and a row that has been selected may still be marked. */
  ghost predicate Room(w: World, key: Key) {
    && (key in w.lastClaim ==> Keeps(w, key, w.lastClaim[key]))
    && (forall h :: Selecting(w, h, key) ==> |Active(w.jobs, key, w.claims[h].now, w.cfg.duration(key))| < w.cfg.limit(key))
  }

  lemma RoomShrinks(w: World, v: World, key: Key)
    requires Room(w, key) && v.cfg == w.cfg
    requires key in v.lastClaim ==> key in w.lastClaim && v.lastClaim[key] == w.lastClaim[key]
    requires forall j :: j in v.jobs && v.jobs[j].key == key && v.jobs[j].state == Executing ==> j in w.jobs && w.jobs[j] == v.jobs[j]
    requires forall h :: Selecting(v, h, key) ==> Selecting(w, h, key) && v.claims[h].now == w.claims[h].now
    ensures Room(v, key)
  {
    var d := w.cfg.duration(key);
    if key in v.lastClaim {
      SubsetSize(Active(v.jobs, key, v.lastClaim[key], d), Active(w.jobs, key, v.lastClaim[key], d));
    }
    forall h | Selecting(v, h, key)
      ensures |Active(v.jobs, key, v.claims[h].now, d)| < v.cfg.limit(key)
    {
      SubsetSize(Active(v.jobs, key, v.claims[h].now, d), Active(w.jobs, key, v.claims[h].now, d));
    }
  }

  lemma SelectKeepsRoom(w: World, h: Handle, j: JobId, qs: seq<string>, now: int, key: Key)
    requires Inv(w) && Room(w, key) && key != ""
    ensures Room(SelectRowStep(w, h, j, qs, now), key)
  {
    var v := SelectRowStep(w, h, j, qs, now);
    if v != w {
      assert JobOk(w, j);
      forall g | Selecting(v, g, key)
        ensures |Active(v.jobs, key, v.claims[g].now, v.cfg.duration(key))| < v.cfg.limit(key)
      {
        assert g == h || Selecting(w, g, key);
      }
    }
  }

  /** Marking the one selected row of the key fills the place that was counted free for it. */
  lemma MarkKeepsRoom(w: World, h: Handle, key: Key)
    requires Inv(w) && Room(w, key) && Alone(w, key) && key != "" && At(w, h).Selected?
    ensures Room(MarkRowStep(w, h), key)
  {
    var v := MarkRowStep(w, h);
    var j, now := w.claims[h].job, w.claims[h].now;
    assert ClaimOk(w, h) && JobOk(w, j);
    if w.jobs[j].key == key {
      assert Selecting(w, h, key);
      forall g ensures !Selecting(v, g, key) { assert Selecting(v, g, key) ==> Selecting(w, g, key); }
      SubsetSize(Active(v.jobs, key, now, w.cfg.duration(key)), Active(w.jobs, key, now, w.cfg.duration(key)) + {j});
    } else {
      forall g | Selecting(v, g, key) ensures Selecting(w, g, key) && v.claims[g].now == w.claims[g].now {}
      RoomShrinks(w, v, key);
    }
  }

  lemma AtomicKeepsRoom(w: World, h: Handle, j: JobId, qs: seq<string>, now: int, key: Key)
    requires Inv(w) && Room(w, key) && key != "" && !w.cfg.rowLocking && h !in w.claims && Candidate(w.jobs, {}, j, qs, now)
    ensures Room(ClaimAtomicStep(w, h, j, qs, now), key)
  {
    var v := ClaimAtomicStep(w, h, j, qs, now);
    ClaimAtomicKeeps(w, h, j, qs, now);
    forall g ensures !Selecting(v, g, key) { assert g in w.claims ==> ClaimOk(w, g); }
    assert key in v.lastClaim ==> KeyOk(v, key);
  }

  lemma RecordKeepsRoom(w: World, h: Handle, stored: bool, at: int, key: Key)
    requires Room(w, key)
    ensures Room(RecordStep(w, h, stored, at), key)
  {
    RoomShrinks(w, RecordStep(w, h, stored, at), key);
    hide Room;
  }

  lemma DropKeepsRoom(w: World, h: Handle, key: Key)
    requires Room(w, key)
    ensures Room(DropStep(w, h), key)
  {
    var v := DropStep(w, h);
    assert v.jobs == w.jobs && v.lastClaim == w.lastClaim && v.cfg == w.cfg;
    assert h in w.claims ==> v.claims == w.claims[h := w.claims[h].(phase := Done)];
    assert h !in w.claims ==> v.claims == w.claims;
    hide DropStep;
    RoomShrinks(w, v, key);
    hide Room;
  }

  lemma PerformKeepsRoom(w: World, h: Handle, ok: bool, key: Key)
    requires Room(w, key)
    ensures Room(PerformStep(w, h, ok), key)
  {
    RoomShrinks(w, PerformStep(w, h, ok), key);
    hide Room;
  }

  lemma TableKeepsRoom(w: World, e: Event, key: Key)
    requires Room(w, key) && (e.Enqueue? || e.PickStale? || e.DeleteStale?)
    ensures Room(Next(w, e), key)
  {
    hide ClaimAtomicStep, SelectRowStep, MarkRowStep, PerformStep, RecordStep, DropStep;
    RoomShrinks(w, Next(w, e), key);
    hide Room;
  }

  lemma StepKeepsRoom(w: World, e: Event, key: Key)
    requires Inv(w) && Room(w, key) && Alone(w, key) && key != ""
    ensures Room(Next(w, e), key)
  {
    hide Room, Inv, Alone;
    match e
    case ClaimAtomic(h, j, qs, now) =>
      if !w.cfg.rowLocking && h !in w.claims && Candidate(w.jobs, {}, j, qs, now) { AtomicKeepsRoom(w, h, j, qs, now, key); }
    case SelectRow(h, j, qs, now) => SelectKeepsRoom(w, h, j, qs, now, key);
    case MarkRow(h) => if At(w, h).Selected? { MarkKeepsRoom(w, h, key); }
    case Perform(h, ok) => PerformKeepsRoom(w, h, ok, key);
    case Record(h, stored, at) => RecordKeepsRoom(w, h, stored, at, key);
    case Drop(h) => DropKeepsRoom(w, h, key);
    case _ => TableKeepsRoom(w, e, key);
  }

  lemma {:induction false} RunKeepsRoom(w: World, es: seq<Event>, key: Key)
    requires Inv(w) && Room(w, key) && Apart(w, es, key) && key != ""
    ensures Inv(Run(w, es)) && Room(Run(w, es), key)
    decreases |es|
  {
    hide Inv, Room, Next;
    if es != [] {
      StepKeeps(w, es[0]);
      StepKeepsRoom(w, es[0], key);
      RunKeepsRoom(Next(w, es[0]), es[1..], key);
    }
  }

  /** Row locks or not: claims of a key that never overlap between SELECT and UPDATE keep its limit. */
  lemma ApartKeepsLimit(cfg: Config, es: seq<Event>, key: Key, t: int)
    requires key != "" && Apart(Initial(cfg), es, key)
    requires var w := Run(Initial(cfg), es); key in w.lastClaim ==> w.lastClaim[key] <= t
    ensures Keeps(Run(Initial(cfg), es), key, t)
  {
    var w := Run(Initial(cfg), es);
    RunKeepsRoom(Initial(cfg), es, key);
    hide Run;
    var d := w.cfg.duration(key);
    if key in w.lastClaim {
      SubsetSize(Active(w.jobs, key, t, d), Active(w.jobs, key, w.lastClaim[key], d));
    } else {
      forall j | j in w.jobs ensures j !in Active(w.jobs, key, t, d) { assert JobOk(w, j); }
      assert Active(w.jobs, key, t, d) == {};
    }
  }
}
