/** The rate limiter (ratelimit/ratelimit.go) over the in-memory store: fixed windows of requests. */
module RateLimit {
  import opened Results
  import opened MemoryCache

  // A window is counted by Increment, and opened by the first request after the last one expired.

  datatype Decision = Admitted | Limited(retryAfter: int) | Broken

  /** The handler's decision, with its second look at the clock. */
  method Decide(store: Backend, key: Key, limit: int, period: int, now: int, later: int) returns (decision: Decision)
    modifies store
    ensures store.entries == Evicted(old(store.entries), Op.Increment(key, 1, period), now)
    ensures var answer := Answered(Live(old(store.entries), now), Op.Increment(key, 1, period), now);
            && (decision.Broken? <==> !answer.Count?)
            && (decision.Admitted? <==> answer.Count? && answer.count <= limit)
            && (decision.Limited? ==> decision.retryAfter >= 0)
            && (decision.Limited? && answer.expiresAt.Some? && later <= answer.expiresAt.value ==>
                  later + decision.retryAfter == answer.expiresAt.value)
  {
    var answer := store.Increment(key, 1, period, now);
    if !answer.Count? {
      return Broken;
    }
    if answer.count <= limit {
      return Admitted;
    }
    // the zero time, which stands for no expiry, is long past
    var retryAfter := if answer.expiresAt.Some? then answer.expiresAt.value - later else 0;
    if retryAfter < 0 {
      retryAfter := 0;
    }
    decision := Limited(retryAfter);
  }

  // ----- Windows: what the counter of one key comes to -----

  /** A request, with its place in its window and when that window ends. */
  datatype Request = Request(at: int, count: int, until: int)

  datatype Window = NoWindow | Window(count: int, until: int)

  function Hit(w: Window, at: int, period: int): Request {
    if w.NoWindow? || at > w.until then Request(at, 1, at + period) else Request(at, w.count + 1, w.until)
  }

  function After(r: Request): Window {
    Window(r.count, r.until)
  }

  function Hits(w: Window, times: seq<int>, period: int): seq<Request>
    decreases |times|
  {
    if times == [] then [] else [Hit(w, times[0], period)] + Hits(After(Hit(w, times[0], period)), times[1..], period)
  }

  ghost predicate Ordered(times: seq<int>) {
    forall i, j :: 0 <= i < j < |times| ==> times[i] <= times[j]
  }

  // ----- The store keeps exactly these windows -----

  /** Calls that leave key's counter to the limiter; anything may happen to other keys. */
  predicate Leaves(call: Call, key: Key, period: int) {
    match call.op
    case Write(k, _, _) => k != key
    case Delete(k) => k != key
    case Increment(k, delta, ttl) => k == key ==> delta == 1 && ttl == period
    case Clear => false
    case _ => true
  }

  predicate Requests(call: Call, key: Key) {
    call.op.Increment? && call.op.key == key
  }

  function TimesOf(calls: seq<Call>, key: Key): seq<int> {
    if calls == [] then []
    else (if Requests(calls[0], key) then [calls[0].now] else []) + TimesOf(calls[1..], key)
  }

  /** The answers among all to the requests for key. */
  function Counts(calls: seq<Call>, answers: seq<Answer>, key: Key): seq<Answer>
    requires |answers| == |calls|
    decreases |calls|
  {
    if calls == [] then []
    else (if Requests(calls[0], key) then [answers[0]] else []) + Counts(calls[1..], answers[1..], key)
  }

  function AsAnswers(rs: seq<Request>): seq<Answer> {
    if rs == [] then [] else [Count(rs[0].count, Some(rs[0].until))] + AsAnswers(rs[1..])
  }

  /** The stored entry is the window. */
  predicate Stores(entries: Entries, key: Key, w: Window) {
    match w
    case NoWindow => key !in entries
    case Window(count, until) => key in entries && entries[key] == Entry(FormatInt(count), Some(until))
  }

  lemma {:induction false} KeptLength(entries: Entries, calls: seq<Call>)
    ensures |KeptAnswers(entries, calls)| == |calls|
    decreases |calls|
  {
    hide Answered, Kept, Live;
    if calls != [] {
      KeptLength(Kept(entries, calls[0].op, calls[0].now), calls[1..]);
    }
  }

  lemma RequestStores(entries: Entries, key: Key, w: Window, period: int, now: int)
    requires period > 0 && Stores(entries, key, w) && (w.Window? ==> 1 <= w.count < TWO_63 - 1)
    ensures var op := Op.Increment(key, 1, period);
            && Answered(Live(entries, now), op, now) == Count(Hit(w, now, period).count, Some(Hit(w, now, period).until))
            && Stores(Kept(entries, op, now), key, After(Hit(w, now, period)))
  {
    if w.Window? {
      FormatParses(w.count);
      assert Wrap(w.count + 1) == w.count + 1;
    }
    hide FormatInt, ParseInt, Wrap;
  }

  lemma OtherStores(entries: Entries, key: Key, w: Window, call: Call, period: int)
    requires Stores(entries, key, w) && Leaves(call, key, period) && !Requests(call, key)
    ensures Stores(Kept(entries, call.op, call.now), key, w)
  {
    hide FormatInt, ParseInt;
  }

  /**
   Whatever is done to other keys, and wherever entries are looked up, the answers to a
   key's requests are its windows' counts, as long as there are fewer than 2^63 of them.
   */
  lemma {:induction false} StoreKeepsWindows(entries: Entries, key: Key, w: Window, calls: seq<Call>, period: int)
    requires period > 0 && Stores(entries, key, w) && (forall c <- calls :: Leaves(c, key, period))
    requires (if w.Window? then w.count else 0) + |calls| < TWO_63 && (w.Window? ==> 1 <= w.count)
    ensures |KeptAnswers(entries, calls)| == |calls|
    ensures Counts(calls, KeptAnswers(entries, calls), key) == AsAnswers(Hits(w, TimesOf(calls, key), period))
    decreases |calls|
  {
    hide Answered, Kept, Live, Stores, Leaves;
    KeptLength(entries, calls);
    if calls != [] {
      var first, rest := calls[0], calls[1..];
      assert first in calls && forall c <- rest :: c in calls;
      var next := Kept(entries, first.op, first.now);
      KeptLength(next, rest);
      assert KeptAnswers(entries, calls)[1..] == KeptAnswers(next, rest);
      if Requests(first, key) {
        assert first.op == Op.Increment(key, 1, period) by { RequestOp(first, key, period); }
        RequestStores(entries, key, w, period, first.now);
        var r := Hit(w, first.now, period);
        StoreKeepsWindows(next, key, After(r), rest, period);
        assert TimesOf(calls, key) == [first.now] + TimesOf(rest, key);
        assert TimesOf(calls, key)[1..] == TimesOf(rest, key);
        assert Hits(w, TimesOf(calls, key), period) == [r] + Hits(After(r), TimesOf(rest, key), period);
        assert ([r] + Hits(After(r), TimesOf(rest, key), period))[1..] == Hits(After(r), TimesOf(rest, key), period);
      } else {
        OtherStores(entries, key, w, first, period);
        StoreKeepsWindows(next, key, w, rest, period);
        assert TimesOf(calls, key) == TimesOf(rest, key);
        assert Counts(calls, KeptAnswers(entries, calls), key) == Counts(rest, KeptAnswers(next, rest), key);
      }
    }
  }

  lemma RequestOp(call: Call, key: Key, period: int)
    requires Leaves(call, key, period) && Requests(call, key)
    ensures call.op == Op.Increment(key, 1, period)
  {
  }

  // ----- How many are admitted -----

  /** Admitted requests made from a to b. */
  function AdmittedBetween(rs: seq<Request>, limit: int, a: int, b: int): nat {
    if rs == [] then 0
    else (if a <= rs[0].at <= b && rs[0].count <= limit then 1 else 0) + AdmittedBetween(rs[1..], limit, a, b)
  }

  /** Admitted requests of the window that ends at until. */
  function AdmittedIn(rs: seq<Request>, limit: int, until: int): nat {
    if rs == [] then 0
    else (if rs[0].until == until && rs[0].count <= limit then 1 else 0) + AdmittedIn(rs[1..], limit, until)
  }

  function Positive(n: int): nat {
    if n < 0 then 0 else n
  }

  lemma {:induction false} WindowLimit(w: Window, times: seq<int>, period: int, limit: int, until: int)
    requires period > 0 && Ordered(times) && (w.Window? ==> w.count >= 1)
    requires w.Window? && times != [] ==> w.until - period <= times[0]
    ensures AdmittedIn(Hits(w, times, period), limit, until)
         <= if w.Window? && w.until == until then Positive(limit - w.count)
            else if w.Window? && w.until > until then 0
            else Positive(limit)
    decreases |times|
  {
    if times != [] {
      var r := Hit(w, times[0], period);
      var rest := Hits(After(r), times[1..], period);
      assert ([r] + rest)[1..] == rest;
      WindowLimit(After(r), times[1..], period, limit, until);
    }
  }

  /** Requests after an interval are not in it. */
  lemma {:induction false} LaterNotBetween(w: Window, times: seq<int>, period: int, limit: int, a: int, b: int)
    requires forall t <- times :: t > b
    ensures AdmittedBetween(Hits(w, times, period), limit, a, b) == 0
    decreases |times|
  {
    if times != [] {
      var r := Hit(w, times[0], period);
      var rest := Hits(After(r), times[1..], period);
      assert ([r] + rest)[1..] == rest;
      assert times[0] in times && forall t <- times[1..] :: t in times;
      LaterNotBetween(After(r), times[1..], period, limit, a, b);
    }
  }

  /** What an interval of one period starting at a can still admit. */
  function Room(w: Window, limit: int, a: int, period: int): nat {
    if w.Window? && w.until >= a + period then Positive(limit - w.count)
    else if w.Window? && w.until >= a then Positive(limit - w.count) + Positive(limit)
    else Positive(2 * limit - 1)
  }

  lemma {:induction false} IntervalLimit(w: Window, times: seq<int>, period: int, limit: int, a: int)
    requires period > 0 && Ordered(times) && (w.Window? ==> w.count >= 1)
    ensures AdmittedBetween(Hits(w, times, period), limit, a, a + period) <= Room(w, limit, a, period)
    decreases |times|
  {
    if times != [] {
      var t := times[0];
      var r := Hit(w, t, period);
      var rest := Hits(After(r), times[1..], period);
      assert ([r] + rest)[1..] == rest;
      IntervalLimit(After(r), times[1..], period, limit, a);
      if t > a + period {
        LaterNotBetween(After(r), times[1..], period, limit, a, a + period);
      }
    }
  }

  /** Windows never overlap: a later one opens only after the earlier one's end. */
  lemma {:induction false} WindowsApart(w: Window, times: seq<int>, period: int, i: nat, j: nat)
    requires period > 0 && Ordered(times) && i <= j < |times|
    requires w.Window? ==> w.until - period <= times[0]
    ensures |Hits(w, times, period)| == |times|
    ensures var rs := Hits(w, times, period);
            && rs[j].at == times[j] && rs[j].until - period <= rs[j].at <= rs[j].until
            && (rs[i].until == rs[j].until || rs[i].until < rs[j].until - period)
            && (w.Window? ==> w.until == rs[j].until || w.until < rs[j].until - period)
    decreases |times|
  {
    var r := Hit(w, times[0], period);
    HitsLength(w, times, period);
    assert Hits(w, times, period)[0] == r;
    if j > 0 {
      assert Hits(w, times, period)[1..] == Hits(After(r), times[1..], period);
      WindowsApart(After(r), times[1..], period, if i > 0 then i - 1 else 0, j - 1);
    }
  }

  lemma {:induction false} HitsLength(w: Window, times: seq<int>, period: int)
    ensures |Hits(w, times, period)| == |times|
    decreases |times|
  {
    if times != [] {
      HitsLength(After(Hit(w, times[0], period)), times[1..], period);
    }
  }

  // ----- The results -----

  /** Everything the limiter's store is asked, from empty, with the clock running forward. */
  ghost predicate Serves(calls: seq<Call>, key: Key, period: int, start: int) {
    period > 0 && Forward(calls, start) && |calls| < TWO_63 && forall c <- calls :: Leaves(c, key, period)
  }

  function RequestsOf(calls: seq<Call>, key: Key, period: int): seq<Request> {
    Hits(NoWindow, TimesOf(calls, key), period)
  }

  /** Evictions, sweeps and other keys aside, what a client is told is what its windows count. */
  lemma AnswersAreWindows(entries: Entries, calls: seq<Call>, key: Key, period: int, start: int)
    requires Serves(calls, key, period, start) && key !in entries
    ensures |Answers(entries, calls)| == |calls|
    ensures Counts(calls, Answers(entries, calls), key) == AsAnswers(RequestsOf(calls, key, period))
  {
    EvictionInvisible(entries, entries, calls, start);
    StoreKeepsWindows(entries, key, NoWindow, calls, period);
  }

  lemma {:induction false} TimesAfter(calls: seq<Call>, key: Key, from: int)
    requires forall i :: 0 <= i < |calls| && UnderLock(calls[i].op) ==> from <= calls[i].now
    ensures forall t <- TimesOf(calls, key) :: from <= t
    decreases |calls|
  {
    if calls != [] {
      TimesAfter(calls[1..], key, from);
    }
  }

  lemma {:induction false} TimesOrdered(calls: seq<Call>, key: Key)
    requires forall i, j :: 0 <= i < j < |calls| && UnderLock(calls[j].op) ==> calls[i].now <= calls[j].now
    ensures Ordered(TimesOf(calls, key))
    decreases |calls|
  {
    if calls != [] {
      TimesOrdered(calls[1..], key);
      TimesAfter(calls[1..], key, calls[0].now);
      var rest, all := TimesOf(calls[1..], key), TimesOf(calls, key);
      if Requests(calls[0], key) {
        assert all == [calls[0].now] + rest;
        forall i, j | 0 <= i < j < |all|
          ensures all[i] <= all[j]
        {
          assert all[j] == rest[j - 1] && rest[j - 1] in rest;
          assert i > 0 ==> all[i] == rest[i - 1];
        }
      } else {
        assert all == rest;
      }
    }
  }

  /** A window admits at most limit requests. */
  lemma AtMostLimitPerWindow(calls: seq<Call>, key: Key, period: int, start: int, limit: int, until: int)
    requires Serves(calls, key, period, start)
    ensures AdmittedIn(RequestsOf(calls, key, period), limit, until) <= Positive(limit)
  {
    TimesOrdered(calls, key);
    WindowLimit(NoWindow, TimesOf(calls, key), period, limit, until);
  }

  /** Any interval of one period, both ends included, admits fewer than twice the limit. */
  lemma LessThanTwicePerPeriod(calls: seq<Call>, key: Key, period: int, start: int, limit: int, a: int)
    requires Serves(calls, key, period, start)
    ensures AdmittedBetween(RequestsOf(calls, key, period), limit, a, a + period) <= Positive(2 * limit - 1)
  {
    TimesOrdered(calls, key);
    IntervalLimit(NoWindow, TimesOf(calls, key), period, limit, a);
  }

  function Repeat(at: int, n: nat): seq<int> {
    if n == 0 then [] else [at] + Repeat(at, n - 1)
  }

  /** A burst that still fits in the window is admitted whole. */
  lemma {:induction false} BurstAdmitted(w: Window, at: int, n: nat, rest: seq<int>, period: int, limit: int, a: int, b: int)
    requires w.Window? && a <= at <= b && at <= w.until && w.count + n <= limit
    ensures AdmittedBetween(Hits(w, Repeat(at, n) + rest, period), limit, a, b)
         == n + AdmittedBetween(Hits(Window(w.count + n, w.until), rest, period), limit, a, b)
    decreases n
  {
    var times := Repeat(at, n) + rest;
    if n == 0 {
      assert times == rest;
    } else {
      assert times[0] == at && times[1..] == Repeat(at, n - 1) + rest;
      var r := Hit(w, at, period);
      var hits := Hits(After(r), times[1..], period);
      assert ([r] + hits)[1..] == hits;
      BurstAdmitted(After(r), at, n - 1, rest, period, limit, a, b);
    }
  }

  /** The requests of one early bird, a burst at the end of its window, and a full one right after. */
  function TwoBursts(period: int, limit: nat): seq<int>
    requires limit >= 1
  {
    [0] + (Repeat(period, limit - 1) + ([period + 1] + (Repeat(period + 1, limit - 1) + [])))
  }

  /** No interval can be promised less: for every limit, twice the limit less one can be admitted within one period. */
  lemma TwiceLessOneIsReached(period: int, limit: nat)
    requires period > 0 && limit >= 1
    ensures AdmittedBetween(Hits(NoWindow, TwoBursts(period, limit), period), limit, 1, 1 + period) == 2 * limit - 1
  {
    var full := Repeat(period + 1, limit - 1) + [];
    var second := [period + 1] + full;
    var times := TwoBursts(period, limit);
    assert times[0] == 0 && times[1..] == Repeat(period, limit - 1) + second;
    var r := Hit(NoWindow, 0, period);
    var hits := Hits(After(r), times[1..], period);
    assert ([r] + hits)[1..] == hits;
    BurstAdmitted(After(r), period, limit - 1, second, period, limit, 1, 1 + period);
    var w := Window(limit, period);
    assert second[0] == period + 1 && second[1..] == full;
    var q := Hit(w, period + 1, period);
    var last := Hits(After(q), full, period);
    assert ([q] + last)[1..] == last;
    BurstAdmitted(After(q), period + 1, limit - 1, [], period, limit, 1, 1 + period);
  }

  /** Two requests are in one window, or their windows have not an instant in common. */
  lemma NoTwoWindowsOverlap(calls: seq<Call>, key: Key, period: int, start: int, i: nat, j: nat)
    requires Serves(calls, key, period, start) && i <= j < |RequestsOf(calls, key, period)|
    ensures var rs := RequestsOf(calls, key, period);
            && rs[j].until - period <= rs[j].at <= rs[j].until
            && (rs[i].until == rs[j].until || rs[i].until < rs[j].until - period)
  {
    TimesOrdered(calls, key);
    HitsLength(NoWindow, TimesOf(calls, key), period);
    WindowsApart(NoWindow, TimesOf(calls, key), period, i, j);
  }
}
