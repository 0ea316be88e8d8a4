/** The in-memory store (cache/backend/memory/memory.go), against one that never evicts anything. */
module MemoryCache {
  import opened Results

  type Key = string

  /** expiresAt is None for an entry that never expires. */
  datatype Entry = Entry(value: string, expiresAt: Option<int>) {
    /** Strictly after its expiry. */
    predicate Expired(now: int) {
      expiresAt.Some? && now > expiresAt.value
    }
  }

  type Entries = map<Key, Entry>

  const TWO_63 := 0x8000_0000_0000_0000
  const TWO_64 := 0x1_0000_0000_0000_0000

  /** Go's int64 addition. */
  function Wrap(n: int): int {
    var low := n % TWO_64;
    if low >= TWO_63 then low - TWO_64 else low
  }

  predicate Int64(n: int) {
    -TWO_63 <= n < TWO_63
  }

  // ----- Integers as decimal text -----

  function Digits(n: nat): string {
    if n < 10 then [(n as char) + '0'] else Digits(n / 10) + [((n % 10) as char) + '0']
  }

  function FormatInt(n: int): string {
    if n < 0 then "-" + Digits(-n) else Digits(n)
  }

  function ParseDigits(s: string): Option<nat> {
    if s == "" then Some(0)
    else
      var last := s[|s| - 1];
      match ParseDigits(s[..|s| - 1])
      case None => None
      case Some(n) => if '0' <= last <= '9' then Some(10 * n + (last - '0') as int) else None
  }

  /** strconv.ParseInt in base ten, for 64 bits. */
  function ParseInt(s: string): Option<int> {
    var sign := s != "" && (s[0] == '-' || s[0] == '+');
    var digits := if sign then s[1..] else s;
    if digits == "" then None
    else
      match ParseDigits(digits)
      case None => None
      case Some(n) =>
        var m: int := n;
        var value := if sign && s[0] == '-' then -m else m;
        if Int64(value) then Some(value) else None
  }

  lemma {:induction false} DigitsParse(n: nat)
    ensures ParseDigits(Digits(n)) == Some(n)
    ensures Digits(n) != "" && '0' <= Digits(n)[0] <= '9'
  {
    var s := Digits(n);
    if n < 10 {
      assert s[..0] == "";
    } else {
      DigitsParse(n / 10);
      assert s[..|s| - 1] == Digits(n / 10);
    }
  }

  lemma FormatParses(n: int)
    requires Int64(n)
    ensures ParseInt(FormatInt(n)) == Some(n)
  {
    DigitsParse(if n < 0 then -n else n);
    assert n < 0 ==> FormatInt(n)[1..] == Digits(-n);
  }

  // ----- Operations -----

  datatype Op =
    | Read(key: Key)
    | Exist(key: Key)
    | Write(key: Key, value: string, ttl: int)
    | Delete(key: Key)
    | Increment(key: Key, delta: int, ttl: int)
    | Clear
    | Sweep

  datatype Answer =
    | Done
    | Value(value: string)
    | Missing
    | Present
    | Count(count: int, expiresAt: Option<int>)
    | NotACounter

  function Live(entries: Entries, now: int): Entries {
    map k | k in entries && !entries[k].Expired(now) :: entries[k]
  }

  function Deadline(now: int, ttl: int): Option<int> {
    if ttl > 0 then Some(now + ttl) else None
  }

  /** The answer a store gives, from its entries that have not expired. */
  function Answered(live: Entries, op: Op, now: int): Answer {
    match op
    case Read(k) => if k in live then Value(live[k].value) else Missing
    case Exist(k) => if k in live then Present else Missing
    case Increment(k, delta, ttl) =>
      if k !in live then Count(delta, Deadline(now, ttl))
      else if ParseInt(live[k].value).None? then NotACounter
      else Count(Wrap(ParseInt(live[k].value).value + delta), live[k].expiresAt)
    case _ => Done
  }

  /** The entries afterwards, in a store that removes nothing it is not told to. */
  function Kept(entries: Entries, op: Op, now: int): Entries {
    match op
    case Write(k, value, ttl) => entries[k := Entry(value, Deadline(now, ttl))]
    case Delete(k) => entries - {k}
    case Clear => map[]
    case Increment(k, delta, ttl) =>
      var answer := Answered(Live(entries, now), op, now);
      if answer.Count? then entries[k := Entry(FormatInt(answer.count), answer.expiresAt)] else entries
    case _ => entries
  }

  /** What eviction adds: a sweep removes every expired entry, a look-up the one it finds expired. */
  function Evicted(entries: Entries, op: Op, now: int): Entries {
    match op
    case Sweep => Live(entries, now)
    case Read(k) => if k in entries && entries[k].Expired(now) then entries - {k} else entries
    case Exist(k) => if k in entries && entries[k].Expired(now) then entries - {k} else entries
    case _ => Kept(entries, op, now)
  }

  class Backend {
    var entries: Entries

    method Read(key: Key, now: int) returns (answer: Answer)
      modifies this
      ensures answer == Answered(Live(old(entries), now), Op.Read(key), now)
      ensures entries == Evicted(old(entries), Op.Read(key), now)
      ensures answer.Value? || answer == Missing
      ensures answer.Value? <==> key in old(entries) && (old(entries)[key].expiresAt.None? || now <= old(entries)[key].expiresAt.value)
      ensures answer.Value? ==> answer.value == old(entries)[key].value && entries == old(entries)
      ensures answer == Missing ==> entries == old(entries) - {key}
    {
      if key !in entries {
        return Missing;
      }
      var e := entries[key];
      if e.Expired(now) {
        entries := entries - {key};
        return Missing;
      }
      answer := Value(e.value);
    }

    method Write(key: Key, value: string, ttl: int, now: int)
      modifies this
      ensures entries == Evicted(old(entries), Op.Write(key, value, ttl), now)
      ensures entries == old(entries)[key := Entry(value, if ttl > 0 then Some(now + ttl) else None)]
    {
      var expiresAt := None;
      if ttl > 0 {
        expiresAt := Some(now + ttl);
      }
      entries := entries[key := Entry(value, expiresAt)];
    }

    method Delete(key: Key)
      modifies this
      ensures entries == Evicted(old(entries), Op.Delete(key), 0)
      ensures key !in entries && forall k :: k != key ==> (k in entries <==> k in old(entries)) && (k in entries ==> entries[k] == old(entries)[k])
    {
      entries := entries - {key};
    }

    method Exist(key: Key, now: int) returns (answer: Answer)
      modifies this
      ensures answer == Answered(Live(old(entries), now), Op.Exist(key), now)
      ensures entries == Evicted(old(entries), Op.Exist(key), now)
      ensures answer == Present || answer == Missing
      ensures answer == Present <==> key in old(entries) && (old(entries)[key].expiresAt.None? || now <= old(entries)[key].expiresAt.value)
    {
      if key !in entries {
        return Missing;
      }
      if entries[key].Expired(now) {
        entries := entries - {key};
        return Missing;
      }
      answer := Present;
    }

    method Increment(key: Key, delta: int, ttl: int, now: int) returns (answer: Answer)
      modifies this
      ensures answer == Answered(Live(old(entries), now), Op.Increment(key, delta, ttl), now)
      ensures entries == Evicted(old(entries), Op.Increment(key, delta, ttl), now)
      ensures key !in old(entries) || old(entries)[key].Expired(now) ==> answer == Count(delta, if ttl > 0 then Some(now + ttl) else None)
      ensures key in old(entries) && !old(entries)[key].Expired(now) ==>
        var was, current := old(entries)[key], ParseInt(old(entries)[key].value);
        answer == if current.None? then NotACounter else Count(Wrap(current.value + delta), was.expiresAt)
      ensures if answer.Count? then entries == old(entries)[key := Entry(FormatInt(answer.count), answer.expiresAt)] else entries == old(entries)
    {
      if key !in entries || entries[key].Expired(now) {
        var expiresAt := None;
        if ttl > 0 {
          expiresAt := Some(now + ttl);
        }
        entries := entries[key := Entry(FormatInt(delta), expiresAt)];
        return Count(delta, expiresAt);
      }
      var e := entries[key];
      var cur := ParseInt(e.value);
      if cur.None? {
        return NotACounter;
      }
      var next := Wrap(cur.value + delta);
      entries := entries[key := Entry(FormatInt(next), e.expiresAt)];
      answer := Count(next, e.expiresAt);
    }

    method Clear()
      modifies this
      ensures entries == map[]
    {
      entries := map[];
    }

    /** sweep, over the keys in any order. */
    method Sweep(now: int)
      modifies this
      ensures entries == Live(old(entries), now)
    {
      var left := entries.Keys;
      while left != {}
        invariant left <= old(entries).Keys && left <= entries.Keys <= old(entries).Keys
        invariant forall k :: k in old(entries) && k !in left ==> (k in entries <==> !old(entries)[k].Expired(now))
        invariant forall k :: k in entries ==> entries[k] == old(entries)[k]
        decreases |left|
      {
        var key :| key in left;
        left := left - {key};
        if entries[key].Expired(now) {
          entries := entries - {key};
        }
      }
      assert entries.Keys == Live(old(entries), now).Keys;
    }
  }

  // ----- What is written is read, up to its deadline -----

  datatype Call = Call(op: Op, now: int)

  function Ran(entries: Entries, calls: seq<Call>): Entries
    decreases |calls|
  {
    if calls == [] then entries else Ran(Evicted(entries, calls[0].op, calls[0].now), calls[1..])
  }

  /** No call changes the key's entry, though many may notice that it has expired; and none is later than now. */
  ghost predicate Leaves(calls: seq<Call>, key: Key, now: int) {
    forall c <- calls :: c.now <= now && !c.op.Clear? && ((c.op.Write? || c.op.Delete? || c.op.Increment?) ==> c.op.key != key)
  }

  /** The key has this entry, or none because it has expired by now. */
  ghost predicate HasEntry(entries: Entries, key: Key, e: Entry, now: int) {
    if key in entries then entries[key] == e else e.Expired(now)
  }

  lemma {:induction false} RunLeaves(entries: Entries, calls: seq<Call>, key: Key, e: Entry, now: int)
    requires Leaves(calls, key, now) && HasEntry(entries, key, e, now)
    ensures HasEntry(Ran(entries, calls), key, e, now)
    decreases |calls|
  {
    if calls != [] {
      assert calls[0] in calls && forall c <- calls[1..] :: c in calls;
      RunLeaves(Evicted(entries, calls[0].op, calls[0].now), calls[1..], key, e, now);
    }
  }

  lemma {:induction false} RunLeavesNone(entries: Entries, calls: seq<Call>, key: Key, now: int)
    requires Leaves(calls, key, now) && key !in entries
    ensures key !in Ran(entries, calls)
    decreases |calls|
  {
    if calls != [] {
      assert calls[0] in calls && forall c <- calls[1..] :: c in calls;
      RunLeavesNone(Evicted(entries, calls[0].op, calls[0].now), calls[1..], key, now);
    }
  }

  /** After a Write, whatever is done with other keys or looked up or swept, the value is found up to its deadline and not after. */
  lemma ReadsWhatWasWritten(entries: Entries, key: Key, value: string, ttl: int, at: int, calls: seq<Call>, now: int)
    requires Leaves(calls, key, now)
    ensures var left := Ran(Evicted(entries, Write(key, value, ttl), at), calls);
            var lasts := ttl <= 0 || now <= at + ttl;
            && Answered(Live(left, now), Read(key), now) == (if lasts then Value(value) else Missing)
            && Answered(Live(left, now), Exist(key), now) == (if lasts then Present else Missing)
  {
    RunLeaves(Evicted(entries, Write(key, value, ttl), at), calls, key, Entry(value, Deadline(at, ttl)), now);
    hide Ran;
  }

  /** After a Delete it is not found until somebody writes it again. */
  lemma ReadsNothingDeleted(entries: Entries, key: Key, at: int, calls: seq<Call>, now: int)
    requires Leaves(calls, key, now)
    ensures var left := Ran(Evicted(entries, Delete(key), at), calls);
            Answered(Live(left, now), Read(key), now) == Missing && Answered(Live(left, now), Exist(key), now) == Missing
  {
    RunLeavesNone(Evicted(entries, Delete(key), at), calls, key, now);
    hide Ran;
  }

  // ----- Eviction changes no answer -----

  function Answers(entries: Entries, calls: seq<Call>): seq<Answer>
    decreases |calls|
  {
    if calls == [] then []
    else
      var op, now := calls[0].op, calls[0].now;
      [Answered(Live(entries, now), op, now)] + Answers(Evicted(entries, op, now), calls[1..])
  }

  /** The answers of a store in which nothing is ever evicted. */
  function KeptAnswers(entries: Entries, calls: seq<Call>): seq<Answer>
    decreases |calls|
  {
    if calls == [] then []
    else
      var op, now := calls[0].op, calls[0].now;
      [Answered(Live(entries, now), op, now)] + KeptAnswers(Kept(entries, op, now), calls[1..])
  }

  /** Read, Exist and Increment read the clock with the mutex held; a Write or a sweep may come to it with an old reading. */
  predicate UnderLock(op: Op) {
    op.Read? || op.Exist? || op.Increment?
  }

  /** No reading taken under the mutex, from the time given on, is earlier than one that some call before it brought along. */
  ghost predicate Forward(calls: seq<Call>, from: int) {
    && (forall i :: 0 <= i < |calls| && UnderLock(calls[i].op) ==> from <= calls[i].now)
    && (forall i, j :: 0 <= i < j < |calls| && UnderLock(calls[j].op) ==> calls[i].now <= calls[j].now)
  }

  /** From now on the two stores can never be told apart. */
  ghost predicate Alike(a: Entries, b: Entries, from: int) {
    forall t :: from <= t ==> Live(a, t) == Live(b, t)
  }

  lemma StepAlike(a: Entries, b: Entries, op: Op, now: int, from: int)
    requires Alike(a, b, from) && (UnderLock(op) ==> from <= now)
    ensures Alike(Evicted(a, op, now), Kept(b, op, now), Later(now, from))
    ensures Answered(Live(a, now), op, now) == Answered(Live(b, now), op, now)
  {
    assert UnderLock(op) ==> Live(a, now) == Live(b, now);
    var x, y := Evicted(a, op, now), Kept(b, op, now);
    forall t | Later(now, from) <= t
      ensures Live(x, t) == Live(y, t)
    {
      assert Live(a, t) == Live(b, t);
      StepAlikeAt(a, b, op, now, t);
    }
  }

  function Later(a: int, b: int): int {
    if a < b then b else a
  }

  lemma StepAlikeAt(a: Entries, b: Entries, op: Op, now: int, t: int)
    requires now <= t && (UnderLock(op) ==> Live(a, now) == Live(b, now)) && Live(a, t) == Live(b, t)
    ensures Live(Evicted(a, op, now), t) == Live(Kept(b, op, now), t)
  {
    hide FormatInt, ParseInt, Wrap;
    var x, y := Live(Evicted(a, op, now), t), Live(Kept(b, op, now), t);
    forall k
      ensures (k in x <==> k in y) && (k in x ==> x[k] == y[k])
    {
      assert k in Live(a, t) <==> k in Live(b, t);
      assert k in Live(a, t) ==> Live(a, t)[k] == Live(b, t)[k];
    }
  }

  /** With a clock that does not run backwards, evictions placed anywhere change no answer. */
  lemma {:induction false} EvictionInvisible(a: Entries, b: Entries, calls: seq<Call>, from: int)
    requires Forward(calls, from) && Alike(a, b, from)
    ensures Answers(a, calls) == KeptAnswers(b, calls)
    decreases |calls|
  {
    if calls != [] {
      var op, now := calls[0].op, calls[0].now;
      StepAlike(a, b, op, now, from);
      assert Forward(calls[1..], Later(now, from));
      EvictionInvisible(Evicted(a, op, now), Kept(b, op, now), calls[1..], Later(now, from));
    }
  }
}
