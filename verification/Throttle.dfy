/** The per-conversation throttle (services/api/src/agent/agent-throttle.service.ts) over Redis keys that
    expire, with handlers interleaved between their operations and time passing in between. */
module Throttle {
  type Conversation = nat
  /** The digest of the trimmed, lower-cased text: equal for equal texts. */
  type Digest = string

  const MESSAGE_LIMIT: nat := 20
  const WINDOW_SECONDS: nat := 300
  const WINDOW_MS: nat := 300000
  const DUPLICATE_MS: nat := 30000

  datatype CounterKey = CounterKey(conversation: Conversation, window: nat)
  datatype MarkKey = MarkKey(conversation: Conversation, digest: Digest)

  /** A key with an expiry is gone from that instant on. */
  datatype Counter = Counter(count: nat, expires: nat)

  /** Times are milliseconds. */
  datatype Redis = Redis(now: nat, counters: map<CounterKey, Counter>, marks: map<MarkKey, nat>)

  datatype Decision = Allow | RateLimited(retryAfterSeconds: nat) | Duplicate

  // ---- Redis ----

  function Count(r: Redis, k: CounterKey): nat {
    if k in r.counters && r.now < r.counters[k].expires then r.counters[k].count else 0
  }

  /** `MULTI INCR EXPIRE EXEC`: the key's life restarts with every increment. */
  function Increment(r: Redis, k: CounterKey): Redis {
    r.(counters := r.counters[k := Counter(Count(r, k) + 1, r.now + WINDOW_MS)])
  }

  predicate Marked(r: Redis, k: MarkKey) { k in r.marks && r.now < r.marks[k] }

  /** `SET key 1 EX 30 NX` */
  function Mark(r: Redis, k: MarkKey): Redis {
    if Marked(r, k) then r else r.(marks := r.marks[k := r.now + DUPLICATE_MS])
  }

  function Wait(r: Redis, ms: nat): Redis { r.(now := r.now + ms) }

  function WindowAt(ms: nat): nat { ms / WINDOW_MS }

  function RetryAfter(window: nat, ms: nat): nat {
    var left := (window + 1) * WINDOW_SECONDS - ms / 1000;
    if left > 1 then left else 1
  }

  // ---- The service ----

  /** What `check` decides and leaves in Redis when `d1`, `d2` and `d3` milliseconds pass before its
      marking, after its clock reading and after its increment. */
  function CheckResult(r: Redis, c: Conversation, digest: Digest, d1: nat, d2: nat, d3: nat): (Redis, Decision) {
    var r1 := Wait(r, d1);
    if Marked(r1, MarkKey(c, digest)) then (r1, Duplicate)
    else
      var window := WindowAt(r1.now);
      var r2 := Increment(Wait(Mark(r1, MarkKey(c, digest)), d2), CounterKey(c, window));
      if Count(r2, CounterKey(c, window)) > MESSAGE_LIMIT
      then (Wait(r2, d3), RateLimited(RetryAfter(window, r2.now + d3)))
      else (r2, Allow)
  }

  class AgentThrottle {
    var now: nat
    var counters: map<CounterKey, Counter>
    var marks: map<MarkKey, nat>

    ghost function Contents(): Redis reads this { Redis(now, counters, marks) }

    constructor ()
      ensures Contents() == Redis(0, map[], map[])
    {
      now, counters, marks := 0, map[], map[];
    }

    method Sleep(ms: nat)
      modifies this
      ensures Contents() == Wait(old(Contents()), ms)
    {
      now := now + ms;
    }

    method IsDuplicate(c: Conversation, digest: Digest) returns (duplicate: bool)
      modifies this
      ensures duplicate <==> Marked(old(Contents()), MarkKey(c, digest))
      ensures Contents() == Mark(old(Contents()), MarkKey(c, digest))
    {
      var key := MarkKey(c, digest);
      duplicate := key in marks && now < marks[key];
      if !duplicate {
        marks := marks[key := now + DUPLICATE_MS];
      }
    }

    method IncrementAndExpire(c: Conversation, window: nat) returns (count: nat)
      modifies this
      ensures Contents() == Increment(old(Contents()), CounterKey(c, window))
      ensures count == Count(Contents(), CounterKey(c, window)) == Count(old(Contents()), CounterKey(c, window)) + 1
    {
      var key := CounterKey(c, window);
      count := if key in counters && now < counters[key].expires then counters[key].count + 1 else 1;
      counters := counters[key := Counter(count, now + WINDOW_MS)];
    }

    method Check(c: Conversation, digest: Digest, d1: nat, d2: nat, d3: nat) returns (decision: Decision)
      modifies this
      ensures (Contents(), decision) == CheckResult(old(Contents()), c, digest, d1, d2, d3)
    {
      Sleep(d1);
      var duplicate := IsDuplicate(c, digest);
      if duplicate { return Duplicate; }
      var window := now / WINDOW_MS;
      Sleep(d2);
      var count := IncrementAndExpire(c, window);
      if count > MESSAGE_LIMIT {
        Sleep(d3);
        var left := (window + 1) * WINDOW_SECONDS - now / 1000;
        return RateLimited(if left > 1 then left else 1);
      }
      return Allow;
    }
  }

  /** After waiting the reported time the window has advanced. */
  lemma RetryAdvancesWindow(window: nat, ms: nat, later: nat)
    requires later >= ms + 1000 * RetryAfter(window, ms)
    ensures WindowAt(later) > window
  {
    assert ms / 1000 + RetryAfter(window, ms) >= (window + 1) * WINDOW_SECONDS;
    assert later >= 1000 * (ms / 1000 + RetryAfter(window, ms));
    assert later >= (window + 1) * WINDOW_MS;
  }

  /** The reported wait is the least whole number of seconds, and at least one, that leaves the window. */
  lemma RetryIsLeast(window: nat, ms: nat, seconds: nat)
    ensures RetryAfter(window, ms) <= seconds <==> seconds >= 1 && WindowAt(ms + 1000 * seconds) > window
  {
    var start := (window + 1) * WINDOW_SECONDS;
    assert ms / 1000 + seconds >= start <==> ms + 1000 * seconds >= 1000 * start;
    WindowBounds(ms + 1000 * seconds);
    if seconds >= RetryAfter(window, ms) {
      RetryAdvancesWindow(window, ms, ms + 1000 * seconds);
    }
  }

  // ---- Handlers interleaved ----

  datatype Phase = Arrived | Reading | Counting(window: nat)
  datatype Handler = Handler(conversation: Conversation, digest: Digest, phase: Phase)

  /** A message allowed by its counter, with the window it was counted in and when. */
  datatype Allowed = Allowed(conversation: Conversation, window: nat, at: nat)

  /** A message that got past the duplicate check. */
  datatype Passed = Passed(key: MarkKey, at: nat)

  datatype System = System(redis: Redis, handlers: map<nat, Handler>, allowed: seq<Allowed>, passed: seq<Passed>)

  /** `Outage` is a Redis error: the message is let through unchecked, and is in neither history. */
  datatype Step =
    | Pass(ms: nat)
    | Arrive(h: nat, conversation: Conversation, digest: Digest)
    | MarkText(h: nat)
    | ReadClock(h: nat)
    | CountMessage(h: nat)
    | Outage(h: nat)

  function Next(s: System, step: Step): System {
    match step
    case Pass(ms) => s.(redis := Wait(s.redis, ms))
    case Arrive(n, c, digest) =>
      if n in s.handlers then s else s.(handlers := s.handlers[n := Handler(c, digest, Arrived)])
    case MarkText(n) =>
      if n in s.handlers && s.handlers[n].phase.Arrived? then
        var key := MarkKey(s.handlers[n].conversation, s.handlers[n].digest);
        if Marked(s.redis, key) then s.(handlers := s.handlers - {n})
        else s.(redis := Mark(s.redis, key), passed := s.passed + [Passed(key, s.redis.now)],
                handlers := s.handlers[n := s.handlers[n].(phase := Reading)])
      else s
    case ReadClock(n) =>
      if n in s.handlers && s.handlers[n].phase.Reading?
      then s.(handlers := s.handlers[n := s.handlers[n].(phase := Counting(WindowAt(s.redis.now)))]) else s
    case CountMessage(n) =>
      if n in s.handlers && s.handlers[n].phase.Counting? then
        var c, w := s.handlers[n].conversation, s.handlers[n].phase.window;
        var redis := Increment(s.redis, CounterKey(c, w));
        s.(redis := redis, handlers := s.handlers - {n},
           allowed := if Count(redis, CounterKey(c, w)) > MESSAGE_LIMIT then s.allowed
             else s.allowed + [Allowed(c, w, s.redis.now)])
      else s
    case Outage(n) => s.(handlers := s.handlers - {n})
  }

  function Run(s: System, steps: seq<Step>): System
    decreases |steps|
  {
    if steps == [] then s else Run(Next(s, steps[0]), steps[1..])
  }

  const START: System := System(Redis(0, map[], map[]), map[], [], [])

  /** Counted while its own window was still open. */
  predicate InWindow(a: Allowed, c: Conversation, w: nat) {
    a.conversation == c && a.window == w && WindowAt(a.at) == w
  }

  function AllowedIn(log: seq<Allowed>, c: Conversation, w: nat): nat {
    if log == [] then 0
    else AllowedIn(log[..|log| - 1], c, w) + (if InWindow(log[|log| - 1], c, w) then 1 else 0)
  }

  lemma AllowedInSnoc(log: seq<Allowed>, a: Allowed, c: Conversation, w: nat)
    ensures AllowedIn(log + [a], c, w) == AllowedIn(log, c, w) + (if InWindow(a, c, w) then 1 else 0)
  {
    assert (log + [a])[..|log|] == log;
  }

  /** A check given up before it reaches Redis, which lets its message through, leaves nothing behind. */
  lemma GivenUpLeavesNothing(s: System, n: nat, c: Conversation, digest: Digest)
    requires n !in s.handlers
    ensures Next(Next(s, Arrive(n, c, digest)), Outage(n)) == s
  {
    assert s.handlers[n := Handler(c, digest, Arrived)] - {n} == s.handlers;
  }

  /** A check that nothing interrupts is one run of the interleaved system: same keys left in Redis, no
      handler left, and the message in the allowed history, under its window and time, exactly when it was
      allowed. */
  lemma CheckIsARun(s: System, n: nat, c: Conversation, digest: Digest, d1: nat, d2: nat)
    requires n !in s.handlers
    ensures var (redis, decision) := CheckResult(s.redis, c, digest, d1, d2, 0);
      var t := Next(Next(Next(Next(Next(Next(s, Pass(d1)), Arrive(n, c, digest)), MarkText(n)), ReadClock(n)),
        Pass(if decision == Duplicate then 0 else d2)), CountMessage(n));
      && t.redis == redis && t.handlers == s.handlers
      && t.allowed == (if decision == Allow
                       then s.allowed + [Allowed(c, WindowAt(s.redis.now + d1), s.redis.now + d1 + d2)] else s.allowed)
      && t.passed == (if decision == Duplicate then s.passed
                      else s.passed + [Passed(MarkKey(c, digest), s.redis.now + d1)])
  {
    var arrived, reading := Handler(c, digest, Arrived), Handler(c, digest, Reading);
    var counting := Handler(c, digest, Counting(WindowAt(s.redis.now + d1)));
    assert s.handlers[n := arrived] - {n} == s.handlers;
    assert s.handlers[n := arrived][n := reading][n := counting] - {n} == s.handlers;
  }

  /** Once counted, a key outlives its own window. */
  predicate OutlivesWindow(k: CounterKey, n: Counter) { n.expires >= (k.window + 1) * WINDOW_MS }

  ghost predicate CountersInv(s: System) {
    && (forall k :: k in s.redis.counters ==> OutlivesWindow(k, s.redis.counters[k]))
    && (forall n :: n in s.handlers && s.handlers[n].phase.Counting? ==>
      s.handlers[n].phase.window <= WindowAt(s.redis.now))
    && (forall c, w :: AllowedIn(s.allowed, c, w) <= MESSAGE_LIMIT)
    && (forall c, w :: w == WindowAt(s.redis.now) ==> AllowedIn(s.allowed, c, w) <= Count(s.redis, CounterKey(c, w)))
    && (forall c, w :: w > WindowAt(s.redis.now) ==> AllowedIn(s.allowed, c, w) == 0)
  }

  lemma WindowBounds(ms: nat)
    ensures WindowAt(ms) * WINDOW_MS <= ms < (WindowAt(ms) + 1) * WINDOW_MS
  {
  }

  lemma WindowsGrow(a: nat, b: nat)
    requires a <= b
    ensures WindowAt(a) <= WindowAt(b)
  {
  }

  lemma PassKeepsCounters(s: System, ms: nat)
    requires CountersInv(s)
    ensures CountersInv(Next(s, Pass(ms)))
  {
    hide AllowedIn;
    var t := Next(s, Pass(ms));
    WindowsGrow(s.redis.now, t.redis.now);
    WindowBounds(t.redis.now);
    forall c: Conversation, w: nat | w == WindowAt(t.redis.now)
      ensures AllowedIn(t.allowed, c, w) <= Count(t.redis, CounterKey(c, w))
    {
      if CounterKey(c, w) in s.redis.counters {
        assert OutlivesWindow(CounterKey(c, w), s.redis.counters[CounterKey(c, w)]);
      }
      assert w == WindowAt(s.redis.now) ==> AllowedIn(s.allowed, c, w) <= Count(s.redis, CounterKey(c, w));
    }
  }

  lemma CountKeepsCounters(s: System, n: nat)
    requires CountersInv(s) && n in s.handlers && s.handlers[n].phase.Counting?
    ensures CountersInv(Next(s, CountMessage(n)))
  {
    hide AllowedIn;
    var t, key := Next(s, CountMessage(n)), CounterKey(s.handlers[n].conversation, s.handlers[n].phase.window);
    WindowBounds(s.redis.now);
    assert OutlivesWindow(key, t.redis.counters[key]);
    var a := Allowed(key.conversation, key.window, s.redis.now);
    forall c: Conversation, w: nat
      ensures AllowedIn(t.allowed, c, w) <= MESSAGE_LIMIT
      ensures w == WindowAt(t.redis.now) ==> AllowedIn(t.allowed, c, w) <= Count(t.redis, CounterKey(c, w))
      ensures w > WindowAt(t.redis.now) ==> AllowedIn(t.allowed, c, w) == 0
    {
      AllowedInSnoc(s.allowed, a, c, w);
    }
  }

  lemma StepKeepsCounters(s: System, step: Step)
    requires CountersInv(s)
    ensures CountersInv(Next(s, step))
  {
    hide AllowedIn, OutlivesWindow;
    match step
    case Pass(ms) => PassKeepsCounters(s, ms);
    case CountMessage(n) => if n in s.handlers && s.handlers[n].phase.Counting? { CountKeepsCounters(s, n); }
    case _ => assert forall k :: Count(Next(s, step).redis, k) == Count(s.redis, k);
  }

  lemma {:induction false} RunKeepsCounters(s: System, steps: seq<Step>)
    requires CountersInv(s)
    ensures CountersInv(Run(s, steps))
    decreases |steps|
  {
    if steps != [] {
      StepKeepsCounters(s, steps[0]);
      RunKeepsCounters(Next(s, steps[0]), steps[1..]);
    }
  }

  /** Allowed messages of the 300 seconds from `from`, counted in their own windows. */
  function AllowedSince(log: seq<Allowed>, c: Conversation, from: nat): nat {
    if log == [] then 0
    else
      var a := log[|log| - 1];
      AllowedSince(log[..|log| - 1], c, from)
        + (if InWindow(a, c, a.window) && from <= a.at < from + WINDOW_MS then 1 else 0)
  }

  lemma {:induction false} SpanTouchesTwoWindows(log: seq<Allowed>, c: Conversation, from: nat)
    ensures AllowedSince(log, c, from) <= AllowedIn(log, c, WindowAt(from)) + AllowedIn(log, c, WindowAt(from) + 1)
  {
    if log != [] {
      SpanTouchesTwoWindows(log[..|log| - 1], c, from);
    }
  }

  /** Over every interleaving of handlers, clock readings and Redis operations: of the messages counted
      before their own window closed, at most 20 of a conversation are allowed in each window, and so at
      most 40 in any span of 300 seconds. */
  lemma AtMostTwentyPerWindow(steps: seq<Step>, c: Conversation, window: nat, from: nat)
    ensures AllowedIn(Run(START, steps).allowed, c, window) <= MESSAGE_LIMIT
    ensures AllowedSince(Run(START, steps).allowed, c, from) <= 2 * MESSAGE_LIMIT
  {
    RunKeepsCounters(START, steps);
    SpanTouchesTwoWindows(Run(START, steps).allowed, c, from);
  }

  // ---- At any delay ----

  /** Allowed messages of one window label in the 300 seconds from `from`, however late they were counted. */
  predicate InSpan(a: Allowed, k: CounterKey, from: nat) {
    a.conversation == k.conversation && a.window == k.window && from <= a.at < from + WINDOW_MS
  }

  function LabelledSince(log: seq<Allowed>, k: CounterKey, from: nat): nat {
    if log == [] then 0
    else LabelledSince(log[..|log| - 1], k, from) + (if InSpan(log[|log| - 1], k, from) then 1 else 0)
  }

  lemma LabelledSnoc(log: seq<Allowed>, a: Allowed, k: CounterKey, from: nat)
    ensures LabelledSince(log + [a], k, from) == LabelledSince(log, k, from) + (if InSpan(a, k, from) then 1 else 0)
  {
    assert (log + [a])[..|log|] == log;
  }

  lemma {:induction false} LabelledSome(log: seq<Allowed>, k: CounterKey, from: nat)
    ensures LabelledSince(log, k, from) > 0 ==> exists i :: 0 <= i < |log| && InSpan(log[i], k, from)
  {
    if log != [] {
      LabelledSome(log[..|log| - 1], k, from);
    }
  }

  /** The increment that allowed the message keeps its key for 300 seconds more. */
  predicate Renewed(r: Redis, a: Allowed) {
    var k := CounterKey(a.conversation, a.window);
    k in r.counters && r.counters[k].expires >= a.at + WINDOW_MS
  }

  ghost predicate SpanInv(s: System) {
    && (forall i :: 0 <= i < |s.allowed| ==> Renewed(s.redis, s.allowed[i]))
    && (forall k: CounterKey, from: nat :: LabelledSince(s.allowed, k, from) <= MESSAGE_LIMIT)
    && (forall k: CounterKey, from: nat :: s.redis.now < from + WINDOW_MS ==>
      LabelledSince(s.allowed, k, from) <= Count(s.redis, k))
    && (forall k :: k in s.redis.counters ==> s.redis.counters[k].expires <= s.redis.now + WINDOW_MS)
  }

  /** While a span is open its key has not expired since the span's first allowed message. */
  lemma PassKeepsSpan(s: System, ms: nat)
    requires SpanInv(s)
    ensures SpanInv(Next(s, Pass(ms)))
  {
    hide LabelledSince;
    var t := Next(s, Pass(ms));
    forall k: CounterKey, from: nat | t.redis.now < from + WINDOW_MS
      ensures LabelledSince(t.allowed, k, from) <= Count(t.redis, k)
    {
      LabelledSome(s.allowed, k, from);
      assert LabelledSince(s.allowed, k, from) <= Count(s.redis, k);
      if i :| 0 <= i < |s.allowed| && InSpan(s.allowed[i], k, from) {
        assert Renewed(s.redis, s.allowed[i]);
      }
    }
  }

  lemma CountKeepsSpan(s: System, n: nat)
    requires SpanInv(s) && n in s.handlers && s.handlers[n].phase.Counting?
    ensures SpanInv(Next(s, CountMessage(n)))
  {
    hide LabelledSince;
    var t, key := Next(s, CountMessage(n)), CounterKey(s.handlers[n].conversation, s.handlers[n].phase.window);
    var a := Allowed(key.conversation, key.window, s.redis.now);
    forall i | 0 <= i < |t.allowed| ensures Renewed(t.redis, t.allowed[i]) {
      if i < |s.allowed| {
        assert Renewed(s.redis, s.allowed[i]);
      }
    }
    forall k: CounterKey, from: nat
      ensures LabelledSince(t.allowed, k, from) <= MESSAGE_LIMIT
      ensures t.redis.now < from + WINDOW_MS ==> LabelledSince(t.allowed, k, from) <= Count(t.redis, k)
    {
      LabelledSnoc(s.allowed, a, k, from);
    }
  }

  lemma StepKeepsSpan(s: System, step: Step)
    requires SpanInv(s)
    ensures SpanInv(Next(s, step))
  {
    hide LabelledSince;
    match step
    case Pass(ms) => PassKeepsSpan(s, ms);
    case CountMessage(n) => if n in s.handlers && s.handlers[n].phase.Counting? { CountKeepsSpan(s, n); }
    case _ =>
      assert forall k :: Count(Next(s, step).redis, k) == Count(s.redis, k);
      assert forall i :: 0 <= i < |s.allowed| ==>
        (Renewed(s.redis, s.allowed[i]) ==> Renewed(Next(s, step).redis, s.allowed[i]));
  }

  lemma {:induction false} RunKeepsSpan(s: System, steps: seq<Step>)
    requires SpanInv(s)
    ensures SpanInv(Run(s, steps))
    decreases |steps|
  {
    if steps != [] {
      hide SpanInv, Next;
      StepKeepsSpan(s, steps[0]);
      RunKeepsSpan(Next(s, steps[0]), steps[1..]);
    }
  }

  /** Allowed messages of a conversation in the 300 seconds from `from`, under any of these labels. */
  function AllowedUnder(log: seq<Allowed>, c: Conversation, from: nat, labels: set<nat>): nat {
    if log == [] then 0
    else
      var a := log[|log| - 1];
      AllowedUnder(log[..|log| - 1], c, from, labels)
        + (if a.window in labels && InSpan(a, CounterKey(c, a.window), from) then 1 else 0)
  }

  lemma {:induction false} UnderSplit(log: seq<Allowed>, c: Conversation, from: nat, labels: set<nat>, w: nat)
    requires w in labels
    ensures AllowedUnder(log, c, from, labels)
      == AllowedUnder(log, c, from, labels - {w}) + LabelledSince(log, CounterKey(c, w), from)
  {
    if log != [] {
      UnderSplit(log[..|log| - 1], c, from, labels, w);
    }
  }

  lemma {:induction false} UnderNone(log: seq<Allowed>, c: Conversation, from: nat)
    ensures AllowedUnder(log, c, from, {}) == 0
  {
    if log != [] {
      UnderNone(log[..|log| - 1], c, from);
    }
  }

  lemma {:induction false} UnderBound(log: seq<Allowed>, c: Conversation, from: nat, labels: set<nat>)
    requires forall k :: LabelledSince(log, k, from) <= MESSAGE_LIMIT
    ensures AllowedUnder(log, c, from, labels) <= MESSAGE_LIMIT * |labels|
    decreases |labels|
  {
    if labels == {} {
      UnderNone(log, c, from);
    } else {
      var w :| w in labels;
      UnderSplit(log, c, from, labels, w);
      UnderBound(log, c, from, labels - {w});
      assert LabelledSince(log, CounterKey(c, w), from) <= MESSAGE_LIMIT;
    }
  }

  /** Over every interleaving and whatever the delays: in any 300 seconds at most 20 messages are allowed
      under one window's label, and so at most 20 for each label that messages of those seconds carry. */
  lemma AtMostTwentyPerLabel(steps: seq<Step>, k: CounterKey, c: Conversation, from: nat, labels: set<nat>)
    ensures LabelledSince(Run(START, steps).allowed, k, from) <= MESSAGE_LIMIT
    ensures AllowedUnder(Run(START, steps).allowed, c, from, labels) <= MESSAGE_LIMIT * |labels|
  {
    RunKeepsSpan(START, steps);
    UnderBound(Run(START, steps).allowed, c, from, labels);
  }

  // ---- Repeated texts ----

  predicate Apart(a: Passed, b: Passed) { a.key == b.key ==> b.at >= a.at + DUPLICATE_MS }

  ghost predicate MarksInv(s: System) {
    && (forall i, j :: 0 <= i < j < |s.passed| ==> Apart(s.passed[i], s.passed[j]))
    && (forall i :: 0 <= i < |s.passed| ==>
      s.passed[i].key in s.redis.marks && s.redis.marks[s.passed[i].key] >= s.passed[i].at + DUPLICATE_MS)
  }

  lemma {:induction false} RunKeepsMarks(s: System, steps: seq<Step>)
    requires MarksInv(s)
    ensures MarksInv(Run(s, steps))
    decreases |steps|
  {
    if steps != [] {
      RunKeepsMarks(Next(s, steps[0]), steps[1..]);
    }
  }

  /** Two messages of one conversation with the same text that both get past the duplicate check are at
      least 30 seconds apart, over every run. */
  lemma RepeatsAreApart(steps: seq<Step>, i: nat, j: nat)
    requires i < j < |Run(START, steps).passed|
    ensures Apart(Run(START, steps).passed[i], Run(START, steps).passed[j])
  {
    RunKeepsMarks(START, steps);
  }

  // ---- Runs that break the undelayed bounds ----

  ghost predicate Reached(s: System) { exists steps :: Run(START, steps) == s }

  lemma {:induction false} RunSnoc(s: System, steps: seq<Step>, step: Step)
    ensures Run(s, steps + [step]) == Next(Run(s, steps), step)
    decreases |steps|
  {
    hide Next;
    if steps == [] {
      assert [] + [step] == [step] && [step][1..] == [];
      assert Run(s, [step]) == Run(Next(s, step), []);
    } else {
      assert (steps + [step])[1..] == steps[1..] + [step];
      RunSnoc(Next(s, steps[0]), steps[1..], step);
    }
  }

  lemma ReachedNext(s: System, step: Step)
    requires Reached(s)
    ensures Reached(Next(s, step))
  {
    hide Next;
    var steps :| Run(START, steps) == s;
    RunSnoc(START, steps, step);
  }

  /** Texts of a conversation sent so far are shorter than `m`. */
  predicate Unsent(s: System, c: Conversation, m: nat) {
    forall k :: k in s.redis.marks && k.conversation == c ==> |k.digest| < m
  }

  function TextOf(m: nat): (t: Digest)
    ensures |t| == m
  {
    seq(m, _ => 'a')
  }

  function Repeat(a: Allowed, times: nat): seq<Allowed> { if times == 0 then [] else Repeat(a, times - 1) + [a] }

  /** What sending one or more further messages at once, with no time passing, does. */
  ghost predicate Sent(s: System, t: System, c: Conversation, m: nat, times: nat) {
    var k := CounterKey(c, WindowAt(s.redis.now));
    && Reached(t) && Unsent(t, c, m + times) && t.handlers == s.handlers && t.redis.now == s.redis.now
    && t.allowed == s.allowed + Repeat(Allowed(c, k.window, s.redis.now), times)
    && Count(t.redis, k) == Count(s.redis, k) + times
    && (times > 0 ==> k in t.redis.counters && t.redis.counters[k].expires == s.redis.now + WINDOW_MS)
    && (forall other :: other != k ==> Count(t.redis, other) == Count(s.redis, other))
  }

  lemma SendOne(s: System, c: Conversation, m: nat) returns (t: System)
    requires Reached(s) && Unsent(s, c, m) && 1 !in s.handlers
    requires Count(s.redis, CounterKey(c, WindowAt(s.redis.now))) < MESSAGE_LIMIT
    ensures Sent(s, t, c, m, 1)
  {
    hide Reached, WindowAt;
    var s1 := Next(s, Arrive(1, c, TextOf(m)));
    var s2 := Next(s1, MarkText(1));
    var s3 := Next(s2, ReadClock(1));
    t := Next(s3, CountMessage(1));
    ReachedNext(s, Arrive(1, c, TextOf(m)));
    ReachedNext(s1, MarkText(1));
    ReachedNext(s2, ReadClock(1));
    ReachedNext(s3, CountMessage(1));
    assert t.handlers == s.handlers;
    var a := Allowed(c, WindowAt(s.redis.now), s.redis.now);
    assert Repeat(a, 1) == Repeat(a, 0) + [a] == [a];
  }

  lemma {:induction false} SendMany(s: System, c: Conversation, m: nat, times: nat) returns (t: System)
    requires Reached(s) && Unsent(s, c, m) && 1 !in s.handlers
    requires Count(s.redis, CounterKey(c, WindowAt(s.redis.now))) + times <= MESSAGE_LIMIT
    ensures Sent(s, t, c, m, times)
  {
    if times == 0 {
      t := s;
    } else {
      hide Reached, WindowAt;
      var r := SendMany(s, c, m, times - 1);
      t := SendOne(r, c, m + times - 1);
      var a := Allowed(c, WindowAt(s.redis.now), s.redis.now);
      assert Repeat(a, 1) == Repeat(a, 0) + [a] == [a];
      assert s.allowed + Repeat(a, times) == s.allowed + Repeat(a, times - 1) + [a];
    }
  }

  /** A message of window 0 is on its way to its increment, and will be late. */
  lemma HoldOne(c: Conversation) returns (s: System)
    ensures Reached(s) && Unsent(s, c, 1) && s.redis.now == 0 && s.redis.counters == map[] && s.allowed == []
    ensures s.handlers == map[0 := Handler(c, TextOf(0), Counting(0))]
  {
    assert Run(START, []) == START;
    var s1 := Next(START, Arrive(0, c, TextOf(0)));
    var s2 := Next(s1, MarkText(0));
    s := Next(s2, ReadClock(0));
    ReachedNext(START, Arrive(0, c, TextOf(0)));
    ReachedNext(s1, MarkText(0));
    ReachedNext(s2, ReadClock(0));
  }

  /** All messages allowed under a label, ever. */
  function Labelled(log: seq<Allowed>, k: CounterKey): nat {
    if log == [] then 0
    else
      Labelled(log[..|log| - 1], k)
      + (if log[|log| - 1].conversation == k.conversation && log[|log| - 1].window == k.window then 1 else 0)
  }

  lemma {:induction false} LabelledRepeat(log: seq<Allowed>, k: CounterKey, at: nat, times: nat)
    ensures Labelled(log + Repeat(Allowed(k.conversation, k.window, at), times), k) == Labelled(log, k) + times
  {
    var a := Allowed(k.conversation, k.window, at);
    if times == 0 {
      assert log + [] == log;
    } else {
      LabelledRepeat(log, k, at, times - 1);
      var longer := log + Repeat(a, times);
      assert longer[..|longer| - 1] == log + Repeat(a, times - 1);
    }
  }

  lemma {:induction false} UnderRepeat(log: seq<Allowed>, a: Allowed, times: nat, from: nat, labels: set<nat>)
    requires a.window in labels && from <= a.at < from + WINDOW_MS
    ensures AllowedUnder(log + Repeat(a, times), a.conversation, from, labels)
      == AllowedUnder(log, a.conversation, from, labels) + times
  {
    if times == 0 {
      assert log + [] == log;
    } else {
      UnderRepeat(log, a, times - 1, from, labels);
      var longer := log + Repeat(a, times);
      assert longer[..|longer| - 1] == log + Repeat(a, times - 1);
    }
  }

  /** Twenty-one messages under one label: twenty are counted at once, and one delayed past the expiry of
      the window's key is counted from one again. */
  lemma MoreThanTwentyUnderOneLabel(c: Conversation)
    ensures exists s :: Reached(s) && Labelled(s.allowed, CounterKey(c, 0)) == MESSAGE_LIMIT + 1
  {
    hide Reached;
    var k := CounterKey(c, 0);
    var s := HoldOne(c);
    var full := SendMany(s, c, 1, MESSAGE_LIMIT);
    var later := Next(full, Pass(WINDOW_MS));
    var t := Next(later, CountMessage(0));
    ReachedNext(full, Pass(WINDOW_MS));
    ReachedNext(later, CountMessage(0));
    assert WindowAt(0) == 0;
    LabelledRepeat([], k, 0, MESSAGE_LIMIT);
    assert full.allowed == [] + Repeat(Allowed(c, 0, 0), MESSAGE_LIMIT);
    assert t.allowed == full.allowed + [Allowed(c, 0, WINDOW_MS)];
    assert t.allowed[..|full.allowed|] == full.allowed;
  }

  /** Forty-one messages within 300 seconds, no key having expired: a late one of window 0, twenty of
      window 1 and twenty of window 2. */
  lemma MoreThanFortyInASpan(c: Conversation)
    ensures exists s :: Reached(s) && AllowedUnder(s.allowed, c, WINDOW_MS + 1, {0, 1, 2}) == 2 * MESSAGE_LIMIT + 1
  {
    hide Reached;
    var from := WINDOW_MS + 1;
    var s := HoldOne(c);
    var late := Next(s, Pass(from));
    var s1 := Next(late, CountMessage(0));
    ReachedNext(s, Pass(from));
    ReachedNext(late, CountMessage(0));
    assert s1.allowed == [Allowed(c, 0, from)];
    assert WindowAt(from) == 1 && WindowAt(2 * WINDOW_MS) == 2;
    var s2 := SendMany(s1, c, 1, MESSAGE_LIMIT);
    assert Count(s2.redis, CounterKey(c, 2)) == Count(s1.redis, CounterKey(c, 2)) == 0;
    var s3 := Next(s2, Pass(WINDOW_MS - 1));
    ReachedNext(s2, Pass(WINDOW_MS - 1));
    var s4 := SendMany(s3, c, 1 + MESSAGE_LIMIT, MESSAGE_LIMIT);
    UnderRepeat([Allowed(c, 0, from)], Allowed(c, 1, from), MESSAGE_LIMIT, from, {0, 1, 2});
    UnderRepeat(s2.allowed, Allowed(c, 2, 2 * WINDOW_MS), MESSAGE_LIMIT, from, {0, 1, 2});
    assert [Allowed(c, 0, from)][..0] == [];
    assert AllowedUnder([Allowed(c, 0, from)], c, from, {0, 1, 2}) == 1;
  }
}
