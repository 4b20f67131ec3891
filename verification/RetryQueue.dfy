/** The retry queue: a Redis list of ready envelopes and a scored set of delayed ones.
    Models backend/app/services/queue.py and the delays of backend/app/services/queue_worker.py. */
module RetryQueue {
  import opened Models

  datatype Kind = Webhook | OtherKind

  /** What stays the same about a task over its retries. */
  datatype Core = Core(kind: Kind, payload: Id, createdAt: Time)

  datatype Envelope = Envelope(core: Core, attempts: int)

  /** The ready list from its left end, the scored set, and the time. */
  datatype Queue = Queue(ready: seq<Envelope>, scheduled: map<Envelope, real>, clock: real)

  /** How many envelopes one drain moves at most. */
  const BATCH: nat := 100

  // ---------------------------------------------------------------------------
  // The ready list
  // ---------------------------------------------------------------------------

  /** LPUSH of several values pushes them on the left end one after the other. */
  function LPush(list: seq<Envelope>, values: seq<Envelope>): seq<Envelope>
    decreases values
  {
    if values == [] then list else LPush([values[0]] + list, values[1..])
  }

  /** The order in which the right end gives the list away. */
  function Deliveries(list: seq<Envelope>): (r: seq<Envelope>)
    ensures |r| == |list|
    ensures list != [] ==> r[0] == list[|list| - 1] && r[1..] == Deliveries(list[..|list| - 1])
    decreases |list|
  {
    if list == [] then [] else [list[|list| - 1]] + Deliveries(list[..|list| - 1])
  }

  lemma {:induction false} DeliveriesCons(e: Envelope, list: seq<Envelope>)
    ensures Deliveries([e] + list) == Deliveries(list) + [e]
    decreases |list|
  {
    if list == [] {
      assert [e] + list == [e];
    } else {
      var longer, front, last := [e] + list, list[..|list| - 1], list[|list| - 1];
      DeliveriesCons(e, front);
      assert longer[..|longer| - 1] == [e] + front && longer[|longer| - 1] == last;
      assert Deliveries(longer) == [last] + (Deliveries(front) + [e]);
    }
  }

  /** What is pushed is delivered behind what was waiting, in the order of the push. */
  lemma {:induction false} PushedLast(list: seq<Envelope>, values: seq<Envelope>)
    ensures Deliveries(LPush(list, values)) == Deliveries(list) + values
    decreases values
  {
    if values != [] {
      PushedLast([values[0]] + list, values[1..]);
      DeliveriesCons(values[0], list);
    }
  }

  lemma {:induction false} PushedAll(list: seq<Envelope>, values: seq<Envelope>)
    ensures multiset(LPush(list, values)) == multiset(list) + multiset(values)
    ensures |LPush(list, values)| == |list| + |values|
    decreases values
  {
    if values != [] {
      PushedAll([values[0]] + list, values[1..]);
      assert values == [values[0]] + values[1..];
    }
  }

  // ---------------------------------------------------------------------------
  // The scored set
  // ---------------------------------------------------------------------------

  /** An answer to ZRANGEBYSCORE -inf..now LIMIT 0 max: the members that are due first. Members with the same score
      come in any order. */
  ghost predicate IsBatch(scheduled: map<Envelope, real>, now: real, max: nat, items: seq<Envelope>) {
    && |items| <= max
    && (forall i :: 0 <= i < |items| ==> items[i] in scheduled && scheduled[items[i]] <= now)
    && (forall i, j :: 0 <= i < j < |items| ==> items[i] != items[j] && scheduled[items[i]] <= scheduled[items[j]])
    && (forall e | e in scheduled && e !in items && scheduled[e] <= now ::
          |items| == max && forall i :: 0 <= i < |items| ==> scheduled[items[i]] <= scheduled[e])
  }

  /** The lowest score from `from` on. */
  ghost predicate IsNext(scheduled: map<Envelope, real>, from: real, next: Option<real>) {
    match next
    case None => forall e | e in scheduled :: scheduled[e] < from
    case Some(x) =>
      && x >= from && x in scheduled.Values
      && forall e | e in scheduled && scheduled[e] >= from :: x <= scheduled[e]
  }

  function Without(scheduled: map<Envelope, real>, items: seq<Envelope>): map<Envelope, real> {
    map e | e in scheduled && e !in items :: scheduled[e]
  }

  /** One run of `_drain_ready_scheduled_tasks`, and the delay it returns. */
  ghost predicate Drained(before: Queue, after: Queue, items: seq<Envelope>, delay: Option<real>) {
    && IsBatch(before.scheduled, before.clock, BATCH, items)
    && after == Queue(LPush(before.ready, items), Without(before.scheduled, items), before.clock)
    && exists next :: IsNext(after.scheduled, after.clock, next) && delay == Delay(next, after.clock)
  }

  function Delay(next: Option<real>, now: real): Option<real> {
    match next
    case None => None
    case Some(x) => Some(if x - now > 0.0 then x - now else 0.0)
  }

  /** Everything in the queue. */
  function Contents(q: Queue): multiset<Envelope> {
    multiset(q.ready) + multiset(q.scheduled.Keys)
  }

  /** Draining moves envelopes and neither loses nor copies one; they are delivered behind those already waiting, in
      the order in which they were due. */
  lemma {:induction false} DrainKeepsContents(before: Queue, after: Queue, items: seq<Envelope>, delay: Option<real>)
    requires Drained(before, after, items, delay)
    ensures Contents(after) == Contents(before)
    ensures Deliveries(after.ready) == Deliveries(before.ready) + items
    ensures forall i, j :: 0 <= i < j < |items| ==> before.scheduled[items[i]] <= before.scheduled[items[j]]
  {
    PushedLast(before.ready, items);
    PushedAll(before.ready, items);
    WithoutKeys(before.scheduled, items);
  }

  lemma {:induction false} WithoutKeys(scheduled: map<Envelope, real>, items: seq<Envelope>)
    requires forall e | e in items :: e in scheduled
    requires forall i, j :: 0 <= i < j < |items| ==> items[i] != items[j]
    ensures multiset(scheduled.Keys) == multiset(items) + multiset(Without(scheduled, items).Keys)
  {
    DistinctOnce(items);
    var left := Without(scheduled, items).Keys;
    assert scheduled.Keys == (set e | e in items) + left && (set e | e in items) !! left;
  }

  lemma {:induction false} DistinctOnce(items: seq<Envelope>)
    requires forall i, j :: 0 <= i < j < |items| ==> items[i] != items[j]
    ensures multiset(items) == multiset(set e | e in items)
  {
    if items != [] {
      var last := items[|items| - 1];
      var front := items[..|items| - 1];
      DistinctOnce(front);
      assert items == front + [last];
      assert last !in front;
      assert (set e | e in items) == (set e | e in front) + {last};
    }
  }

  /** If nothing waits after a drain, nothing was due, and the delay is the time until the next envelope is. */
  lemma {:induction false} NothingDue(before: Queue, after: Queue, items: seq<Envelope>, delay: Option<real>)
    requires Drained(before, after, items, delay) && after.ready == []
    ensures before.ready == [] && after == before
    ensures forall e | e in before.scheduled :: before.scheduled[e] > before.clock
    ensures delay.None? <==> before.scheduled == map[]
    ensures delay.Some? ==> delay.value > 0.0
    ensures delay.Some? ==> before.clock + delay.value in before.scheduled.Values
    ensures delay.Some? ==> forall e | e in before.scheduled :: before.clock + delay.value <= before.scheduled[e]
  {
    PushedAll(before.ready, items);
    assert items == [];
    assert after.scheduled == before.scheduled;
    assert forall e | e in before.scheduled :: before.scheduled[e] > before.clock;
  }

  // ---------------------------------------------------------------------------
  // Delays
  // ---------------------------------------------------------------------------

  function Pow2(n: nat): (r: real)
    ensures r >= 1.0
  {
    if n == 0 then 1.0 else 2.0 * Pow2(n - 1)
  }

  function Min(a: real, b: real): real { if a <= b then a else b }

  /** The `attempts_to_delay` of webhook tasks. */
  function BaseDelay(attempts: int, base: real, max: real): real {
    Min(base * Pow2(if attempts > 0 then attempts else 0), max)
  }

  /** The most `_compute_jitter` can add. */
  function JitterBound(baseDelay: real, max: real): real {
    Min(max / 10.0, baseDelay * 0.1)
  }

  /** The delay of a retry, for a draw between 0 and 1. */
  function RetryDelay(attempts: int, draw: real, base: real, max: real): real {
    BaseDelay(attempts, base, max) + draw * JitterBound(BaseDelay(attempts, base, max), max)
  }

  lemma {:induction false} AtLeastOnce(base: real, factor: real)
    requires base >= 0.0 && factor >= 1.0
    ensures base * factor >= base
    ensures base == 0.0 ==> base * factor == 0.0
  {
    assert base * factor == base + base * (factor - 1.0);
    assert base * (factor - 1.0) >= 0.0;
  }

  lemma {:induction false} WithJitter(b: real, draw: real, max: real)
    requires 0.0 <= b <= max && 0.0 <= draw <= 1.0
    ensures b <= b + draw * JitterBound(b, max) <= b * 1.1 <= 1.1 * max
  {
  }

  /** A retry waits at least its base delay and at most a tenth longer, never more than 1.1 times the maximum, and
      not at all only where the settings leave no delay. */
  lemma {:induction false} RetryDelayBounds(attempts: int, draw: real, base: real, max: real)
    requires base >= 0.0 && max >= 0.0 && 0.0 <= draw <= 1.0
    ensures var b := BaseDelay(attempts, base, max);
      && b <= RetryDelay(attempts, draw, base, max) <= b * 1.1
      && RetryDelay(attempts, draw, base, max) <= 1.1 * max
      && (RetryDelay(attempts, draw, base, max) == 0.0 <==> base == 0.0 || max == 0.0)
  {
    WithJitter(BaseDelay(attempts, base, max), draw, max);
  }

  /** The base delay never shrinks from one attempt to a later one. */
  lemma {:induction false} BackoffGrows(a1: int, a2: int, base: real, max: real)
    requires a1 <= a2 && base >= 0.0
    ensures BaseDelay(a1, base, max) <= BaseDelay(a2, base, max)
    decreases a2 - a1
  {
    if a1 < a2 {
      BackoffGrows(a1, a2 - 1, base, max);
      if a2 > 0 {
        AtLeastOnce(base * Pow2(a2 - 1), 2.0);
        assert base * Pow2(a2) == base * Pow2(a2 - 1) * 2.0;
      }
    }
  }

  /** The first retry waits the base time, and each further one twice as long as the one before, up to the maximum. */
  lemma {:induction false} BackoffDoubles(attempts: int, base: real, max: real)
    requires base >= 0.0 && max >= 0.0
    ensures attempts <= 0 ==> BaseDelay(attempts, base, max) == if base <= max then base else max
    ensures attempts >= 0 ==>
      BaseDelay(attempts + 1, base, max) == if 2.0 * BaseDelay(attempts, base, max) <= max
        then 2.0 * BaseDelay(attempts, base, max) else max
  {
    if attempts >= 0 {
      assert base * Pow2(attempts + 1) == 2.0 * (base * Pow2(attempts));
    }
  }

  /** Jitter goes from nothing to a tenth, of the base delay or of the maximum if that is less. */
  lemma {:induction false} JitterRange(attempts: int, base: real, max: real)
    ensures var b := BaseDelay(attempts, base, max);
      && RetryDelay(attempts, 0.0, base, max) == b
      && RetryDelay(attempts, 1.0, base, max) == b + if max / 10.0 <= b * 0.1 then max / 10.0 else b * 0.1
  {
  }

  // ---------------------------------------------------------------------------
  // Attempts left
  // ---------------------------------------------------------------------------

  /** How often an envelope may still be handled: once, and again while its attempts stay within the retries. */
  function AttemptsLeft(e: Envelope, maxRetries: int): (n: nat)
    ensures n >= 1
  {
    if e.attempts >= maxRetries then 1 else maxRetries + 1 - e.attempts
  }

  ghost function TotalLeft(m: multiset<Envelope>, maxRetries: int): nat
    decreases |m|
  {
    if m == multiset{} then 0
    else
      var e :| e in m;
      AttemptsLeft(e, maxRetries) + TotalLeft(m - multiset{e}, maxRetries)
  }

  lemma {:induction false} TotalLeftWithout(m: multiset<Envelope>, e: Envelope, maxRetries: int)
    requires e in m
    ensures TotalLeft(m, maxRetries) == AttemptsLeft(e, maxRetries) + TotalLeft(m - multiset{e}, maxRetries)
    decreases |m|
  {
    var f :| f in m && TotalLeft(m, maxRetries) == AttemptsLeft(f, maxRetries) + TotalLeft(m - multiset{f}, maxRetries);
    if f != e {
      TotalLeftWithout(m - multiset{f}, e, maxRetries);
      TotalLeftWithout(m - multiset{e}, f, maxRetries);
      assert m - multiset{f} - multiset{e} == m - multiset{e} - multiset{f};
    }
  }

  function Again(e: Envelope): Envelope { e.(attempts := e.attempts + 1) }

  // ---------------------------------------------------------------------------
  // Where every accepted task is
  // ---------------------------------------------------------------------------

  datatype Fate = Succeeded | Dropped | Unhandled

  /** `first` holds the accepted tasks with the attempts they came with, `held` those in the queue or in hand with the
      attempts they have now, `ended` what became of the others; `runs` counts the runs of their handler. */
  datatype Ledger = Ledger(first: map<Core, int>, held: map<Core, int>, ended: map<Core, Fate>, runs: map<Core, nat>)

  /** Every accepted task is in exactly one place, and its attempts count its runs. */
  predicate Placed(l: Ledger) {
    && l.first.Keys == l.held.Keys + l.ended.Keys == l.runs.Keys
    && l.held.Keys !! l.ended.Keys
    && (forall c | c in l.held :: l.held[c] == l.first[c] + l.runs[c])
  }

  /** And none runs too often or is given up too soon. */
  predicate Accounted(l: Ledger, maxRetries: int) {
    && Placed(l)
    && (forall c | c in l.held && l.runs[c] > 0 :: l.held[c] <= maxRetries && c.kind == Webhook)
    && (forall c | c in l.first :: l.runs[c] <= Allowed(l.first[c], maxRetries))
    && (forall c | c in l.ended :: l.ended[c] == Unhandled <==> l.runs[c] == 0)
    && (forall c | c in l.ended && l.ended[c] == Dropped :: l.runs[c] == Allowed(l.first[c], maxRetries))
  }

  /** How often the handler may run for a task accepted with so many attempts; max_retries + 1 for a new one. */
  function Allowed(first: int, maxRetries: int): nat {
    if first >= maxRetries then 1 else maxRetries + 1 - first
  }

  function EnvelopeSet(held: map<Core, int>): set<Envelope> {
    set c | c in held :: Envelope(c, held[c])
  }

  /** The envelopes of the tasks that are held. */
  function Envelopes(held: map<Core, int>): multiset<Envelope> {
    multiset(EnvelopeSet(held))
  }

  predicate IsHeld(held: map<Core, int>, e: Envelope) {
    e.core in held && held[e.core] == e.attempts
  }

  lemma {:induction false} EnvelopeIsHeld(held: map<Core, int>, e: Envelope)
    ensures e in EnvelopeSet(held) <==> IsHeld(held, e)
    ensures Envelopes(held)[e] == if IsHeld(held, e) then 1 else 0
  {
    if IsHeld(held, e) {
      assert e == Envelope(e.core, held[e.core]);
    }
  }

  lemma {:induction false} EnvelopesWith(held: map<Core, int>, e: Envelope)
    requires e.core !in held
    ensures Envelopes(held[e.core := e.attempts]) == Envelopes(held) + multiset{e}
  {
    var m := held[e.core := e.attempts];
    forall f ensures f in EnvelopeSet(m) <==> f in EnvelopeSet(held) + {e} {
      EnvelopeIsHeld(held, f);
      EnvelopeIsHeld(m, f);
    }
    assert EnvelopeSet(m) == EnvelopeSet(held) + {e};
    EnvelopeIsHeld(held, e);
  }

  lemma {:induction false} EnvelopesWithout(held: map<Core, int>, e: Envelope)
    requires e.core in held && held[e.core] == e.attempts
    ensures Envelopes(held - {e.core}) == Envelopes(held) - multiset{e}
    ensures e in Envelopes(held)
  {
    EnvelopesWith(held - {e.core}, e);
    EnvelopeIsHeld(held, e);
    assert (held - {e.core})[e.core := e.attempts] == held;
  }

  /** What becomes of a task in hand; `fails` is whether its handler raises. */
  datatype Outcome = Ended(fate: Fate) | Retried

  function OutcomeOf(e: Envelope, fails: bool, maxRetries: int): Outcome {
    if e.core.kind != Webhook then Ended(Unhandled)
    else if !fails then Ended(Succeeded)
    else if e.attempts + 1 > maxRetries then Ended(Dropped)
    else Retried
  }

  function Accepted(l: Ledger, e: Envelope): Ledger {
    var a := e.attempts;
    l.(first := l.first[e.core := a], held := l.held[e.core := a], runs := l.runs[e.core := 0])
  }

  function Settled(l: Ledger, e: Envelope, outcome: Outcome): Ledger
    requires e.core in l.runs
  {
    var runs := if outcome == Ended(Unhandled) then l.runs else l.runs[e.core := l.runs[e.core] + 1];
    match outcome
    case Retried => l.(held := l.held[e.core := e.attempts + 1], runs := runs)
    case Ended(fate) => l.(held := l.held - {e.core}, ended := l.ended[e.core := fate], runs := runs)
  }

  lemma {:induction false} AcceptKeepsAccounts(l: Ledger, e: Envelope, maxRetries: int)
    requires Accounted(l, maxRetries) && e.core !in l.first
    ensures Accounted(Accepted(l, e), maxRetries)
    ensures Envelopes(Accepted(l, e).held) == Envelopes(l.held) + multiset{e}
  {
    EnvelopesWith(l.held, e);
  }

  lemma {:induction false} EndKeepsAccounts(l: Ledger, e: Envelope, fate: Fate, maxRetries: int)
    requires Accounted(l, maxRetries) && IsHeld(l.held, e)
    requires fate == Unhandled <==> e.core.kind != Webhook
    requires fate == Dropped ==> e.attempts + 1 > maxRetries
    ensures Accounted(Settled(l, e, Ended(fate)), maxRetries)
  {
    EndKeepsPlaces(l, e, fate);
  }

  lemma {:induction false} EndKeepsPlaces(l: Ledger, e: Envelope, fate: Fate)
    requires Placed(l) && IsHeld(l.held, e)
    ensures Placed(Settled(l, e, Ended(fate)))
  {
    var l' := Settled(l, e, Ended(fate));
    assert e.core in l.held.Keys && e.core in l.first;
    assert l'.held.Keys == l.held.Keys - {e.core} && l'.ended.Keys == l.ended.Keys + {e.core};
    assert l'.runs.Keys == l.runs.Keys;
  }

  lemma {:induction false} RetryKeepsAccounts(l: Ledger, e: Envelope, maxRetries: int)
    requires Accounted(l, maxRetries) && IsHeld(l.held, e) && e.attempts + 1 <= maxRetries && e.core.kind == Webhook
    ensures Accounted(Settled(l, e, Retried), maxRetries)
  {
    assert l.held[e.core := e.attempts + 1].Keys == l.held.Keys;
  }

  /** What the accounts say of a task that came with so many attempts: it is in one place, has run at most until they
      were used up, and if it is given up then exactly so often; only one of another type ends without a run. */
  lemma {:induction false} AccountsMean(l: Ledger, c: Core, maxRetries: int)
    requires Accounted(l, maxRetries) && c in l.first
    ensures c in l.held <==> c !in l.ended
    ensures l.first[c] <= maxRetries ==> l.runs[c] <= maxRetries + 1 - l.first[c]
    ensures l.first[c] > maxRetries ==> l.runs[c] <= 1
    ensures c in l.ended && l.ended[c] == Dropped ==>
      l.runs[c] == if l.first[c] <= maxRetries then maxRetries + 1 - l.first[c] else 1
    ensures c in l.ended ==> (l.ended[c] == Unhandled <==> l.runs[c] == 0)
    ensures c in l.held ==> l.held[c] == l.first[c] + l.runs[c]
  {
    assert c in l.held.Keys + l.ended.Keys;
  }

  /** Whatever happens to the task in hand, every accepted task stays in exactly one place. */
  lemma {:induction false} SettleKeepsAccounts(l: Ledger, e: Envelope, fails: bool, maxRetries: int)
    requires Accounted(l, maxRetries) && e in Envelopes(l.held)
    ensures e.core in l.runs
    ensures Accounted(Settled(l, e, OutcomeOf(e, fails, maxRetries)), maxRetries)
  {
    EnvelopeIsHeld(l.held, e);
    match OutcomeOf(e, fails, maxRetries) {
      case Retried =>
        RetryKeepsAccounts(l, e, maxRetries);
      case Ended(fate) =>
        EndKeepsAccounts(l, e, fate, maxRetries);
    }
  }

  /** What the queue must hold when the task has left the hand. */
  lemma {:induction false} SettleMovesEnvelope(l: Ledger, e: Envelope, outcome: Outcome)
    requires e in Envelopes(l.held) && e.core in l.runs
    ensures Envelopes(Settled(l, e, outcome).held) ==
      Envelopes(l.held) - multiset{e} + if outcome.Retried? then multiset{Again(e)} else multiset{}
    ensures Again(e) !in Envelopes(l.held)
  {
    EnvelopeIsHeld(l.held, e);
    EnvelopeIsHeld(l.held, Again(e));
    EnvelopesWithout(l.held, e);
    if outcome.Retried? {
      var rest := l.held - {e.core};
      EnvelopesWith(rest, Again(e));
      assert rest[e.core := e.attempts + 1] == l.held[e.core := e.attempts + 1];
    }
  }

  /** Every handler run uses up one of the attempts left. */
  lemma {:induction false} SettleUsesAttempt(m: multiset<Envelope>, e: Envelope, fails: bool, maxRetries: int)
    requires e in m
    ensures var back := if OutcomeOf(e, fails, maxRetries).Retried? then multiset{Again(e)} else multiset{};
      TotalLeft(m - multiset{e} + back, maxRetries) < TotalLeft(m, maxRetries)
  {
    var rest := m - multiset{e};
    TotalLeftWithout(m, e, maxRetries);
    if OutcomeOf(e, fails, maxRetries).Retried? {
      var after := rest + multiset{Again(e)};
      TotalLeftWithout(after, Again(e), maxRetries);
      assert after - multiset{Again(e)} == rest;
    } else {
      assert rest + multiset{} == rest;
    }
  }

  // ---------------------------------------------------------------------------
  // What a worker has got through
  // ---------------------------------------------------------------------------

  /** The task has left the hand of the worker since it was queued like this: it ended, or has one attempt more. */
  predicate Handled(l: Ledger, e: Envelope) {
    e.core in l.ended || (e.core in l.held && l.held[e.core] > e.attempts)
  }

  /** A later attempt than the one in the accounts, or a task they do not know. */
  predicate LaterThan(l: Ledger, e: Envelope) {
    e.core !in l.ended && (e.core in l.held ==> l.held[e.core] < e.attempts)
  }

  /** Nothing is scheduled that was not, and time does not run backwards. */
  ghost predicate Shrinks(q: Queue, q': Queue) {
    && q'.clock >= q.clock
    && forall e | e in q'.scheduled :: e in q.scheduled && q'.scheduled[e] == q.scheduled[e]
  }

  /** From one moment to a later one: tasks end or get more attempts, and only later attempts are scheduled anew. */
  ghost predicate Onward(q: Queue, l: Ledger, q': Queue, l': Ledger) {
    && q'.clock >= q.clock
    && (forall c | c in l.ended :: c in l'.ended)
    && (forall c | c in l.held :: c in l'.ended || (c in l'.held && l'.held[c] >= l.held[c]))
    && forall e | e in q'.scheduled :: (e in q.scheduled && q'.scheduled[e] == q.scheduled[e]) || LaterThan(l, e)
  }

  lemma {:induction false} OnwardAgain(q: Queue, l: Ledger, q1: Queue, l1: Ledger, q2: Queue, l2: Ledger)
    requires Onward(q, l, q1, l1) && Onward(q1, l1, q2, l2)
    ensures Onward(q, l, q2, l2)
  {
  }

  /** A dequeue, with or without a new task, goes onward. */
  lemma {:induction false} DequeueGoesOn(q: Queue, l: Ledger, q': Queue, task: Option<Envelope>, maxRetries: int)
    requires Accounted(l, maxRetries) && Shrinks(q, q') && (task.Some? ==> task.value.core !in l.first)
    ensures Onward(q, l, q', if task.Some? then Accepted(l, task.value) else l)
  {
  }

  /** So does settling a task, if it schedules nothing but the next attempt. */
  lemma {:induction false} SettleGoesOn(
    q: Queue, l: Ledger, q': Queue, task: Envelope, fails: bool, maxRetries: int)
    requires Accounted(l, maxRetries) && IsHeld(l.held, task) && q'.clock >= q.clock
    requires forall e | e in q'.scheduled :: (e in q.scheduled && q'.scheduled[e] == q.scheduled[e]) || e == Again(task)
    ensures Onward(q, l, q', Settled(l, task, OutcomeOf(task, fails, maxRetries)))
  {
  }

  /** A new task goes to the list. */
  lemma {:induction false} EnqueueGoesOn(q: Queue, l: Ledger, task: Envelope, maxRetries: int)
    requires Accounted(l, maxRetries) && task.core !in l.first
    ensures Onward(q, l, q.(ready := [task] + q.ready), Accepted(l, task))
  {
  }

  lemma {:induction false} QueuedOnce(q: Queue, l: Ledger, e: Envelope)
    requires Contents(q) == Envelopes(l.held) && (e in q.ready || e in q.scheduled)
    ensures IsHeld(l.held, e) && !(e in q.ready && e in q.scheduled)
  {
    EnvelopeIsHeld(l.held, e);
    assert Contents(q)[e] == multiset(q.ready)[e] + multiset(q.scheduled.Keys)[e];
  }

  lemma {:induction false} StillQueued(q: Queue, l: Ledger, e: Envelope)
    requires Contents(q) == Envelopes(l.held) && IsHeld(l.held, e)
    ensures e in q.ready || e in q.scheduled
  {
    EnvelopeIsHeld(l.held, e);
    assert e in Contents(q);
  }

  /** What was ready, or was due if that counts, has been handled. */
  ghost predicate Cleared(q: Queue, l: Ledger, due: bool) {
    && (forall e | e in q.ready :: Handled(l, e))
    && (due ==> forall e | e in q.scheduled && q.scheduled[e] <= q.clock :: Handled(l, e))
  }

  /** What stays behind is still where it was. */
  lemma {:induction false} Remains(q: Queue, l: Ledger, q': Queue, l': Ledger, maxRetries: int, e: Envelope)
    requires Accounted(l, maxRetries) && Contents(q) == Envelopes(l.held) && Onward(q, l, q', l')
    requires Contents(q') == Envelopes(l'.held) && !Handled(l', e)
    ensures e in q.ready ==> e in q'.ready
    ensures e in q.scheduled ==>
      e in q'.ready || (e in q'.scheduled && q'.scheduled[e] == q.scheduled[e])
  {
    hide Contents, Envelopes;
    if e in q.ready || e in q.scheduled {
      QueuedOnce(q, l, e);
      StillQueued(q', l', e);
    }
  }

  /** So a list that has been cleared has been cleared of all that was there earlier. */
  lemma {:induction false} ClearedSince(
    q: Queue, l: Ledger, q1: Queue, l1: Ledger, q2: Queue, l2: Ledger, maxRetries: int, due: bool)
    requires Accounted(l, maxRetries) && Contents(q) == Envelopes(l.held) && Onward(q, l, q1, l1)
    requires Contents(q1) == Envelopes(l1.held) && Onward(q1, l1, q2, l2) && Cleared(q1, l2, due)
    ensures Cleared(q, l2, due)
  {
    hide Contents, Envelopes, Accounted;
    forall e | e in q.ready || e in q.scheduled
      ensures e in q.ready || (due && q.scheduled[e] <= q.clock) ==> Handled(l2, e)
    {
      if !Handled(l1, e) {
        Remains(q, l, q1, l1, maxRetries, e);
      }
    }
  }

  // ---------------------------------------------------------------------------
  // How often handlers have run
  // ---------------------------------------------------------------------------

  ghost function TotalRuns(runs: map<Core, nat>): nat {
    if runs == map[] then 0
    else
      var c :| c in runs;
      runs[c] + TotalRuns(runs - {c})
  }

  lemma {:induction false} TotalRunsWithout(runs: map<Core, nat>, c: Core)
    requires c in runs
    ensures TotalRuns(runs) == runs[c] + TotalRuns(runs - {c})
    decreases |runs|
  {
    var d :| d in runs && TotalRuns(runs) == runs[d] + TotalRuns(runs - {d});
    if d != c {
      TotalRunsWithout(runs - {d}, c);
      TotalRunsWithout(runs - {c}, d);
      assert runs - {d} - {c} == runs - {c} - {d};
    }
  }

  lemma {:induction false} SettleRuns(l: Ledger, task: Envelope, fails: bool, maxRetries: int)
    requires task.core in l.runs
    ensures TotalRuns(Settled(l, task, OutcomeOf(task, fails, maxRetries)).runs)
      == TotalRuns(l.runs) + if task.core.kind == Webhook then 1 else 0
  {
    var runs := l.runs[task.core := l.runs[task.core] + 1];
    TotalRunsWithout(l.runs, task.core);
    TotalRunsWithout(runs, task.core);
    assert runs - {task.core} == l.runs - {task.core};
  }

  lemma {:induction false} AcceptRuns(l: Ledger, task: Envelope)
    requires task.core !in l.runs
    ensures TotalRuns(Accepted(l, task).runs) == TotalRuns(l.runs)
  {
    TotalRunsWithout(l.runs[task.core := 0], task.core);
    assert l.runs[task.core := 0] - {task.core} == l.runs;
  }
}
