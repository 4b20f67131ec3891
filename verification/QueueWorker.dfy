/** The queue and its one worker as objects: the functions of backend/app/services/queue.py that change Redis, and
    `flush_queue` of backend/app/services/queue_worker.py. */
module QueueWorker {
  import opened Models
  import opened RetryQueue

  /** What a dequeue comes back with: a task, nothing, or not at all. */
  datatype Taken = Took(task: Envelope) | Nothing | Forever

  /** A task pushed by somebody else while a dequeue waits. */
  datatype Arrival = Arrival(after: real, task: Envelope)

  predicate NothingReady(q: Queue) {
    q.ready == [] && forall e | e in q.scheduled :: q.scheduled[e] > q.clock
  }

  /** `items` are the earliest members so far, in order, and `due` the other ones that are due. */
  ghost predicate Picked(
    scheduled: map<Envelope, real>, now: real, items: seq<Envelope>, due: map<Envelope, real>)
  {
    && (forall e | e in due :: e in scheduled && scheduled[e] == due[e] <= now && e !in items)
    && (forall e | e in scheduled && scheduled[e] <= now :: e in due || e in items)
    && (forall i :: 0 <= i < |items| ==> items[i] in scheduled && scheduled[items[i]] <= now)
    && (forall i, j :: 0 <= i < j < |items| ==> items[i] != items[j] && scheduled[items[i]] <= scheduled[items[j]])
    && (forall i, e :: 0 <= i < |items| && e in due ==> scheduled[items[i]] <= due[e])
  }

  lemma {:induction false} PickEarliest(
    scheduled: map<Envelope, real>, now: real, items: seq<Envelope>, due: map<Envelope, real>, e: Envelope)
    requires Picked(scheduled, now, items, due)
    requires e in due && forall f | f in due :: due[e] <= due[f]
    ensures Picked(scheduled, now, items + [e], due - {e})
  {
    assert forall i | 0 <= i < |items| :: (items + [e])[i] == items[i] && items[i] != e;
  }

  class RedisQueue {
    var ready: seq<Envelope>
    var scheduled: map<Envelope, real>
    var clock: real

    ghost function Q(): Queue
      reads this
    {
      Queue(ready, scheduled, clock)
    }

    method EarliestOf(members: map<Envelope, real>) returns (e: Envelope)
      requires members != map[]
      ensures e in members && forall f | f in members :: members[e] <= members[f]
    {
      var left := members.Keys;
      e :| e in members;
      while left != {}
        invariant left <= members.Keys && e in members
        invariant forall f | f in members && f !in left :: members[e] <= members[f]
        decreases |left|
      {
        var f :| f in left;
        if members[f] < members[e] {
          e := f;
        }
        left := left - {f};
      }
    }

    /** ZRANGEBYSCORE -inf..now LIMIT 0 max. */
    method DueItems(max: nat) returns (items: seq<Envelope>)
      ensures IsBatch(scheduled, clock, max, items)
    {
      items := [];
      var due := map e | e in scheduled && scheduled[e] <= clock :: scheduled[e];
      while |items| < max && due != map[]
        invariant |items| <= max && Picked(scheduled, clock, items, due)
        decreases max - |items|
      {
        var e := EarliestOf(due);
        PickEarliest(scheduled, clock, items, due, e);
        items := items + [e];
        due := due - {e};
      }
    }

    /** `_drain_ready_scheduled_tasks`. */
    method DrainReadyScheduledTasks() returns (nextDelay: Option<real>, ghost items: seq<Envelope>)
      modifies this
      ensures Drained(old(Q()), Q(), items, nextDelay)
      ensures |items| <= 100 && (|items| < 100 ==> forall e | e in scheduled :: scheduled[e] > clock)
    {
      var readyItems := DueItems(BATCH);
      items := readyItems;
      assert readyItems == [] ==> Without(scheduled, readyItems) == scheduled;
      if readyItems != [] {
        ready := LPush(ready, readyItems);
        scheduled := Without(scheduled, readyItems);
      }
      var later := map e | e in scheduled && scheduled[e] >= clock :: scheduled[e];
      if later == map[] {
        assert forall e | e in scheduled && scheduled[e] >= clock :: e in later;
        assert IsNext(scheduled, clock, None);
        return None, items;
      }
      var first := EarliestOf(later);
      assert forall e | e in scheduled && scheduled[e] >= clock :: e in later;
      assert IsNext(scheduled, clock, Some(scheduled[first]));
      nextDelay := Delay(Some(scheduled[first]), clock);
    }

    /** `enqueue_task`. */
    method EnqueueTask(task: Envelope)
      modifies this
      ensures Q() == old(Q()).(ready := [task] + old(ready))
      ensures Contents(Q()) == Contents(old(Q())) + multiset{task}
      ensures Deliveries(ready) == Deliveries(old(ready)) + [task]
    {
      DeliveriesCons(task, ready);
      ready := [task] + ready;
    }

    /** `_schedule_for_later`: an equal envelope already there only gets the new score. */
    method ScheduleForLater(task: Envelope, delay: real)
      modifies this
      ensures Q() == old(Q()).(scheduled := old(scheduled)[task := clock + delay])
      ensures task !in old(scheduled) ==> Contents(Q()) == Contents(old(Q())) + multiset{task}
    {
      assert scheduled[task := clock + delay].Keys == scheduled.Keys + {task};
      scheduled := scheduled[task := clock + delay];
    }

    /** `requeue_if_failed`. */
    method RequeueIfFailed(task: Envelope, maxRetries: int, delay: real) returns (requeued: bool)
      modifies this
      ensures requeued <==> task.attempts < maxRetries
      ensures !requeued ==> Q() == old(Q())
      ensures requeued && delay > 0.0 ==>
        Q() == old(Q()).(scheduled := old(scheduled)[Again(task) := clock + delay])
      ensures requeued && delay <= 0.0 ==> Q() == old(Q()).(ready := [Again(task)] + old(ready))
      ensures requeued && Again(task) !in old(scheduled) ==>
        Contents(Q()) == Contents(old(Q())) + multiset{Again(task)}
    {
      var next := Again(task);
      if next.attempts > maxRetries {
        return false;
      }
      if delay > 0.0 {
        ScheduleForLater(next, delay);
      } else {
        EnqueueTask(next);
      }
      return true;
    }

    /** BRPOP: a timeout of 0 waits for ever. */
    method BlockingPop(timeout: real, arrival: Option<Arrival>) returns (taken: Taken)
      requires timeout >= 0.0 && (arrival.Some? ==> arrival.value.after >= 0.0)
      modifies this
      ensures if old(ready) == [] then Waited(old(Q()), Q(), timeout, arrival, taken) else Popped(old(Q()), Q(), taken)
    {
      if ready != [] {
        taken := PopNow();
      } else if arrival.Some? && (timeout == 0.0 || arrival.value.after <= timeout) {
        clock := clock + arrival.value.after;
        taken := Took(arrival.value.task);
      } else if timeout == 0.0 {
        taken := Forever;
      } else {
        clock := clock + timeout;
        taken := Nothing;
      }
    }

    /** RPOP. */
    method PopNow() returns (taken: Taken)
      modifies this
      ensures if old(ready) == [] then taken == Nothing && Q() == old(Q()) else Popped(old(Q()), Q(), taken)
    {
      if ready == [] {
        return Nothing;
      }
      var last := |ready| - 1;
      taken := Took(ready[last]);
      assert ready == ready[..last] + [ready[last]];
      ready := ready[..last];
    }

    /** `dequeue_task` with block. */
    method DequeueBlocking(blockTimeout: real, arrival: Option<Arrival>) returns (taken: Taken)
      requires arrival.Some? ==> arrival.value.after >= 0.0
      modifies this
      ensures BlockingResult(old(Q()), Q(), blockTimeout, arrival, taken) && Shrinks(old(Q()), Q())
    {
      ghost var before := Q();
      var nextDelay, items := DrainReadyScheduledTasks();
      ghost var drained := Q();
      var timeout := if blockTimeout > 0.0 then blockTimeout else 0.0;
      if nextDelay.Some? {
        timeout := if timeout == 0.0 then nextDelay.value else Min(timeout, nextDelay.value);
      }
      taken := BlockingPop(timeout, arrival);
      ghost var woken := Q();
      if taken == Nothing {
        var delay, due := DrainReadyScheduledTasks();
        DrainKeepsContents(woken, Q(), due, delay);
        DueIsReady(woken, Q(), due, delay);
      }
      if drained.ready != [] {
        TookAfterDrain(before, drained, items, nextDelay, blockTimeout, arrival, Q(), taken);
      } else {
        WaitedAfterDrain(before, drained, items, nextDelay, blockTimeout, arrival, woken, taken, Q());
      }
    }

    /** `dequeue_task`. */
    method DequeueTask(block: bool, blockTimeout: real, arrival: Option<Arrival>) returns (taken: Taken)
      requires arrival.Some? ==> arrival.value.after >= 0.0
      modifies this
      ensures block ==> BlockingResult(old(Q()), Q(), blockTimeout, arrival, taken)
      ensures !block && old(Q()).ready != [] ==> Popped(old(Q()), Q(), taken)
      ensures !block && old(Q()).ready == [] ==>
        taken == Nothing && exists items, delay :: Drained(old(Q()), Q(), items, delay)
      ensures NothingLost(old(Q()), Q(), arrival, taken) && Shrinks(old(Q()), Q())
    {
      if block {
        taken := DequeueBlocking(blockTimeout, arrival);
        return;
      }
      ghost var before := Q();
      taken := PopNow();
      if taken == Nothing {
        var delay, due := DrainReadyScheduledTasks();
        DrainKeepsContents(before, Q(), due, delay);
      }
    }
  }

  /** What a dequeue must have found to come back with nothing. */
  ghost predicate Idle(q: Queue, block: bool) {
    q.ready == [] && (block ==> NothingReady(q))
  }

  /** The right end of the list is taken, at once. */
  ghost predicate Popped(before: Queue, after: Queue, taken: Taken)
    requires before.ready != []
  {
    && taken == Took(Deliveries(before.ready)[0])
    && after.scheduled == before.scheduled && after.clock == before.clock
    && Deliveries(after.ready) == Deliveries(before.ready)[1..]
    && Contents(after) + multiset{taken.task} == Contents(before)
  }

  /** BRPOP on an empty list. */
  ghost predicate Waited(before: Queue, after: Queue, timeout: real, arrival: Option<Arrival>, taken: Taken) {
    && after.ready == before.ready && after.scheduled == before.scheduled
    && if arrival.Some? && (timeout == 0.0 || arrival.value.after <= timeout) then
         taken == Took(arrival.value.task) && after.clock == before.clock + arrival.value.after
       else if timeout == 0.0 then taken == Forever && after.clock == before.clock
       else taken == Nothing && after.clock == before.clock + timeout
  }

  /** Everything is still in the queue but the task that was taken, unless that one came from outside. */
  ghost predicate NothingLost(before: Queue, after: Queue, arrival: Option<Arrival>, taken: Taken) {
    match taken
    case Took(task) =>
      || Contents(after) + multiset{task} == Contents(before)
      || (NothingReady(before) && arrival.Some? && task == arrival.value.task && Contents(after) == Contents(before))
    case _ => Contents(after) == Contents(before)
  }

  /** What a blocking dequeue promises. It waits for ever exactly if the caller set no timeout, nothing is scheduled
      and nobody pushes; after a wait that brought nothing, the caller's time is up or a due envelope is ready. */
  ghost predicate BlockingResult(before: Queue, after: Queue, blockTimeout: real,
    arrival: Option<Arrival>, taken: Taken) {
    && (taken == Forever <==> blockTimeout <= 0.0 && before.ready == [] && before.scheduled == map[] && arrival.None?)
    && InOrder(before, taken)
    && WokeInTime(before, after, blockTimeout)
    && (taken == Nothing ==> after.ready != [] || after.clock == before.clock + blockTimeout)
    && NothingLost(before, after, arrival, taken)
  }

  lemma {:induction false} TookAfterDrain(
    before: Queue, drained: Queue, items: seq<Envelope>, delay: Option<real>, blockTimeout: real,
    arrival: Option<Arrival>, after: Queue, taken: Taken)
    requires Drained(before, drained, items, delay) && drained.ready != [] && Popped(drained, after, taken)
    ensures BlockingResult(before, after, blockTimeout, arrival, taken)
  {
    DrainKeepsContents(before, drained, items, delay);
    DrainedReady(before, drained, items, delay);
    DrainedFirst(before, drained, items, delay);
  }

  lemma {:induction false} WaitedAfterDrain(
    before: Queue, drained: Queue, items: seq<Envelope>, delay: Option<real>, blockTimeout: real,
    arrival: Option<Arrival>, woken: Queue, taken: Taken, after: Queue)
    requires Drained(before, drained, items, delay) && drained.ready == []
    requires arrival.Some? ==> arrival.value.after >= 0.0
    requires Waited(drained, woken, TimeoutFor(blockTimeout, delay), arrival, taken)
    requires taken != Nothing ==> after == woken
    requires after.clock == woken.clock && Contents(after) == Contents(woken)
    requires (exists e :: e in woken.scheduled && woken.scheduled[e] <= woken.clock) ==>
      taken != Nothing || after.ready != []
    ensures BlockingResult(before, after, blockTimeout, arrival, taken)
  {
    NothingDue(before, drained, items, delay);
  }

  function TimeoutFor(blockTimeout: real, delay: Option<real>): real {
    var timeout := if blockTimeout > 0.0 then blockTimeout else 0.0;
    if delay.None? then timeout else if timeout == 0.0 then delay.value else Min(timeout, delay.value)
  }

  /** What waits goes first in its order; else the earliest of what is due. */
  ghost predicate InOrder(before: Queue, taken: Taken) {
    if before.ready != [] then taken == Took(Deliveries(before.ready)[0])
    else if NothingReady(before) then true
    else taken.Took? && FirstDue(before.scheduled, taken.task)
  }

  /** No blocking dequeue outlasts the next due envelope or the caller's timeout, and none waits while one is ready. */
  ghost predicate WokeInTime(before: Queue, after: Queue, blockTimeout: real) {
    && after.clock >= before.clock
    && (before.ready != [] ==> after.clock == before.clock)
    && (forall e | e in before.scheduled :: after.clock <= before.clock || after.clock <= before.scheduled[e])
    && (blockTimeout > 0.0 ==> after.clock <= before.clock + blockTimeout)
  }

  lemma {:induction false} DrainedReady(before: Queue, after: Queue, items: seq<Envelope>, delay: Option<real>)
    requires Drained(before, after, items, delay)
    ensures after.ready == [] <==> NothingReady(before)
  {
    PushedAll(before.ready, items);
    if items == [] {
      assert forall e | e in before.scheduled :: before.scheduled[e] > before.clock;
    } else {
      assert before.scheduled[items[0]] <= before.clock;
    }
  }

  /** A drain that moved something delivers what was waiting first, then the earliest. */
  lemma {:induction false} DrainedFirst(before: Queue, after: Queue, items: seq<Envelope>, delay: Option<real>)
    requires Drained(before, after, items, delay) && after.ready != []
    ensures before.ready != [] ==> Deliveries(after.ready)[0] == Deliveries(before.ready)[0]
    ensures before.ready == [] ==> FirstDue(before.scheduled, Deliveries(after.ready)[0])
  {
    PushedLast(before.ready, items);
    if before.ready == [] {
      assert Deliveries(after.ready) == items;
    }
  }

  ghost predicate FirstDue(scheduled: map<Envelope, real>, first: Envelope) {
    first in scheduled && forall e | e in scheduled :: scheduled[first] <= scheduled[e]
  }

  /** A drain leaves something ready if anything is due. */
  lemma {:induction false} DueIsReady(before: Queue, after: Queue, items: seq<Envelope>, delay: Option<real>)
    requires Drained(before, after, items, delay)
    ensures (exists e :: e in before.scheduled && before.scheduled[e] <= before.clock) ==> after.ready != []
  {
    PushedAll(before.ready, items);
  }

  // ---------------------------------------------------------------------------
  // The worker
  // ---------------------------------------------------------------------------

  /** The dispatch settings. */
  datatype Settings = Settings(maxRetries: int, base: real, max: real, throttle: real)

  /** What the world does: whether the k-th handler run raises, what its jitter draws, how long it takes; how many
      tasks others push before the k-th dequeue, and how long after its start the next one comes. */
  datatype World = World(
    fails: nat -> bool, draw: nat -> real, takes: nat -> real, pushed: nat -> nat, after: nat -> real)

  /** Tasks that others are about to enqueue: none has been accepted before. */
  ghost predicate AllNew(first: map<Core, int>, tasks: seq<Envelope>)
    decreases |tasks|
  {
    tasks != [] ==> tasks[0].core !in first && AllNew(first[tasks[0].core := tasks[0].attempts], tasks[1..])
  }

  /** The tasks accepted so far and those still to come. */
  function Expected(first: map<Core, int>, tasks: seq<Envelope>): multiset<Envelope> {
    Envelopes(first) + multiset(tasks)
  }

  lemma {:induction false} AcceptNext(first: map<Core, int>, tasks: seq<Envelope>)
    requires tasks != [] && tasks[0].core !in first
    ensures Expected(first[tasks[0].core := tasks[0].attempts], tasks[1..]) == Expected(first, tasks)
  {
    EnvelopesWith(first, tasks[0]);
    assert tasks == [tasks[0]] + tasks[1..];
  }

  function AttemptsOf(tasks: seq<Envelope>, maxRetries: int): nat {
    if tasks == [] then 0 else AttemptsLeft(tasks[0], maxRetries) + AttemptsOf(tasks[1..], maxRetries)
  }

  function SucceededIn(ended: map<Core, Fate>): set<Core> {
    set c | c in ended && ended[c] == Succeeded
  }

  class Worker {
    const queue: RedisQueue
    const settings: Settings
    ghost var ledger: Ledger

    /** Every accepted task is held by the queue, or ended; none is held twice. */
    ghost predicate Valid()
      reads this, queue
    {
      && Accounted(ledger, settings.maxRetries)
      && Contents(queue.Q()) == Envelopes(ledger.held)
    }

    constructor (queue: RedisQueue, settings: Settings)
      requires queue.Q().ready == [] && queue.Q().scheduled == map[]
      ensures Valid() && this.queue == queue && this.settings == settings
      ensures ledger == Ledger(map[], map[], map[], map[])
    {
      this.queue := queue;
      this.settings := settings;
      ledger := Ledger(map[], map[], map[], map[]);
      assert EnvelopeSet(map[]) == {};
    }

    /** A task that was not accepted before is enqueued. */
    method Accept(task: Envelope)
      requires Valid() && task.core !in ledger.first
      modifies this, queue
      ensures Valid() && ledger == Accepted(old(ledger), task)
      ensures Left() == old(Left()) + AttemptsLeft(task, settings.maxRetries)
      ensures Deliveries(queue.ready) == Deliveries(old(queue.ready)) + [task]
      ensures Onward(old(queue.Q()), old(ledger), queue.Q(), ledger)
      ensures TotalRuns(ledger.runs) == TotalRuns(old(ledger).runs)
    {
      AcceptRuns(ledger, task);
      EnqueueGoesOn(queue.Q(), ledger, task, settings.maxRetries);
      AcceptKeepsAccounts(ledger, task, settings.maxRetries);
      TotalLeftWith(Contents(queue.Q()), task, settings.maxRetries);
      queue.EnqueueTask(task);
      ledger := Accepted(ledger, task);
    }

    ghost function Left(): nat
      reads queue
    {
      TotalLeft(Contents(queue.Q()), settings.maxRetries)
    }

    /** The handler runs and, if it raises, the task is requeued or dropped. */
    method Dispatch(task: Envelope, fails: bool, draw: real) returns (succeeded: bool)
      requires task.core.kind == Webhook
      modifies queue
      ensures succeeded <==> !fails
      ensures Again(task) !in old(queue.scheduled) ==>
        Contents(queue.Q()) == Contents(old(queue.Q())) + Back(task, OutcomeOf(task, fails, settings.maxRetries))
      ensures OutcomeOf(task, fails, settings.maxRetries).Retried? ==>
        ComesBack(queue.Q(), Again(task), RetryDelay(task.attempts, draw, settings.base, settings.max))
      ensures queue.clock == old(queue.clock) && forall e | e in queue.scheduled ::
        (e in old(queue.scheduled) && queue.scheduled[e] == old(queue.scheduled)[e]) || e == Again(task)
    {
      succeeded := !fails;
      if fails {
        var delay := RetryDelay(task.attempts, draw, settings.base, settings.max);
        var requeued := queue.RequeueIfFailed(task, settings.maxRetries, delay);
      }
    }

    /** What `flush_queue` does with a task in hand. */
    method Handle(task: Envelope, fails: bool, draw: real, seconds: real) returns (ran: bool, succeeded: bool)
      requires Accounted(ledger, settings.maxRetries)
      requires Contents(queue.Q()) + multiset{task} == Envelopes(ledger.held)
      modifies this, queue
      ensures Valid() && Left() < TotalLeft(Envelopes(old(ledger).held), settings.maxRetries)
      ensures task.core in old(ledger).runs &&
        ledger == Settled(old(ledger), task, OutcomeOf(task, fails, settings.maxRetries))
      ensures ran <==> task.core.kind == Webhook
      ensures succeeded <==> OutcomeOf(task, fails, settings.maxRetries) == Ended(Succeeded)
      ensures OutcomeOf(task, fails, settings.maxRetries).Retried? ==>
        ComesBack(queue.Q().(clock := old(queue.clock)), Again(task),
          RetryDelay(task.attempts, draw, settings.base, settings.max))
      ensures Onward(old(queue.Q()), old(ledger), queue.Q(), ledger)
    {
      SettleTask(Contents(queue.Q()), ledger, task, fails, settings.maxRetries);
      assert task in Envelopes(ledger.held);
      EnvelopeIsHeld(ledger.held, task);
      ghost var before := queue.Q();
      ran, succeeded := Settle(task, fails, draw, seconds);
      SettleGoesOn(before, ledger, queue.Q(), task, fails, settings.maxRetries);
      ledger := Settled(ledger, task, OutcomeOf(task, fails, settings.maxRetries));
    }

    /** Its effect on the queue, and the time that the handler and the throttle take. */
    method Settle(task: Envelope, fails: bool, draw: real, seconds: real) returns (ran: bool, succeeded: bool)
      requires Again(task) !in Contents(queue.Q())
      modifies queue
      ensures Contents(queue.Q()) == Contents(old(queue.Q())) + Back(task, OutcomeOf(task, fails, settings.maxRetries))
      ensures ran <==> task.core.kind == Webhook
      ensures succeeded <==> OutcomeOf(task, fails, settings.maxRetries) == Ended(Succeeded)
      ensures OutcomeOf(task, fails, settings.maxRetries).Retried? ==>
        ComesBack(queue.Q().(clock := old(queue.clock)), Again(task),
          RetryDelay(task.attempts, draw, settings.base, settings.max))
      ensures queue.clock == old(queue.clock) + if ran && seconds > 0.0 then seconds else 0.0
      ensures forall e | e in queue.scheduled ::
        (e in old(queue.scheduled) && queue.scheduled[e] == old(queue.scheduled)[e]) || e == Again(task)
    {
      ran, succeeded := task.core.kind == Webhook, false;
      if ran {
        assert Again(task) !in queue.scheduled;
        succeeded := Dispatch(task, fails, draw);
        ghost var settled := queue.Q();
        queue.clock := queue.clock + if seconds > 0.0 then seconds else 0.0;
        assert Contents(queue.Q()) == Contents(settled);
      }
    }

    /** A dequeue; `joined` says that it took the task somebody pushed meanwhile, which is then accounted for. */
    method Take(block: bool, blockTimeout: real, arrival: Option<Arrival>) returns (taken: Taken, joined: bool)
      requires Valid()
      requires arrival.Some? ==> arrival.value.after >= 0.0 && arrival.value.task.core !in ledger.first
      modifies this, queue
      ensures Accounted(ledger, settings.maxRetries) && ledger.ended == old(ledger).ended
      ensures !joined ==> ledger == old(ledger)
      ensures joined ==> arrival.Some? && taken == Took(arrival.value.task)
      ensures joined ==>
        ledger.first == old(ledger).first[arrival.value.task.core := arrival.value.task.attempts]
      ensures taken.Took? ==> Contents(queue.Q()) + multiset{taken.task} == Envelopes(ledger.held)
      ensures taken.Took? ==>
        TotalLeft(Envelopes(ledger.held), settings.maxRetries) ==
          old(Left()) + if joined then AttemptsLeft(taken.task, settings.maxRetries) else 0
      ensures !taken.Took? ==> Valid() && Left() == old(Left())
      ensures taken == Forever ==> block && blockTimeout <= 0.0 && ledger.held == map[] && arrival.None?
      ensures Onward(old(queue.Q()), old(ledger), queue.Q(), ledger)
      ensures TotalRuns(ledger.runs) == TotalRuns(old(ledger).runs)
      ensures taken == Nothing ==> Idle(old(queue.Q()), block)
    {
      ghost var before := queue.Q();
      taken := queue.DequeueTask(block, blockTimeout, arrival);
      joined := arrival.Some? && taken == Took(arrival.value.task);
      if joined {
        NewIsNotQueued(ledger, taken.task, settings.maxRetries);
        AcceptKeepsAccounts(ledger, taken.task, settings.maxRetries);
        TotalLeftWith(Envelopes(ledger.held), taken.task, settings.maxRetries);
        AcceptRuns(ledger, taken.task);
        DequeueGoesOn(before, ledger, queue.Q(), Some(taken.task), settings.maxRetries);
        ledger := Accepted(ledger, taken.task);
      } else {
        DequeueGoesOn(before, ledger, queue.Q(), None, settings.maxRetries);
        if taken == Forever {
          EmptyHolding(ledger.held);
        }
      }
    }

    /** Attempts left in the queue and in the tasks still to come. */
    ghost function Budget(rest: seq<Envelope>): nat
      reads queue
    {
      Left() + AttemptsOf(rest, settings.maxRetries)
    }

    method AcceptFirst(arrivals: seq<Envelope>) returns (rest: seq<Envelope>)
      requires Valid() && AllNew(ledger.first, arrivals) && arrivals != []
      modifies this, queue
      ensures Valid() && AllNew(ledger.first, rest) && ledger.ended == old(ledger).ended
      ensures Expected(ledger.first, rest) == Expected(old(ledger).first, arrivals)
      ensures Budget(rest) == old(Budget(arrivals))
      ensures Onward(old(queue.Q()), old(ledger), queue.Q(), ledger)
      ensures TotalRuns(ledger.runs) == TotalRuns(old(ledger).runs)
      ensures |rest| < |arrivals|
    {
      AcceptNext(ledger.first, arrivals);
      Accept(arrivals[0]);
      return arrivals[1..];
    }

    /** Others enqueue the first `count` tasks of `arrivals`. */
    method AcceptSome(arrivals: seq<Envelope>, count: nat) returns (rest: seq<Envelope>)
      requires Valid() && AllNew(ledger.first, arrivals)
      modifies this, queue
      ensures Valid() && AllNew(ledger.first, rest) && ledger.ended == old(ledger).ended
      ensures Expected(ledger.first, rest) == Expected(old(ledger).first, arrivals)
      ensures Budget(rest) == old(Budget(arrivals))
      ensures Onward(old(queue.Q()), old(ledger), queue.Q(), ledger)
      ensures TotalRuns(ledger.runs) == TotalRuns(old(ledger).runs)
    {
      rest := arrivals;
      var n := 0;
      ghost var before, first := queue.Q(), ledger;
      while n < count && rest != []
        invariant Valid() && AllNew(ledger.first, rest) && ledger.ended == old(ledger).ended
        invariant Expected(ledger.first, rest) == Expected(old(ledger).first, arrivals)
        invariant Budget(rest) == old(Budget(arrivals))
        invariant Onward(before, first, queue.Q(), ledger) && TotalRuns(ledger.runs) == TotalRuns(first.runs)
      {
        ghost var now, known := queue.Q(), ledger;
        rest := AcceptFirst(rest);
        OnwardAgain(before, first, now, known, queue.Q(), ledger);
        n := n + 1;
      }
    }

    /** The dequeue of a round in which the next of `arrivals` comes `after` its start. */
    method TakeNext(block: bool, blockTimeout: real, arrivals: seq<Envelope>, after: real)
      returns (taken: Taken, rest: seq<Envelope>)
      requires Valid() && AllNew(ledger.first, arrivals) && after >= 0.0
      modifies this, queue
      ensures Accounted(ledger, settings.maxRetries) && ledger.ended == old(ledger).ended
      ensures AllNew(ledger.first, rest) && Expected(ledger.first, rest) == Expected(old(ledger).first, arrivals)
      ensures taken.Took? ==> Contents(queue.Q()) + multiset{taken.task} == Envelopes(ledger.held)
      ensures taken.Took? ==>
        TotalLeft(Envelopes(ledger.held), settings.maxRetries) + AttemptsOf(rest, settings.maxRetries)
          == old(Budget(arrivals))
      ensures !taken.Took? ==> Valid() && Budget(rest) == old(Budget(arrivals))
      ensures taken == Forever ==> block && blockTimeout <= 0.0 && ledger.held == map[] && rest == []
      ensures Onward(old(queue.Q()), old(ledger), queue.Q(), ledger)
      ensures TotalRuns(ledger.runs) == TotalRuns(old(ledger).runs)
      ensures taken == Nothing ==> Idle(old(queue.Q()), block)
    {
      if arrivals == [] {
        var joined;
        taken, joined := Take(block, blockTimeout, None);
        assert !joined && ledger == old(ledger);
        rest := [];
      } else {
        taken, rest := TakeOne(block, blockTimeout, arrivals, after);
      }
    }

    /** The same if somebody comes. */
    method TakeOne(block: bool, blockTimeout: real, arrivals: seq<Envelope>, after: real)
      returns (taken: Taken, rest: seq<Envelope>)
      requires Valid() && AllNew(ledger.first, arrivals) && after >= 0.0 && arrivals != []
      modifies this, queue
      ensures Accounted(ledger, settings.maxRetries) && ledger.ended == old(ledger).ended
      ensures AllNew(ledger.first, rest) && Expected(ledger.first, rest) == Expected(old(ledger).first, arrivals)
      ensures taken.Took? ==> Contents(queue.Q()) + multiset{taken.task} == Envelopes(ledger.held)
      ensures taken.Took? ==>
        TotalLeft(Envelopes(ledger.held), settings.maxRetries) + AttemptsOf(rest, settings.maxRetries)
          == old(Budget(arrivals))
      ensures !taken.Took? ==> Valid() && Budget(rest) == old(Budget(arrivals))
      ensures taken == Forever ==> block && blockTimeout <= 0.0 && ledger.held == map[] && rest == []
      ensures Onward(old(queue.Q()), old(ledger), queue.Q(), ledger)
      ensures TotalRuns(ledger.runs) == TotalRuns(old(ledger).runs)
      ensures taken == Nothing ==> Idle(old(queue.Q()), block)
    {
      AcceptNext(ledger.first, arrivals);
      var joined;
      taken, joined := Take(block, blockTimeout, Some(Arrival(after, arrivals[0])));
      rest := arrivals;
      if joined {
        rest := arrivals[1..];
      }
    }

    /** Handling a task adds to the successes or not. */
    method Serve(task: Envelope, fails: bool, draw: real, seconds: real) returns (ran: bool, succeeded: bool)
      requires Accounted(ledger, settings.maxRetries)
      requires Contents(queue.Q()) + multiset{task} == Envelopes(ledger.held)
      modifies this, queue
      ensures Valid() && Left() < TotalLeft(Envelopes(old(ledger).held), settings.maxRetries)
      ensures ledger.first == old(ledger).first && (succeeded ==> ran)
      ensures |SucceededIn(ledger.ended)| == |SucceededIn(old(ledger).ended)| + if succeeded then 1 else 0
      ensures Onward(old(queue.Q()), old(ledger), queue.Q(), ledger)
      ensures TotalRuns(ledger.runs) == TotalRuns(old(ledger).runs) + if ran then 1 else 0
    {
      ran, succeeded := Handle(task, fails, draw, seconds);
      SettleRuns(old(ledger), task, fails, settings.maxRetries);
      CountSuccess(old(ledger), task, OutcomeOf(task, fails, settings.maxRetries), settings.maxRetries);
    }

    /** One round of the loop in `flush_queue`. */
    method ServeNext(
      block: bool, blockTimeout: real, arrivals: seq<Envelope>, after: real, fails: bool, draw: real, seconds: real)
      returns (taken: Taken, ran: bool, succeeded: bool, rest: seq<Envelope>)
      requires Valid() && AllNew(ledger.first, arrivals) && after >= 0.0
      modifies this, queue
      ensures Valid() && AllNew(ledger.first, rest)
      ensures Expected(ledger.first, rest) == Expected(old(ledger).first, arrivals)
      ensures taken.Took? ==> Budget(rest) < old(Budget(arrivals))
      ensures !taken.Took? ==> Budget(rest) == old(Budget(arrivals)) && !ran
      ensures taken == Forever ==> block && blockTimeout <= 0.0 && ledger.held == map[] && rest == []
      ensures |SucceededIn(ledger.ended)| == |SucceededIn(old(ledger).ended)| + if succeeded then 1 else 0
      ensures succeeded ==> ran
      ensures Onward(old(queue.Q()), old(ledger), queue.Q(), ledger)
      ensures TotalRuns(ledger.runs) == TotalRuns(old(ledger).runs) + if ran then 1 else 0
      ensures taken == Nothing ==> Idle(old(queue.Q()), block)
    {
      ghost var before, known := queue.Q(), ledger;
      taken, rest := TakeNext(block, blockTimeout, arrivals, after);
      ran, succeeded := false, false;
      if taken.Took? {
        ghost var now, accepted := queue.Q(), ledger;
        ran, succeeded := Serve(taken.task, fails, draw, seconds);
        OnwardAgain(before, known, now, accepted, queue.Q(), ledger);
      }
    }

    /** Others enqueue some tasks, and then one round of the loop; `start` and `first` are the queue and the accounts at
        any earlier moment. */
    method Round(
      block: bool, blockTimeout: real, arrivals: seq<Envelope>, pushed: nat, after: real, fails: bool, draw: real,
      seconds: real, ghost start: Queue, ghost first: Ledger)
      returns (taken: Taken, ran: bool, succeeded: bool, rest: seq<Envelope>)
      requires Valid() && AllNew(ledger.first, arrivals) && after >= 0.0
      requires Accounted(first, settings.maxRetries) && Contents(start) == Envelopes(first.held)
      requires Onward(start, first, queue.Q(), ledger)
      modifies this, queue
      ensures Valid() && AllNew(ledger.first, rest)
      ensures Expected(ledger.first, rest) == Expected(old(ledger).first, arrivals)
      ensures taken.Took? ==> Budget(rest) < old(Budget(arrivals))
      ensures !taken.Took? ==> Budget(rest) == old(Budget(arrivals)) && !ran
      ensures taken == Forever ==> block && blockTimeout <= 0.0 && ledger.held == map[] && rest == []
      ensures |SucceededIn(ledger.ended)| == |SucceededIn(old(ledger).ended)| + if succeeded then 1 else 0
      ensures succeeded ==> ran
      ensures TotalRuns(ledger.runs) == TotalRuns(old(ledger).runs) + if ran then 1 else 0
      ensures Onward(start, first, queue.Q(), ledger)
      ensures !taken.Took? ==> Cleared(start, ledger, block)
    {
      ghost var q0, l0 := queue.Q(), ledger;
      rest := AcceptSome(arrivals, pushed);
      ghost var q1, l1 := queue.Q(), ledger;
      taken, ran, succeeded, rest := ServeNext(block, blockTimeout, rest, after, fails, draw, seconds);
      OnwardAgain(start, first, q0, l0, q1, l1);
      RoundClears(start, first, q1, l1, queue.Q(), ledger, settings.maxRetries, block, taken);
    }

    /** `flush_queue` while others enqueue `arrivals`, before a dequeue or while it waits: it ends after at most as many
        handler runs as attempts were left or came in, or waits for ever on an empty queue when nobody comes now. What
        was ready at the start has been handled then, and with `block` also what was due. */
    method FlushQueue(block: bool, blockTimeout: real, world: World, arrivals: seq<Envelope>)
      returns (processed: nat, runs: nat, waits: bool, rest: seq<Envelope>)
      requires Valid() && AllNew(ledger.first, arrivals)
      requires forall k :: world.after(k) >= 0.0
      modifies this, queue
      ensures Valid() && Expected(ledger.first, rest) == Expected(old(ledger).first, arrivals)
      ensures runs + Budget(rest) <= old(Budget(arrivals))
      ensures |SucceededIn(ledger.ended)| == |SucceededIn(old(ledger).ended)| + processed
      ensures waits ==> block && blockTimeout <= 0.0 && ledger.held == map[] && rest == []
      ensures TotalRuns(ledger.runs) == TotalRuns(old(ledger).runs) + runs
      ensures Cleared(old(queue.Q()), ledger, block)
    {
      processed, runs, rest := 0, 0, arrivals;
      var round := 0;
      ghost var start, first := queue.Q(), ledger;
      while true
        invariant Onward(start, first, queue.Q(), ledger) && TotalRuns(ledger.runs) == TotalRuns(first.runs) + runs
        invariant Valid() && AllNew(ledger.first, rest)
        invariant Expected(ledger.first, rest) == Expected(old(ledger).first, arrivals)
        invariant |SucceededIn(ledger.ended)| == |SucceededIn(old(ledger).ended)| + processed
        invariant runs + Budget(rest) <= old(Budget(arrivals))
        decreases Budget(rest)
      {
        var taken, ran, succeeded;
        taken, ran, succeeded, rest := Round(block, blockTimeout, rest, world.pushed(round), world.after(round),
          world.fails(runs), world.draw(runs), world.takes(runs) + settings.throttle, start, first);
        round := round + 1;
        if succeeded {
          processed := processed + 1;
        }
        if taken == Forever || taken == Nothing {
          return processed, runs, taken == Forever, rest;
        }
        if ran {
          runs := runs + 1;
        }
      }
    }
  }

  /** A round that finds nothing finds everything handled that was there at its start. */
  lemma {:induction false} RoundClears(
    q: Queue, l: Ledger, q1: Queue, l1: Ledger, q2: Queue, l2: Ledger, maxRetries: int, block: bool, taken: Taken)
    requires Accounted(l, maxRetries) && Contents(q) == Envelopes(l.held) && Onward(q, l, q1, l1)
    requires Contents(q1) == Envelopes(l1.held) && Onward(q1, l1, q2, l2)
    requires taken == Nothing ==> Idle(q1, block)
    requires taken == Forever ==> l2.held == map[]
    ensures Onward(q, l, q2, l2)
    ensures !taken.Took? ==> Cleared(q, l2, block)
  {
    hide Contents, Envelopes, Accounted;
    OnwardAgain(q, l, q1, l1, q2, l2);
    hide Onward;
    if taken == Nothing {
      IdleIsCleared(q1, l2, block);
      ClearedSince(q, l, q1, l1, q2, l2, maxRetries, block);
    } else if taken == Forever {
      NothingHeldIsCleared(q, l, q2, l2);
    }
  }

  lemma {:induction false} IdleIsCleared(q: Queue, l: Ledger, block: bool)
    requires Idle(q, block)
    ensures Cleared(q, l, block)
  {
  }

  lemma {:induction false} NothingHeldIsCleared(q: Queue, l: Ledger, q': Queue, l': Ledger)
    requires Contents(q) == Envelopes(l.held) && Onward(q, l, q', l') && l'.held == map[]
    ensures Cleared(q, l', true)
  {
    hide Contents, Envelopes;
    forall e | e in q.ready || e in q.scheduled ensures Handled(l', e) {
      QueuedOnce(q, l, e);
    }
  }

  lemma {:induction false} NewIsNotQueued(l: Ledger, task: Envelope, maxRetries: int)
    requires Accounted(l, maxRetries) && task.core !in l.first
    ensures task !in Envelopes(l.held)
  {
    EnvelopeIsHeld(l.held, task);
  }

  lemma {:induction false} TotalLeftWith(m: multiset<Envelope>, e: Envelope, maxRetries: int)
    ensures TotalLeft(m + multiset{e}, maxRetries) == TotalLeft(m, maxRetries) + AttemptsLeft(e, maxRetries)
  {
    TotalLeftWithout(m + multiset{e}, e, maxRetries);
    assert m + multiset{e} - multiset{e} == m;
  }

  /** A retry is due when its delay is over, or last in line if it has none. */
  predicate ComesBack(q: Queue, task: Envelope, delay: real) {
    if delay > 0.0 then task in q.scheduled && q.scheduled[task] == q.clock + delay
    else q.ready != [] && q.ready[0] == task
  }

  function Back(task: Envelope, outcome: Outcome): multiset<Envelope> {
    if outcome.Retried? then multiset{Again(task)} else multiset{}
  }

  /** The accounts and the queue after the task in hand has met its fate. */
  lemma {:induction false} SettleTask(queue: multiset<Envelope>, l: Ledger, task: Envelope,
    fails: bool, maxRetries: int)
    requires Accounted(l, maxRetries) && queue + multiset{task} == Envelopes(l.held)
    ensures task.core in l.runs && Again(task) !in queue
    ensures var outcome := OutcomeOf(task, fails, maxRetries);
      && Accounted(Settled(l, task, outcome), maxRetries)
      && Settled(l, task, outcome).first == l.first
      && Envelopes(Settled(l, task, outcome).held) == queue + Back(task, outcome)
      && TotalLeft(queue + Back(task, outcome), maxRetries) < TotalLeft(Envelopes(l.held), maxRetries)
  {
    var outcome := OutcomeOf(task, fails, maxRetries);
    var held := Envelopes(l.held);
    assert task in held && queue == held - multiset{task};
    SettleKeepsAccounts(l, task, fails, maxRetries);
    SettleMovesEnvelope(l, task, outcome);
    SettleUsesAttempt(held, task, fails, maxRetries);
    assert queue + Back(task, outcome) == held - multiset{task} +
      if outcome.Retried? then multiset{Again(task)} else multiset{};
  }

  lemma {:induction false} CountEnd(ended: map<Core, Fate>, c: Core, fate: Fate)
    requires c !in ended
    ensures |SucceededIn(ended[c := fate])| == |SucceededIn(ended)| + if fate == Succeeded then 1 else 0
  {
    var after := ended[c := fate];
    if fate == Succeeded {
      assert SucceededIn(after) == SucceededIn(ended) + {c};
    } else {
      assert SucceededIn(after) == SucceededIn(ended);
    }
  }

  lemma {:induction false} CountSuccess(l: Ledger, task: Envelope, outcome: Outcome, maxRetries: int)
    requires Accounted(l, maxRetries) && task in Envelopes(l.held) && task.core in l.runs
    ensures |SucceededIn(Settled(l, task, outcome).ended)| ==
      |SucceededIn(l.ended)| + if outcome == Ended(Succeeded) then 1 else 0
  {
    EnvelopeIsHeld(l.held, task);
    if outcome.Ended? {
      CountEnd(l.ended, task.core, outcome.fate);
    }
  }

  lemma {:induction false} EmptyHolding(held: map<Core, int>)
    requires Envelopes(held) == multiset{}
    ensures held == map[]
  {
    if held != map[] {
      var c :| c in held;
      EnvelopeIsHeld(held, Envelope(c, held[c]));
    }
  }
}
