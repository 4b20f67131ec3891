/** Many workers on one Redis, each of whose steps is one Redis command, and any of which may crash between two.
    Models the concurrent use of `_drain_ready_scheduled_tasks` in backend/app/services/queue.py:55-84. */
module QueueInterleaving {
  import opened Models
  import opened RetryQueue

  /** Where a worker is in a drain: outside, or with the batch it has read and not yet pushed, or pushed and not yet
      removed. */
  datatype Phase = Outside | HasRead(items: seq<Envelope>) | HasPushed(items: seq<Envelope>)

  /** `added` is everything that was ever scheduled and `pushed` what was ever pushed; `owed` are the scheduled
      envelopes that have not been pushed since they were scheduled last; `popped` has left the ready list. */
  datatype State = State(
    ready: seq<Envelope>, scheduled: map<Envelope, real>, workers: map<Id, Phase>,
    added: set<Envelope>, pushed: set<Envelope>, owed: set<Envelope>, popped: multiset<Envelope>)

  datatype Action =
    | Zadd(e: Envelope, score: real)
    | Enqueue(e: Envelope)
    | Zrange(w: Id, now: real, batch: seq<Envelope>)
    | Lpush(w: Id)
    | Zrem(w: Id)
    | Pop
    | Crash(w: Id)

  function PhaseOf(s: State, w: Id): Phase {
    if w in s.workers then s.workers[w] else Outside
  }

  function Items(p: Phase): seq<Envelope> {
    if p.Outside? then [] else p.items
  }

  function Elements(items: seq<Envelope>): set<Envelope> {
    set e | e in items
  }

  /** A drain runs its commands in this order, and only if there was something to drain. */
  ghost predicate Enabled(s: State, a: Action) {
    match a
    case Zrange(w, now, batch) => PhaseOf(s, w).Outside? && IsBatch(s.scheduled, now, BATCH, batch) && batch != []
    case Lpush(w) => PhaseOf(s, w).HasRead?
    case Zrem(w) => PhaseOf(s, w).HasPushed?
    case Pop => s.ready != []
    case _ => true
  }

  function Next(s: State, a: Action): State {
    match a
    case Zadd(e, score) => s.(scheduled := s.scheduled[e := score], added := s.added + {e}, owed := s.owed + {e})
    case Enqueue(e) => s.(ready := [e] + s.ready)
    case Zrange(w, _, batch) => s.(workers := s.workers[w := HasRead(batch)])
    case Lpush(w) =>
      var items := Items(PhaseOf(s, w));
      s.(ready := LPush(s.ready, items), workers := s.workers[w := HasPushed(items)],
         pushed := s.pushed + Elements(items), owed := s.owed - Elements(items))
    case Zrem(w) =>
      s.(scheduled := Without(s.scheduled, Items(PhaseOf(s, w))), workers := s.workers[w := Outside])
    case Pop =>
      if s.ready == [] then s
      else
        var last := |s.ready| - 1;
        s.(ready := s.ready[..last], popped := s.popped + multiset{s.ready[last]})
    case Crash(w) => s.(workers := s.workers[w := Outside])
  }

  ghost predicate Run(s: State, actions: seq<Action>, t: State)
    decreases |actions|
  {
    if actions == [] then s == t
    else Enabled(s, actions[0]) && Run(Next(s, actions[0]), actions[1..], t)
  }

  const EMPTY := State([], map[], map[], {}, {}, {}, multiset{})

  /** What each command does to the list and the scored set. */
  lemma {:induction false} CommandsMean(s: State, a: Action)
    requires Enabled(s, a)
    ensures var t := Next(s, a);
      match a
      case Zadd(e, score) => t.ready == s.ready && t.scheduled == s.scheduled[e := score] && t.workers == s.workers
      case Enqueue(e) =>
        Deliveries(t.ready) == Deliveries(s.ready) + [e] && t.scheduled == s.scheduled && t.workers == s.workers
      case Pop =>
        && t.popped == s.popped + multiset{Deliveries(s.ready)[0]} && Deliveries(t.ready) == Deliveries(s.ready)[1..]
        && t.scheduled == s.scheduled && t.workers == s.workers
      case Lpush(w) =>
        && Deliveries(t.ready) == Deliveries(s.ready) + Items(PhaseOf(s, w)) && t.scheduled == s.scheduled
        && PhaseOf(t, w) == HasPushed(Items(PhaseOf(s, w)))
      case Zrem(w) =>
        && t.ready == s.ready && PhaseOf(t, w) == Outside
        && forall e :: (e in t.scheduled <==> e in s.scheduled && e !in Items(PhaseOf(s, w)))
             && (e in t.scheduled ==> t.scheduled[e] == s.scheduled[e])
      case Zrange(w, _, batch) => t == s.(workers := s.workers[w := HasRead(batch)])
      case Crash(w) => t == s.(workers := s.workers[w := Outside])
  {
    match a
    case Enqueue(e) => DeliveriesCons(e, s.ready);
    case Lpush(w) => PushedLast(s.ready, Items(PhaseOf(s, w)));
    case _ =>
  }

  // ---------------------------------------------------------------------------
  // Nothing leaves the scheduled set unpushed
  // ---------------------------------------------------------------------------

  predicate Delivered(s: State, e: Envelope) { e in s.ready || e in s.popped }

  ghost predicate Inv(s: State) {
    && (forall w | w in s.workers && s.workers[w].HasPushed? :: forall e | e in s.workers[w].items :: e in s.pushed)
    && (forall e | e in s.added :: e in s.scheduled || e in s.pushed)
    && (forall e | e in s.pushed :: Delivered(s, e))
  }

  lemma {:induction false} PushedStay(list: seq<Envelope>, values: seq<Envelope>, e: Envelope)
    ensures e in LPush(list, values) <==> e in list || e in values
  {
    PushedAll(list, values);
    assert e in multiset(LPush(list, values)) <==> e in multiset(list) + multiset(values);
  }

  lemma {:induction false} PopKeepsDelivered(s: State, e: Envelope)
    requires s.ready != [] && Delivered(s, e)
    ensures Delivered(Next(s, Pop), e)
  {
    assert s.ready == s.ready[..|s.ready| - 1] + [s.ready[|s.ready| - 1]];
  }

  lemma {:induction false} StepKeepsInv(s: State, a: Action)
    requires Inv(s) && Enabled(s, a)
    ensures Inv(Next(s, a))
  {
    var t := Next(s, a);
    match a
    case Lpush(w) =>
      assert s.workers[w].HasRead?;
      forall e | e in t.pushed ensures Delivered(t, e) {
        PushedStay(s.ready, Items(PhaseOf(s, w)), e);
      }
    case Pop =>
      forall e | e in t.pushed ensures Delivered(t, e) {
        PopKeepsDelivered(s, e);
      }
    case _ =>
  }

  lemma {:induction false} RunKeepsInv(s: State, actions: seq<Action>, t: State)
    requires Inv(s) && Run(s, actions, t)
    ensures Inv(t)
    decreases |actions|
  {
    if actions != [] {
      StepKeepsInv(s, actions[0]);
      RunKeepsInv(Next(s, actions[0]), actions[1..], t);
    }
  }

  /** Main result: over every run of any number of workers, crashes included, whatever was scheduled is still
      scheduled or has been delivered. */
  lemma {:induction false} DrainingLosesNothing(actions: seq<Action>, s: State)
    requires Run(EMPTY, actions, s)
    ensures forall e | e in s.added :: e in s.scheduled || Delivered(s, e)
  {
    RunKeepsInv(EMPTY, actions, s);
  }

  lemma {:induction false} RunRemembers(s: State, actions: seq<Action>, t: State)
    requires Run(s, actions, t)
    ensures s.added <= t.added
    ensures forall a | a in actions && a.Zadd? :: a.e in t.added
    decreases |actions|
  {
    if actions != [] {
      RunRemembers(Next(s, actions[0]), actions[1..], t);
      assert forall a | a in actions :: a == actions[0] || a in actions[1..];
    }
  }

  /** In terms of the commands: whatever any ZADD of the run scheduled is scheduled, on the ready list or popped. */
  lemma {:induction false} EveryScheduledIsKept(actions: seq<Action>, s: State, a: Action)
    requires Run(EMPTY, actions, s) && a in actions && a.Zadd?
    ensures a.e in s.scheduled || a.e in s.ready || a.e in s.popped
  {
    RunRemembers(EMPTY, actions, s);
    DrainingLosesNothing(actions, s);
  }

  /** And a step that takes an envelope out of the scheduled set is a ZREM of a worker that has pushed it. */
  lemma {:induction false} LeavesOnlyAfterPush(actions: seq<Action>, s: State, a: Action, e: Envelope)
    requires Run(EMPTY, actions, s) && Enabled(s, a)
    requires e in s.scheduled && e !in Next(s, a).scheduled
    ensures a.Zrem? && PhaseOf(s, a.w).HasPushed? && e in PhaseOf(s, a.w).items && e in s.pushed
  {
    RunKeepsInv(EMPTY, actions, s);
  }

  // ---------------------------------------------------------------------------
  // An equal envelope that is scheduled again
  // ---------------------------------------------------------------------------

  /** Some worker has pushed e and not yet removed it. */
  predicate BetweenPushAndRemove(s: State, e: Envelope) {
    exists w | w in s.workers :: s.workers[w].HasPushed? && e in s.workers[w].items
  }

  /** No step of the run schedules an envelope that a worker is about to remove. */
  ghost predicate NoLateReschedule(s: State, actions: seq<Action>)
    decreases |actions|
  {
    || actions == []
    || ((actions[0].Zadd? ==> !BetweenPushAndRemove(s, actions[0].e))
        && NoLateReschedule(Next(s, actions[0]), actions[1..]))
  }

  /** Every envelope that has not been pushed since it was last scheduled is scheduled, and nobody is about to remove
      it. */
  ghost predicate OwedSafe(s: State) {
    forall e | e in s.owed :: e in s.scheduled && !BetweenPushAndRemove(s, e)
  }

  lemma {:induction false} StepKeepsOwed(s: State, a: Action)
    requires OwedSafe(s) && Enabled(s, a) && (a.Zadd? ==> !BetweenPushAndRemove(s, a.e))
    ensures OwedSafe(Next(s, a))
  {
    var t := Next(s, a);
    forall e | e in t.owed ensures e in t.scheduled && !BetweenPushAndRemove(t, e) {
      assert e in s.owed || (a.Zadd? && e == a.e);
      if a.Zrem? {
        assert PhaseOf(s, a.w) == s.workers[a.w];
      }
    }
  }

  lemma {:induction false} RunKeepsOwed(s: State, actions: seq<Action>, t: State)
    requires OwedSafe(s) && Run(s, actions, t) && NoLateReschedule(s, actions)
    ensures OwedSafe(t)
    decreases |actions|
  {
    if actions != [] {
      StepKeepsOwed(s, actions[0]);
      RunKeepsOwed(Next(s, actions[0]), actions[1..], t);
    }
  }

  /** In the simple case that no envelope is scheduled between a worker's push and removal of an equal one: what has not
      been pushed since it was last scheduled is still scheduled, and nobody is about to remove it. */
  lemma {:induction false} UnpushedStaysScheduled(actions: seq<Action>, s: State)
    requires Run(EMPTY, actions, s) && NoLateReschedule(EMPTY, actions)
    ensures forall e | e in s.owed :: e in s.scheduled && !BetweenPushAndRemove(s, e)
  {
    RunKeepsOwed(EMPTY, actions, s);
  }

  // ---------------------------------------------------------------------------
  // Exactly which rescheduling is lost
  // ---------------------------------------------------------------------------

  /** Worker w has pushed e and not yet removed it. */
  predicate AboutToRemove(s: State, w: Id, e: Envelope) {
    PhaseOf(s, w).HasPushed? && e in PhaseOf(s, w).items
  }

  /** Before w removes e, if it ever does, w crashes or somebody pushes e. */
  predicate Saved(s: State, actions: seq<Action>, w: Id, e: Envelope)
    decreases |actions|
  {
    if actions == [] then true
    else
      var later := Saved(Next(s, actions[0]), actions[1..], w, e);
      match actions[0]
      case Zrem(v) => v != w && later
      case Crash(v) => v == w || later
      case Lpush(v) => e in Items(PhaseOf(s, v)) || later
      case _ => later
  }

  /** Whatever the run schedules while a worker is about to remove it is saved from that worker. */
  ghost predicate NoLossyReschedule(s: State, actions: seq<Action>)
    decreases |actions|
  {
    actions != [] ==>
      var next := Next(s, actions[0]);
      && (actions[0].Zadd? ==>
            forall w | AboutToRemove(s, w, actions[0].e) :: Saved(next, actions[1..], w, actions[0].e))
      && NoLossyReschedule(next, actions[1..])
  }

  /** No step of the run takes out of the scheduled set what has not been pushed since it was last scheduled. */
  ghost predicate LeavesOnlyPushed(s: State, actions: seq<Action>)
    decreases |actions|
  {
    actions != [] ==>
      var next := Next(s, actions[0]);
      && (forall e | e in s.scheduled && e in s.owed :: e in next.scheduled)
      && LeavesOnlyPushed(next, actions[1..])
  }

  /** Every unpushed envelope that a worker is about to remove is saved from it. */
  ghost predicate OwedSaved(s: State, actions: seq<Action>) {
    forall w, e | AboutToRemove(s, w, e) && e in s.owed :: Saved(s, actions, w, e)
  }

  lemma {:induction false} StepKeepsOwedSaved(s: State, actions: seq<Action>)
    requires actions != [] && Enabled(s, actions[0])
    requires OwedSaved(s, actions) && NoLossyReschedule(s, actions)
    ensures OwedSaved(Next(s, actions[0]), actions[1..])
    ensures forall e | e in s.scheduled && e in s.owed :: e in Next(s, actions[0]).scheduled
  {
    var a, t := actions[0], Next(s, actions[0]);
    forall w, e | AboutToRemove(t, w, e) && e in t.owed ensures Saved(t, actions[1..], w, e) {
      assert AboutToRemove(s, w, e);
      assert (a.Zadd? && a.e == e) || Saved(s, actions, w, e);
    }
    if a.Zrem? {
      forall e | e in s.scheduled && e in s.owed ensures e in t.scheduled {
        assert AboutToRemove(s, a.w, e) ==> Saved(s, actions, a.w, e);
      }
    }
  }

  lemma {:induction false} SavedMeansPushed(s: State, actions: seq<Action>, t: State)
    requires Run(s, actions, t) && OwedSaved(s, actions) && NoLossyReschedule(s, actions)
    ensures LeavesOnlyPushed(s, actions)
    decreases |actions|
  {
    if actions != [] {
      StepKeepsOwedSaved(s, actions);
      SavedMeansPushed(Next(s, actions[0]), actions[1..], t);
    }
  }

  /** An unpushed envelope that is not saved from a worker leaves the scheduled set unpushed. */
  lemma {:induction false} UnsavedIsLost(s: State, actions: seq<Action>, t: State, w: Id, e: Envelope)
    requires Run(s, actions, t) && AboutToRemove(s, w, e) && !Saved(s, actions, w, e)
    requires e in s.owed && e in s.scheduled
    ensures !LeavesOnlyPushed(s, actions)
    decreases |actions|
  {
    var next := Next(s, actions[0]);
    if e in next.scheduled {
      UnsavedIsLost(next, actions[1..], t, w, e);
    }
  }

  lemma {:induction false} LossyIsLost(s: State, actions: seq<Action>, t: State)
    requires Run(s, actions, t) && !NoLossyReschedule(s, actions)
    ensures !LeavesOnlyPushed(s, actions)
    decreases |actions|
  {
    var a, next := actions[0], Next(s, actions[0]);
    if NoLossyReschedule(next, actions[1..]) {
      var w :| AboutToRemove(s, w, a.e) && !Saved(next, actions[1..], w, a.e);
      UnsavedIsLost(next, actions[1..], t, w, a.e);
    } else {
      LossyIsLost(next, actions[1..], t);
    }
  }

  /** Main result: in a run of any workers, crashes included, an envelope leaves the scheduled set only once it has been
      pushed since it was last scheduled, if and only if every envelope scheduled while a worker is about to remove an
      equal one is saved from that worker. */
  lemma {:induction false} LosesNoRescheduleExactly(actions: seq<Action>, t: State)
    requires Run(EMPTY, actions, t)
    ensures LeavesOnlyPushed(EMPTY, actions) <==> NoLossyReschedule(EMPTY, actions)
  {
    if NoLossyReschedule(EMPTY, actions) {
      SavedMeansPushed(EMPTY, actions, t);
    } else {
      LossyIsLost(EMPTY, actions, t);
    }
  }

  /** So the step that takes an envelope out of the scheduled set finds it pushed since it was last scheduled, and not
      just once, if the run up to and with that step loses none. */
  lemma {:induction false} LeavesPushedSinceScheduled(actions: seq<Action>, s: State, a: Action, e: Envelope)
    requires Run(EMPTY, actions, s) && Enabled(s, a) && NoLossyReschedule(EMPTY, actions + [a])
    requires e in s.scheduled && e !in Next(s, a).scheduled
    ensures e !in s.owed
  {
    OneMoreStep(EMPTY, actions, s, a);
    LosesNoRescheduleExactly(actions + [a], Next(s, a));
  }

  lemma {:induction false} OneMoreStep(s: State, actions: seq<Action>, t: State, a: Action)
    requires Run(s, actions, t) && Enabled(t, a)
    ensures Run(s, actions + [a], Next(t, a))
    ensures LeavesOnlyPushed(s, actions + [a]) ==>
      forall e | e in t.scheduled && e in t.owed :: e in Next(t, a).scheduled
    decreases |actions|
  {
    var longer := actions + [a];
    if actions == [] {
      assert longer[1..] == [] && Run(Next(t, a), [], Next(t, a));
    } else {
      OneMoreStep(Next(s, actions[0]), actions[1..], t, a);
      assert longer[1..] == actions[1..] + [a];
    }
  }

  /** The simple case: nothing at all is scheduled while a worker is about to remove it. */
  lemma {:induction false} NoLateIsNotLossy(s: State, actions: seq<Action>)
    requires NoLateReschedule(s, actions)
    ensures NoLossyReschedule(s, actions)
    decreases |actions|
  {
    if actions != [] {
      NoLateIsNotLossy(Next(s, actions[0]), actions[1..]);
      forall w | actions[0].Zadd? && AboutToRemove(s, w, actions[0].e) ensures false {
        assert BetweenPushAndRemove(s, actions[0].e);
      }
    }
  }

  // ---------------------------------------------------------------------------
  // Two runs
  // ---------------------------------------------------------------------------

  /** The first commands of a drain of the only envelope, and what they leave. */
  lemma {:induction false} PushOfOne(w: Id, e: Envelope, rest: seq<Action>, t: State)
    requires Run(Pushing(w, e), rest, t)
    ensures Run(EMPTY, [Zadd(e, 0.0), Zrange(w, 0.0, [e])] + rest, t)
  {
    var actions := [Zadd(e, 0.0), Zrange(w, 0.0, [e])] + rest;
    assert actions[1..] == [Zrange(w, 0.0, [e])] + rest && actions[1..][1..] == rest;
    var s1 := Next(EMPTY, actions[0]);
    assert IsBatch(s1.scheduled, 0.0, BATCH, [e]);
    assert Next(s1, actions[1]) == Pushing(w, e);
    assert Run(s1, actions[1..], t);
  }

  function Pushing(w: Id, e: Envelope): State {
    Next(Next(EMPTY, Zadd(e, 0.0)), Zrange(w, 0.0, [e]))
  }

  lemma {:induction false} RunOfThree(s: State, a: Action, b: Action, c: Action)
    requires Enabled(s, a) && Enabled(Next(s, a), b) && Enabled(Next(Next(s, a), b), c)
    ensures Run(s, [a, b, c], Next(Next(Next(s, a), b), c))
  {
    var t := Next(Next(Next(s, a), b), c);
    assert [a, b, c][1..] == [b, c] && [b, c][1..] == [c] && [c][1..] == [];
    assert Run(t, [], t);
    assert Run(Next(Next(s, a), b), [c], t);
    assert Run(Next(s, a), [b, c], t);
  }

  /** A lossy run: an envelope that is scheduled again between a push and its removal is removed with it, and is on the
      list only once. */
  lemma {:induction false} LateRescheduleIsLost(w: Id, e: Envelope, score: real)
    ensures var run := [Zadd(e, 0.0), Zrange(w, 0.0, [e])] + [Lpush(w), Zadd(e, score), Zrem(w)];
      exists t ::
        Run(EMPTY, run, t) && e in t.owed && e !in t.scheduled && t.ready == [e] && t.popped == multiset{}
  {
    var s := Pushing(w, e);
    RunOfThree(s, Lpush(w), Zadd(e, score), Zrem(w));
    var t := Next(Next(Next(s, Lpush(w)), Zadd(e, score)), Zrem(w));
    PushOfOne(w, e, [Lpush(w), Zadd(e, score), Zrem(w)], t);
    PushedAlone(e);
  }

  lemma {:induction false} PushedAlone(e: Envelope)
    ensures LPush([], [e]) == [e]
  {
    assert [e][1..] == [] && [e] + [] == [e];
  }

  /** Not every scheduling gets a push of its own: one that only moves the due time of an envelope already read by a
      worker shares that worker's push. */
  lemma {:induction false} ReschedulingCanShareAPush(w: Id, e: Envelope, score: real)
    ensures var run := [Zadd(e, 0.0), Zrange(w, 0.0, [e])] + [Zadd(e, score), Lpush(w), Zrem(w)];
      && NoLateReschedule(EMPTY, run)
      && exists t :: Run(EMPTY, run, t) && t.owed == {} && t.scheduled == map[] && t.ready == [e]
  {
    var s := Pushing(w, e);
    var more := [Zadd(e, score), Lpush(w), Zrem(w)];
    RunOfThree(s, more[0], more[1], more[2]);
    var t := Next(Next(Next(s, more[0]), more[1]), more[2]);
    PushOfOne(w, e, more, t);
    PushedAlone(e);
    assert more[1..] == [Lpush(w), Zrem(w)] && more[1..][1..] == [Zrem(w)] && more[1..][1..][1..] == [];
    var s1 := Next(s, more[0]);
    assert NoLateReschedule(Next(Next(s1, more[1]), more[2]), []);
    assert NoLateReschedule(Next(s1, more[1]), [Zrem(w)]);
    assert NoLateReschedule(s1, [Lpush(w), Zrem(w)]);
    var run := [Zadd(e, 0.0), Zrange(w, 0.0, [e])] + more;
    assert run[1..] == [Zrange(w, 0.0, [e])] + more && run[1..][1..] == more;
    assert NoLateReschedule(Next(EMPTY, run[0]), run[1..]);
  }

  /** The three commands of one worker, uninterrupted, are one drain. */
  lemma {:induction false} UninterruptedDrain(s: State, w: Id, now: real, batch: seq<Envelope>, next: Option<real>)
    requires PhaseOf(s, w).Outside? && IsBatch(s.scheduled, now, BATCH, batch) && batch != []
    requires IsNext(Without(s.scheduled, batch), now, next)
    ensures var t := Next(Next(Next(s, Zrange(w, now, batch)), Lpush(w)), Zrem(w));
      && Run(s, [Zrange(w, now, batch), Lpush(w), Zrem(w)], t)
      && Drained(Queue(s.ready, s.scheduled, now), Queue(t.ready, t.scheduled, now), batch, Delay(next, now))
      && PhaseOf(t, w).Outside?
  {
    var s1 := Next(s, Zrange(w, now, batch));
    var s2 := Next(s1, Lpush(w));
    var t := Next(s2, Zrem(w));
    assert Run(t, [], t);
    assert [Zrem(w)][1..] == [];
    assert Run(s2, [Zrem(w)], t);
    assert [Lpush(w), Zrem(w)][1..] == [Zrem(w)];
    assert Run(s1, [Lpush(w), Zrem(w)], t);
    assert [Zrange(w, now, batch), Lpush(w), Zrem(w)][1..] == [Lpush(w), Zrem(w)];
  }
}
