/** The polling event stream with a bounded memory of what it has sent.
    Models `_task_event_generator` of backend/app/api/tasks.py; the comment feed of backend/app/api/activity.py runs
    the same loop. */
module EventStream {
  import opened Models

  datatype Event = Event(id: Id, stamp: Time)

  /** SSE_SEEN_MAX. */
  const SEEN_MAX: nat := 2000

  /** `emitted` is everything the stream has sent, in order. */
  datatype Stream = Stream(lastSeen: Time, seenIds: set<Id>, seenQueue: seq<Id>, emitted: seq<Event>)

  function Later(a: Time, b: Time): Time { if a >= b then a else b }

  /** One row of a poll. */
  function Seen(s: Stream, e: Event): Stream {
    if e.id in s.seenIds then s
    else
      var ids, queue := s.seenIds + {e.id}, s.seenQueue + [e.id];
      var full := |queue| > SEEN_MAX;
      Stream(
        Later(e.stamp, s.lastSeen), if full then ids - {queue[0]} else ids, if full then queue[1..] else queue,
        s.emitted + [e])
  }

  function Polled(s: Stream, rows: seq<Event>): Stream
    decreases |rows|
  {
    if rows == [] then s else Seen(Polled(s, rows[..|rows| - 1]), rows[|rows| - 1])
  }

  function Opened(since: Time): Stream { Stream(since, {}, [], []) }

  /** What the query of a poll returns: the visible events from lastSeen on, oldest first, those of one time in any
      order. */
  ghost predicate IsPage(rows: seq<Event>, visible: set<Event>, lastSeen: Time) {
    && (forall e | e in rows :: e in visible && e.stamp >= lastSeen)
    && (forall e | e in visible && e.stamp >= lastSeen :: e in rows)
    && (forall i, j :: 0 <= i < j < |rows| ==> rows[i] != rows[j] && rows[i].stamp <= rows[j].stamp)
  }

  /** The stream after polls that found the given pages; events come and go between them. */
  ghost predicate IsRun(since: Time, visible: seq<set<Event>>, pages: seq<seq<Event>>, t: Stream)
    decreases |pages|
  {
    if pages == [] then visible == [] && t == Opened(since)
    else
      |visible| == |pages| &&
      exists s ::
        && IsRun(since, visible[..|pages| - 1], pages[..|pages| - 1], s)
        && IsPage(pages[|pages| - 1], visible[|pages| - 1], s.lastSeen)
        && t == Polled(s, pages[|pages| - 1])
  }

  // ---------------------------------------------------------------------------
  // The memory
  // ---------------------------------------------------------------------------

  function Ids(events: seq<Event>): seq<Id> {
    seq(|events|, i requires 0 <= i < |events| => events[i].id)
  }

  function Recent(ids: seq<Id>): seq<Id> {
    if |ids| <= SEEN_MAX then ids else ids[|ids| - SEEN_MAX..]
  }

  /** `seen_ids` holds what `seen_queue` holds, the last ids that were sent, and `last_seen` is the latest of the start
      and all times sent. */
  ghost predicate Remembers(s: Stream, since: Time) {
    && s.seenQueue == Recent(Ids(s.emitted))
    && NoDuplicates(s.seenQueue)
    && (forall id :: id in s.seenIds <==> id in s.seenQueue)
    && (forall e | e in s.emitted :: e.stamp <= s.lastSeen)
    && s.lastSeen >= since
    && (s.lastSeen == since || exists e :: e in s.emitted && e.stamp == s.lastSeen)
  }

  lemma {:induction false} SeenRemembers(s: Stream, since: Time, e: Event)
    requires Remembers(s, since)
    ensures Remembers(Seen(s, e), since)
  {
    if e.id !in s.seenIds {
      var t := Seen(s, e);
      var ids := Ids(s.emitted);
      assert Ids(s.emitted + [e]) == ids + [e.id];
      QueueKeepsSet(s.seenQueue, s.seenIds, e.id);
      assert e in t.emitted;
      forall f | f in t.emitted ensures f.stamp <= t.lastSeen {
        assert f in s.emitted || f == e;
      }
      if t.lastSeen != since && t.lastSeen != e.stamp {
        var f :| f in s.emitted && f.stamp == s.lastSeen;
        assert f in t.emitted;
      }
    }
  }

  lemma {:induction false} QueueKeepsSet(queue: seq<Id>, ids: set<Id>, id: Id)
    requires NoDuplicates(queue) && id !in queue && (forall x :: x in ids <==> x in queue)
    ensures var queue', ids' := queue + [id], ids + {id};
      && NoDuplicates(queue') && NoDuplicates(queue'[1..])
      && (forall x :: x in ids' <==> x in queue')
      && (forall x :: x in ids' - {queue'[0]} <==> x in queue'[1..])
  {
    var longer := queue + [id];
    assert longer == [longer[0]] + longer[1..];
    assert longer[0] !in longer[1..];
  }

  lemma {:induction false} PolledRemembers(s: Stream, since: Time, rows: seq<Event>)
    requires Remembers(s, since)
    ensures Remembers(Polled(s, rows), since)
    decreases |rows|
  {
    if rows != [] {
      PolledRemembers(s, since, rows[..|rows| - 1]);
      SeenRemembers(Polled(s, rows[..|rows| - 1]), since, rows[|rows| - 1]);
    }
  }

  // ---------------------------------------------------------------------------
  // Each event at most once
  // ---------------------------------------------------------------------------

  predicate UniqueIds(events: set<Event>) {
    forall e, f | e in events && f in events && e.id == f.id :: e == f
  }

  function At(events: set<Event>, stamp: Time): set<Event> {
    set e | e in events && e.stamp == stamp
  }

  /** The events that a stream opened at `since` can ever send. */
  function From(events: set<Event>, since: Time): set<Event> {
    set e | e in events && e.stamp >= since
  }

  /** No more events share a time than the stream remembers. */
  predicate NoCrowd(events: set<Event>) {
    forall e | e in events :: |At(events, e.stamp)| <= 2000
  }

  /** Everything sent so far is different, from `all`, and in order of time. */
  predicate InOrderOnce(s: Stream, all: set<Event>) {
    && AllIn(s.emitted, all)
    && (forall i, j :: 0 <= i < j < |s.emitted| ==>
      s.emitted[i] != s.emitted[j] && s.emitted[i].stamp <= s.emitted[j].stamp)
  }

  /** All that was sent from an event of the latest time on is of that time. */
  lemma {:induction false} LatestTail(s: Stream, all: set<Event>, k: nat)
    requires InOrderOnce(s, all) && k < |s.emitted|
    requires forall f | f in s.emitted :: f.stamp <= s.emitted[k].stamp
    ensures |s.emitted| - k <= |At(all, s.emitted[k].stamp)|
  {
    var tail := s.emitted[k..];
    forall f | f in tail ensures f in At(all, s.emitted[k].stamp) {
      var i :| 0 <= i < |tail| && tail[i] == f;
      assert f == s.emitted[k + i];
    }
    DistinctFit(tail, At(all, s.emitted[k].stamp));
  }

  /** What was sent at the latest time is still remembered, if that time is not crowded. */
  lemma {:induction false} LatestAreRemembered(s: Stream, since: Time, all: set<Event>, e: Event)
    requires Remembers(s, since) && InOrderOnce(s, all) && NoCrowd(all)
    requires e in s.emitted && forall f | f in s.emitted :: f.stamp <= e.stamp
    ensures e.id in s.seenIds
  {
    var n := |s.emitted|;
    var k :| 0 <= k < n && s.emitted[k] == e;
    LatestTail(s, all, k);
    var ids := Ids(s.emitted);
    assert ids[k] == e.id;
    assert n - k <= SEEN_MAX;
    if n > SEEN_MAX {
      assert Recent(ids)[k - (n - SEEN_MAX)] == e.id;
    }
  }

  lemma {:induction false} SeenOnce(s: Stream, since: Time, all: set<Event>, e: Event)
    requires Remembers(s, since) && InOrderOnce(s, all) && NoCrowd(all) && UniqueIds(all)
    requires e in all && forall f | f in s.emitted :: f.stamp <= e.stamp
    ensures InOrderOnce(Seen(s, e), all)
    ensures e in Seen(s, e).emitted
  {
    if e in s.emitted {
      LatestAreRemembered(s, since, all, e);
    }
  }

  lemma {:induction false} PolledKeeps(s: Stream, rows: seq<Event>)
    ensures forall e | e in s.emitted :: e in Polled(s, rows).emitted
    ensures forall e | e in Polled(s, rows).emitted :: e in s.emitted || e in rows
    decreases |rows|
  {
    if rows != [] {
      PolledKeeps(s, rows[..|rows| - 1]);
      assert rows == rows[..|rows| - 1] + [rows[|rows| - 1]];
    }
  }

  predicate Ascending(rows: seq<Event>) {
    forall i, j :: 0 <= i < j < |rows| ==> rows[i].stamp <= rows[j].stamp
  }

  predicate AllIn(rows: seq<Event>, all: set<Event>) {
    forall e | e in rows :: e in all
  }

  /** Nothing sent before the last row of a page, in this poll or earlier, is later than that row. */
  lemma {:induction false} NothingLater(s: Stream, rows: seq<Event>, f: Event)
    requires rows != [] && Ascending(rows) && f in Polled(s, rows[..|rows| - 1]).emitted
    requires forall e | e in s.emitted :: e.stamp <= s.lastSeen
    requires rows[|rows| - 1].stamp >= s.lastSeen
    ensures f.stamp <= rows[|rows| - 1].stamp
  {
    var front := rows[..|rows| - 1];
    PolledKeeps(s, front);
    if f in front {
      var i :| 0 <= i < |front| && front[i] == f;
      assert rows[i] == f;
    }
  }

  /** A poll sends each event of its page that has not been sent, and nothing twice. */
  lemma {:induction false} PolledOnce(s: Stream, since: Time, all: set<Event>, rows: seq<Event>)
    requires Remembers(s, since) && InOrderOnce(s, all) && NoCrowd(all) && UniqueIds(all)
    requires AllIn(rows, all) && Ascending(rows) && forall e | e in rows :: e.stamp >= s.lastSeen
    ensures InOrderOnce(Polled(s, rows), all)
    decreases |rows|
  {
    if rows != [] {
      var front, last := rows[..|rows| - 1], rows[|rows| - 1];
      var mid := Polled(s, front);
      PolledOnce(s, since, all, front);
      PolledRemembers(s, since, front);
      forall f | f in mid.emitted ensures f.stamp <= last.stamp {
        NothingLater(s, rows, f);
      }
      SeenOnce(mid, since, all, last);
    }
  }

  predicate Within(visible: seq<set<Event>>, all: set<Event>) {
    forall i :: 0 <= i < |visible| ==> visible[i] <= all
  }

  lemma {:induction false} RunOnce(
    since: Time, all: set<Event>, visible: seq<set<Event>>, pages: seq<seq<Event>>, t: Stream)
    requires IsRun(since, visible, pages, t) && NoCrowd(From(all, since)) && UniqueIds(all) && Within(visible, all)
    ensures Remembers(t, since) && InOrderOnce(t, From(all, since))
    decreases |pages|
  {
    if pages != [] {
      var last := |pages| - 1;
      var s :| IsRun(since, visible[..last], pages[..last], s) && IsPage(pages[last], visible[last], s.lastSeen)
        && t == Polled(s, pages[last]);
      RunOnce(since, all, visible[..last], pages[..last], s);
      PolledRemembers(s, since, pages[last]);
      PolledOnce(s, since, From(all, since), pages[last]);
    }
  }

  predicate NeverTwice(t: Stream) {
    forall i, j :: 0 <= i < j < |t.emitted| ==> t.emitted[i].id != t.emitted[j].id
  }

  /** Main result: if no more than SEEN_MAX events from the start on ever share a time, no run of polls sends an event
      twice, however events appear and disappear in between; what is sent is in order of time. */
  lemma {:induction false} StreamSendsOnce(
    since: Time, all: set<Event>, visible: seq<set<Event>>, pages: seq<seq<Event>>, t: Stream)
    requires IsRun(since, visible, pages, t) && NoCrowd(From(all, since)) && UniqueIds(all)
    requires Within(visible, all)
    ensures NeverTwice(t)
    ensures forall i, j :: 0 <= i < j < |t.emitted| ==> t.emitted[i].stamp <= t.emitted[j].stamp
    ensures t.seenQueue == Recent(Ids(t.emitted)) && (forall id :: id in t.seenIds <==> id in t.seenQueue)
  {
    RunOnce(since, all, visible, pages, t);
    forall i, j | 0 <= i < j < |t.emitted| ensures t.emitted[i].id != t.emitted[j].id {
      assert t.emitted[i] in all && t.emitted[j] in all;
    }
  }

  // ---------------------------------------------------------------------------
  // Each event at least once
  // ---------------------------------------------------------------------------

  lemma {:induction false} PolledSendsAll(s: Stream, since: Time, all: set<Event>, rows: seq<Event>)
    requires Remembers(s, since) && UniqueIds(all) && AllIn(s.emitted, all) && AllIn(rows, all)
    ensures forall e | e in rows :: e in Polled(s, rows).emitted
    decreases |rows|
  {
    if rows != [] {
      var front, last := rows[..|rows| - 1], rows[|rows| - 1];
      PolledSendsAll(s, since, all, front);
      PolledRemembers(s, since, front);
      PolledKeeps(s, front);
      assert rows == front + [last];
    }
  }

  lemma {:induction false} RunRemembers(
    since: Time, all: set<Event>, visible: seq<set<Event>>, pages: seq<seq<Event>>, t: Stream)
    requires IsRun(since, visible, pages, t) && Within(visible, all)
    ensures Remembers(t, since) && AllIn(t.emitted, all)
    decreases |pages|
  {
    if pages != [] {
      var last := |pages| - 1;
      var s :| IsRun(since, visible[..last], pages[..last], s) && IsPage(pages[last], visible[last], s.lastSeen)
        && t == Polled(s, pages[last]);
      RunRemembers(since, all, visible[..last], pages[..last], s);
      PolledRemembers(s, since, pages[last]);
      PolledKeeps(s, pages[last]);
    }
  }

  /** Whatever the crowd: an event that a poll finds visible, from the start on and before a later one has been sent,
      has been sent when the poll is over. */
  lemma {:induction false} VisibleIsSent(
    since: Time, all: set<Event>, visible: seq<set<Event>>, pages: seq<seq<Event>>, s: Stream,
    found: set<Event>, rows: seq<Event>, e: Event)
    requires IsRun(since, visible, pages, s) && UniqueIds(all) && found <= all && Within(visible, all)
    requires IsPage(rows, found, s.lastSeen)
    requires e in found && e.stamp >= since && forall f | f in s.emitted :: f.stamp <= e.stamp
    ensures e in Polled(s, rows).emitted
  {
    RunRemembers(since, all, visible, pages, s);
    PolledSendsAll(s, since, all, rows);
  }

  // ---------------------------------------------------------------------------
  // The crowd
  // ---------------------------------------------------------------------------

  predicate DistinctIds(events: seq<Event>) {
    forall i, j :: 0 <= i < j < |events| ==> events[i].id != events[j].id
  }

  /** A first poll sends a page of new events as it is. */
  lemma {:induction false} FirstPoll(since: Time, rows: seq<Event>)
    requires DistinctIds(rows)
    ensures Polled(Opened(since), rows).emitted == rows
    decreases |rows|
  {
    if rows != [] {
      var front := rows[..|rows| - 1];
      FirstPoll(since, front);
      PolledRemembers(Opened(since), since, front);
      FirstPollGoesOn(since, Polled(Opened(since), front), rows);
    }
  }

  lemma {:induction false} FirstPollGoesOn(since: Time, mid: Stream, rows: seq<Event>)
    requires DistinctIds(rows) && rows != [] && Remembers(mid, since) && mid.emitted == rows[..|rows| - 1]
    ensures Seen(mid, rows[|rows| - 1]).emitted == rows
  {
    assert rows == rows[..|rows| - 1] + [rows[|rows| - 1]];
  }

  /** The bound is needed: of any larger crowd at one time, the next poll sends the oldest again. */
  lemma {:induction false} CrowdIsSentTwice(since: Time, crowd: seq<Event>, stamp: Time)
    requires |crowd| > 2000 && stamp >= since && forall e | e in crowd :: e.stamp == stamp
    requires DistinctIds(crowd)
    ensures var all := set e | e in crowd;
      exists t :: IsRun(since, [all, all], [crowd, crowd], t) && !NeverTwice(t)
  {
    var all := set e | e in crowd;
    var s := Polled(Opened(since), crowd);
    FirstPoll(since, crowd);
    PolledRemembers(Opened(since), since, crowd);
    OldestAgain(s, since, crowd);
    var t := Polled(s, crowd);
    TwoPolls(since, all, crowd, s, t);
    assert t.emitted[0] == t.emitted[..|crowd| + 1][0] && t.emitted[|crowd|] == t.emitted[..|crowd| + 1][|crowd|];
  }

  lemma {:induction false} Listed(events: set<Event>) returns (list: seq<Event>)
    requires UniqueIds(events)
    ensures |list| == |events| && DistinctIds(list) && forall e :: e in list <==> e in events
  {
    list := [];
    if events != {} {
      var e :| e in events;
      var others := Listed(events - {e});
      list := others + [e];
    }
  }

  /** So a stream never repeats itself, however events appear and disappear, if and only if no more than SEEN_MAX of
      those from its start on share a time. */
  lemma {:induction false} SendsOnceExactly(since: Time, all: set<Event>)
    requires UniqueIds(all)
    ensures (forall visible, pages, t | IsRun(since, visible, pages, t) && Within(visible, all) :: NeverTwice(t))
      <==> NoCrowd(From(all, since))
  {
    if NoCrowd(From(all, since)) {
      forall visible, pages, t | IsRun(since, visible, pages, t) && Within(visible, all) ensures NeverTwice(t) {
        StreamSendsOnce(since, all, visible, pages, t);
      }
    } else {
      CrowdRepeats(since, all);
    }
  }

  lemma {:induction false} CrowdRepeats(since: Time, all: set<Event>)
    requires UniqueIds(all) && !NoCrowd(From(all, since))
    ensures exists visible, pages, t :: IsRun(since, visible, pages, t) && Within(visible, all) && !NeverTwice(t)
  {
    var e :| e in From(all, since) && |At(From(all, since), e.stamp)| > 2000;
    var crowd := Listed(At(From(all, since), e.stamp));
    CrowdIsSentTwice(since, crowd, e.stamp);
    var found := set x | x in crowd;
    var t :| IsRun(since, [found, found], [crowd, crowd], t) && !NeverTwice(t);
    assert Within([found, found], all);
  }

  lemma {:induction false} TwoPolls(since: Time, all: set<Event>, page: seq<Event>, s: Stream, t: Stream)
    requires s == Polled(Opened(since), page) && t == Polled(s, page)
    requires IsPage(page, all, since) && IsPage(page, all, s.lastSeen)
    ensures IsRun(since, [all, all], [page, page], t)
  {
    var none: seq<set<Event>>, noPages: seq<seq<Event>> := [], [];
    assert IsRun(since, none, noPages, Opened(since));
    assert [all][..0] == none && [page][..0] == noPages;
    assert IsRun(since, [all], [page], s);
    assert [all, all][..1] == [all] && [page, page][..1] == [page];
  }

  lemma {:induction false} OldestAgain(s: Stream, since: Time, crowd: seq<Event>)
    requires Remembers(s, since) && s.emitted == crowd && |crowd| > SEEN_MAX
    requires DistinctIds(crowd)
    ensures |Polled(s, crowd).emitted| > |crowd| && Polled(s, crowd).emitted[..|crowd| + 1] == crowd + [crowd[0]]
  {
    var ids := Ids(crowd);
    assert crowd[0].id !in s.seenIds;
    PolledExtends(s, crowd, 1);
    assert crowd[..1][..0] == [] && crowd[..1][0] == crowd[0];
    assert Polled(s, crowd[..1]) == Seen(s, crowd[0]);
  }

  /** What has been sent stays the beginning of what is sent. */
  lemma {:induction false} PolledExtends(s: Stream, rows: seq<Event>, k: nat)
    requires k <= |rows|
    ensures var before, after := Polled(s, rows[..k]).emitted, Polled(s, rows).emitted;
      |before| <= |after| && after[..|before|] == before
    decreases |rows|
  {
    if k < |rows| {
      var front := rows[..|rows| - 1];
      PolledExtends(s, front, k);
      assert front[..k] == rows[..k];
    } else {
      assert rows[..k] == rows;
    }
  }

  // ---------------------------------------------------------------------------
  // The generator
  // ---------------------------------------------------------------------------

  class TaskEventGenerator {
    var lastSeen: Time
    var seenIds: set<Id>
    var seenQueue: seq<Id>
    ghost var emitted: seq<Event>

    ghost function State(): Stream
      reads this
    {
      Stream(lastSeen, seenIds, seenQueue, emitted)
    }

    constructor (since: Time)
      ensures State() == Opened(since)
    {
      lastSeen, seenIds, seenQueue, emitted := since, {}, [], [];
    }

    /** One poll: what it yields, in order. */
    method Poll(rows: seq<Event>) returns (yielded: seq<Event>)
      modifies this
      ensures State() == Polled(old(State()), rows)
      ensures emitted == old(emitted) + yielded
    {
      yielded := [];
      var i := 0;
      while i < |rows|
        invariant 0 <= i <= |rows|
        invariant State() == Polled(old(State()), rows[..i])
        invariant emitted == old(emitted) + yielded
      {
        var event := rows[i];
        ghost var before := State();
        assert rows[..i + 1][..i] == rows[..i] && rows[..i + 1][i] == event;
        i := i + 1;
        if event.id in seenIds {
          continue;
        }
        seenIds := seenIds + {event.id};
        seenQueue := seenQueue + [event.id];
        if |seenQueue| > SEEN_MAX {
          var oldest := seenQueue[0];
          seenQueue := seenQueue[1..];
          seenIds := seenIds - {oldest};
        }
        lastSeen := Later(event.stamp, lastSeen);
        yielded := yielded + [event];
        emitted := emitted + [event];
        assert State() == Seen(before, event);
      }
      assert rows[..i] == rows;
    }
  }
}
