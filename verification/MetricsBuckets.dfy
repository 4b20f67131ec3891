/** Time buckets of the dashboard series. Models `_bucket_start`, `_next_bucket`, `_build_buckets` and
    `_series_from_mapping` of backend/app/api/metrics.py; the database truncates times in the same way. */
module MetricsBuckets {
  import opened Calendar

  datatype Bucket = Hourly | Daily | Weekly | Monthly

  /** `_bucket_start`. */
  function BucketStart(t: Instant, bucket: Bucket): Instant {
    match bucket
    case Hourly => t.(micros := t.micros - t.micros % 3_600_000_000)
    case Daily => DateTime(t.date, 0)
    case Weekly => DateTime(MinusDays(t.date, Weekday(t.date)), 0)
    case Monthly => DateTime(t.date.(day := 1), 0)
  }

  /** `_next_bucket`. */
  function NextBucket(t: Instant, bucket: Bucket): Instant {
    match bucket
    case Hourly =>
      if t.micros + 3_600_000_000 < 86_400_000_000 then t.(micros := t.micros + 3_600_000_000)
      else DateTime(NextDay(t.date), t.micros + 3_600_000_000 - 86_400_000_000)
    case Daily => t.(date := NextDay(t.date))
    case Weekly => t.(date := PlusDays(t.date, 7))
    case Monthly => t.(date := NextMonth(t.date))
  }

  predicate Aligned(t: Instant, bucket: Bucket) { BucketStart(t, bucket) == t }

  /** t lies in the bucket that starts at `start`. */
  predicate InBucket(t: Instant, start: Instant, bucket: Bucket) {
    Key(start) <= Key(t) < Key(NextBucket(start, bucket))
  }

  /** How far an instant is into its bucket. */
  function Offset(t: Instant, bucket: Bucket): int {
    match bucket
    case Hourly => t.micros % 3_600_000_000
    case Daily => t.micros
    case Weekly => Weekday(t.date) * 86_400_000_000 + t.micros
    case Monthly => (t.date.day - 1) * 86_400_000_000 + t.micros
  }

  /** How far it is from a boundary to the next. */
  function Length(t: Instant, bucket: Bucket): int {
    match bucket
    case Hourly => 3_600_000_000
    case Daily => 86_400_000_000
    case Weekly => 7 * 86_400_000_000
    case Monthly => (DaysIn(t.date.year, t.date.month) - t.date.day + 1) * 86_400_000_000
  }

  lemma {:induction false} WeekStart(d: Day)
    ensures Ordinal(MinusDays(d, Weekday(d))) == Ordinal(d) - Weekday(d)
    ensures Weekday(MinusDays(d, Weekday(d))) == 0
  {
    OrdinalPositive(d);
    Mondays(Ordinal(d));
    MinusDaysOrdinal(d, Weekday(d));
  }

  /** The Monday before a day, and the same weekday a week later. */
  lemma {:induction false} Mondays(o: int)
    requires o >= 1
    ensures (o + 6) % 7 < o && (o - (o + 6) % 7 + 6) % 7 == 0 && (o + 7 + 6) % 7 == (o + 6) % 7
  {
    assert o <= 7 ==> (o + 6) % 7 == o - 1;
  }

  lemma {:induction false} StartKey(t: Instant, bucket: Bucket)
    ensures Key(BucketStart(t, bucket)) == Key(t) - Offset(t, bucket)
  {
    match bucket
    case Weekly => WeekStart(t.date);
    case _ =>
  }

  lemma {:induction false} NextKey(t: Instant, bucket: Bucket)
    ensures Key(NextBucket(t, bucket)) == Key(t) + Length(t, bucket)
  {
    match bucket
    case Hourly => NextDayOrdinal(t.date);
    case Daily => NextDayOrdinal(t.date);
    case Weekly => PlusDaysOrdinal(t.date, 7);
    case Monthly => NextMonthOrdinal(t.date);
  }

  /** The boundary of an instant: the full hour, midnight, midnight of the Monday not after it, midnight of the
      first. */
  lemma {:induction false} BucketStartMeans(t: Instant, bucket: Bucket)
    ensures var start := BucketStart(t, bucket);
      match bucket
      case Hourly =>
        && start.date == t.date && start.micros % 3_600_000_000 == 0
        && start.micros <= t.micros < start.micros + 3_600_000_000
      case Daily => start.date == t.date && start.micros == 0
      case Weekly =>
        && start.micros == 0 && Weekday(start.date) == 0
        && Ordinal(start.date) <= Ordinal(t.date) < Ordinal(start.date) + 7
      case Monthly =>
        start.micros == 0 && start.date.day == 1 && start.date.month == t.date.month && start.date.year == t.date.year
  {
    match bucket
    case Weekly => WeekStart(t.date);
    case _ =>
  }

  /** Each bucket boundary is at or before the instant, and the next one is after it. */
  lemma {:induction false} StartBeforeNext(t: Instant, bucket: Bucket)
    ensures InBucket(t, BucketStart(t, bucket), bucket)
  {
    StartKey(t, bucket);
    NextKey(BucketStart(t, bucket), bucket);
  }

  /** The boundaries are the instants that are not into their bucket. */
  lemma {:induction false} AlignedExactly(t: Instant, bucket: Bucket)
    ensures Aligned(t, bucket) <==> Offset(t, bucket) == 0
  {
    StartKey(t, bucket);
    KeyExact(BucketStart(t, bucket), t);
  }

  lemma {:induction false} StartIsAligned(t: Instant, bucket: Bucket)
    ensures Aligned(BucketStart(t, bucket), bucket) && Offset(BucketStart(t, bucket), bucket) == 0
  {
    match bucket {
      case Weekly => WeekStart(t.date);
      case _ =>
    }
    AlignedExactly(BucketStart(t, bucket), bucket);
  }

  lemma {:induction false} NextIsLater(t: Instant, bucket: Bucket)
    ensures Before(t, NextBucket(t, bucket))
  {
    NextKey(t, bucket);
    KeyExact(t, NextBucket(t, bucket));
  }

  lemma {:induction false} NextOffset(t: Instant, bucket: Bucket)
    requires Offset(t, bucket) == 0
    ensures Offset(NextBucket(t, bucket), bucket) == 0
  {
    hide Ordinal, PlusDays, NextDay, NextMonth;
    match bucket
    case Weekly =>
      OrdinalPositive(t.date);
      PlusDaysOrdinal(t.date, 7);
      Mondays(Ordinal(t.date));
    case _ =>
  }

  lemma {:induction false} NextIsAligned(t: Instant, bucket: Bucket)
    requires Aligned(t, bucket)
    ensures Aligned(NextBucket(t, bucket), bucket)
  {
    AlignedExactly(t, bucket);
    NextOffset(t, bucket);
    AlignedExactly(NextBucket(t, bucket), bucket);
  }

  lemma {:induction false} HoursApart(a: Instant, b: Instant)
    requires Offset(a, Hourly) == 0 && Offset(b, Hourly) == 0 && Key(a) < Key(b)
    ensures Key(a) + 3_600_000_000 <= Key(b)
  {
    var hours := Ordinal(a.date) * 24 + a.micros / 3_600_000_000;
    assert Key(a) == hours * 3_600_000_000;
  }

  lemma {:induction false} WeeksApart(a: Day, b: Day)
    requires Weekday(a) == 0 && Weekday(b) == 0 && Ordinal(a) < Ordinal(b)
    ensures Ordinal(a) + 7 <= Ordinal(b)
  {
  }

  lemma {:induction false} MonthsApart(a: Day, b: Day)
    requires a.day == 1 && b.day == 1 && Ordinal(a) < Ordinal(b)
    ensures Ordinal(NextMonth(a)) <= Ordinal(b)
  {
    OrdinalExact(a, b);
    OrdinalExact(b, NextMonth(a));
  }

  /** There is no boundary between a boundary and the next. */
  lemma {:induction false} NoneBetween(a: Instant, b: Instant, bucket: Bucket)
    requires Offset(a, bucket) == 0 && Offset(b, bucket) == 0 && Key(a) < Key(b)
    ensures Key(NextBucket(a, bucket)) <= Key(b)
  {
    NextKey(a, bucket);
    match bucket
    case Hourly => HoursApart(a, b);
    case Daily =>
    case Weekly => WeeksApart(a.date, b.date);
    case Monthly => MonthsApart(a.date, b.date);
  }

  /** An instant truncates to the boundary of the bucket it lies in, and to no other. */
  lemma {:induction false} BucketIsUnique(t: Instant, start: Instant, bucket: Bucket)
    requires Aligned(start, bucket)
    ensures BucketStart(t, bucket) == start <==> InBucket(t, start, bucket)
  {
    var own := BucketStart(t, bucket);
    StartBeforeNext(t, bucket);
    StartIsAligned(t, bucket);
    AlignedExactly(start, bucket);
    KeyExact(own, start);
    if Key(own) < Key(start) {
      NoneBetween(own, start, bucket);
    } else if Key(start) < Key(own) {
      NoneBetween(start, own, bucket);
    }
  }

  // ---------------------------------------------------------------------------
  // The buckets of a range
  // ---------------------------------------------------------------------------

  predicate NotAfter(a: Instant, b: Instant) { a == b || Before(a, b) }

  /** The boundaries from `cursor` to `end`. */
  function BucketsFrom(cursor: Instant, end: Instant, bucket: Bucket): seq<Instant>
    requires Aligned(cursor, bucket)
    decreases Key(end) - Key(cursor)
  {
    if !NotAfter(cursor, end) then []
    else
      NextIsAligned(cursor, bucket);
      NextIsLater(cursor, bucket);
      KeyExact(cursor, NextBucket(cursor, bucket));
      KeyExact(cursor, end);
      [cursor] + BucketsFrom(NextBucket(cursor, bucket), end, bucket)
  }

  /** `_build_buckets`. */
  method BuildBuckets(start: Instant, end: Instant, bucket: Bucket) returns (buckets: seq<Instant>)
    ensures buckets == Buckets(start, end, bucket)
  {
    ghost var all := Buckets(start, end, bucket);
    var cursor := BucketStart(start, bucket);
    StartIsAligned(start, bucket);
    buckets := [];
    while NotAfter(cursor, end)
      invariant Aligned(cursor, bucket)
      invariant buckets + BucketsFrom(cursor, end, bucket) == all
      decreases Key(end) - Key(cursor)
    {
      CursorAdvances(buckets, cursor, end, bucket);
      buckets := buckets + [cursor];
      cursor := NextBucket(cursor, bucket);
    }
    assert buckets + [] == buckets;
  }

  lemma {:induction false} CursorAdvances(before: seq<Instant>, cursor: Instant, end: Instant, bucket: Bucket)
    requires Aligned(cursor, bucket) && NotAfter(cursor, end)
    ensures var next := NextBucket(cursor, bucket);
      && Aligned(next, bucket) && Key(cursor) < Key(next) && Key(cursor) <= Key(end)
      && before + BucketsFrom(cursor, end, bucket) == before + [cursor] + BucketsFrom(next, end, bucket)
  {
    var next := NextBucket(cursor, bucket);
    NextIsAligned(cursor, bucket);
    NextIsLater(cursor, bucket);
    KeyExact(cursor, next);
    KeyExact(cursor, end);
    assert before + ([cursor] + BucketsFrom(next, end, bucket)) == before + [cursor] + BucketsFrom(next, end, bucket);
  }

  function Buckets(start: Instant, end: Instant, bucket: Bucket): seq<Instant> {
    StartIsAligned(start, bucket);
    BucketsFrom(BucketStart(start, bucket), end, bucket)
  }

  /** The boundaries follow each other without a gap, the first is `cursor`, and the one after the last is beyond the
      end. */
  ghost predicate NoGaps(buckets: seq<Instant>, cursor: Instant, end: Instant, bucket: Bucket) {
    && (forall i :: 0 <= i < |buckets| ==> Aligned(buckets[i], bucket) && NotAfter(buckets[i], end))
    && (forall i :: 0 < i < |buckets| ==> buckets[i] == NextBucket(buckets[i - 1], bucket))
    && (buckets == [] ==> Before(end, cursor))
    && (buckets != [] ==> buckets[0] == cursor && Before(end, NextBucket(buckets[|buckets| - 1], bucket)))
  }

  lemma {:induction false} NotAfterExact(a: Instant, b: Instant)
    ensures NotAfter(a, b) <==> Key(a) <= Key(b)
    ensures NotAfter(a, b) <==> !Before(b, a)
  {
    KeyExact(a, b);
    KeyExact(b, a);
  }

  lemma {:induction false} BucketsFromNoGaps(cursor: Instant, end: Instant, bucket: Bucket)
    requires Aligned(cursor, bucket)
    ensures NoGaps(BucketsFrom(cursor, end, bucket), cursor, end, bucket)
    decreases Key(end) - Key(cursor)
  {
    NotAfterExact(cursor, end);
    if NotAfter(cursor, end) {
      var next := NextBucket(cursor, bucket);
      NextIsAligned(cursor, bucket);
      NextIsLater(cursor, bucket);
      KeyExact(cursor, next);
      BucketsFromNoGaps(next, end, bucket);
      var rest := BucketsFrom(next, end, bucket);
      assert BucketsFrom(cursor, end, bucket) == [cursor] + rest;
    }
  }

  /** Main result: aligned boundaries without gaps, in increasing order, from the bucket of the start to that of the
      end. */
  lemma {:induction false} BucketsNoGaps(start: Instant, end: Instant, bucket: Bucket)
    ensures var buckets := Buckets(start, end, bucket);
      && NoGaps(buckets, BucketStart(start, bucket), end, bucket)
      && (forall i, j :: 0 <= i < j < |buckets| ==> Before(buckets[i], buckets[j]))
  {
    StartIsAligned(start, bucket);
    BucketsFromNoGaps(BucketStart(start, bucket), end, bucket);
    var buckets := Buckets(start, end, bucket);
    forall i, j | 0 <= i < j < |buckets| ensures Before(buckets[i], buckets[j]) {
      Increasing(buckets, BucketStart(start, bucket), end, bucket, i, j);
    }
  }

  lemma {:induction false} Increasing(buckets: seq<Instant>, cursor: Instant, end: Instant, bucket: Bucket,
    i: nat, j: nat)
    requires NoGaps(buckets, cursor, end, bucket) && i < j < |buckets|
    ensures Before(buckets[i], buckets[j])
    decreases j - i
  {
    NextIsLater(buckets[j - 1], bucket);
    if i < j - 1 {
      Increasing(buckets, cursor, end, bucket, i, j - 1);
      KeyExact(buckets[i], buckets[j - 1]);
      KeyExact(buckets[j - 1], buckets[j]);
      KeyExact(buckets[i], buckets[j]);
    }
  }

  /** Main result: every instant of the range truncates to exactly one of the boundaries. */
  lemma {:induction false} EveryInstantHasABucket(start: Instant, end: Instant, bucket: Bucket, t: Instant)
    requires NotAfter(start, t) && NotAfter(t, end)
    ensures var buckets := Buckets(start, end, bucket);
      && BucketStart(t, bucket) in buckets
      && forall i, j :: 0 <= i < |buckets| && 0 <= j < |buckets| && buckets[i] == buckets[j] ==> i == j
  {
    var buckets := Buckets(start, end, bucket);
    BucketsNoGaps(start, end, bucket);
    forall i, j | 0 <= i < j < |buckets| ensures buckets[i] != buckets[j] {
      KeyExact(buckets[i], buckets[j]);
    }
    StartIsAligned(start, bucket);
    StartBeforeNext(start, bucket);
    NotAfterExact(start, t);
    FoundFrom(BucketStart(start, bucket), end, bucket, t);
  }

  lemma {:induction false} FoundFrom(cursor: Instant, end: Instant, bucket: Bucket, t: Instant)
    requires Aligned(cursor, bucket) && Key(cursor) <= Key(t) && NotAfter(t, end)
    ensures BucketStart(t, bucket) in BucketsFrom(cursor, end, bucket)
    decreases Key(end) - Key(cursor)
  {
    NotAfterExact(cursor, end);
    NotAfterExact(t, end);
    var next := NextBucket(cursor, bucket);
    if Key(t) < Key(next) {
      BucketIsUnique(t, cursor, bucket);
    } else {
      NextIsAligned(cursor, bucket);
      NextIsLater(cursor, bucket);
      KeyExact(cursor, next);
      FoundFrom(next, end, bucket, t);
    }
  }

  // ---------------------------------------------------------------------------
  // A series
  // ---------------------------------------------------------------------------

  /** How many of the events truncate to each boundary: the grouped count of the query. */
  function Counts(events: seq<Instant>, bucket: Bucket): map<Instant, nat> {
    if events == [] then map[]
    else
      var rest, key := Counts(events[1..], bucket), BucketStart(events[0], bucket);
      rest[key := 1 + if key in rest then rest[key] else 0]
  }

  function ValueAt(mapping: map<Instant, nat>, key: Instant): nat { if key in mapping then mapping[key] else 0 }

  /** `_series_from_mapping`. */
  function Series(buckets: seq<Instant>, mapping: map<Instant, nat>): (values: seq<nat>)
    ensures |values| == |buckets| && forall i :: 0 <= i < |buckets| ==> values[i] == ValueAt(mapping, buckets[i])
  {
    seq(|buckets|, i requires 0 <= i < |buckets| => ValueAt(mapping, buckets[i]))
  }

  function Total(buckets: seq<Instant>, mapping: map<Instant, nat>): nat {
    if buckets == [] then 0 else ValueAt(mapping, buckets[0]) + Total(buckets[1..], mapping)
  }

  function Sum(values: seq<nat>): nat {
    if values == [] then 0 else values[0] + Sum(values[1..])
  }

  lemma {:induction false} SumOfSeries(buckets: seq<Instant>, mapping: map<Instant, nat>)
    ensures Sum(Series(buckets, mapping)) == Total(buckets, mapping)
  {
    if buckets != [] {
      assert Series(buckets, mapping)[1..] == Series(buckets[1..], mapping);
      SumOfSeries(buckets[1..], mapping);
    }
  }

  lemma {:induction false} TotalOfNothing(buckets: seq<Instant>)
    ensures Total(buckets, map[]) == 0
  {
    if buckets != [] {
      TotalOfNothing(buckets[1..]);
    }
  }

  /** One more at a key that occurs once is one more in all. */
  lemma {:induction false} TotalGrows(buckets: seq<Instant>, mapping: map<Instant, nat>, key: Instant)
    requires forall i, j :: 0 <= i < |buckets| && 0 <= j < |buckets| && buckets[i] == buckets[j] ==> i == j
    ensures Total(buckets, mapping[key := 1 + ValueAt(mapping, key)]) ==
      Total(buckets, mapping) + if key in buckets then 1 else 0
  {
    if buckets != [] {
      var rest := buckets[1..];
      assert forall i, j :: 0 <= i < |rest| && 0 <= j < |rest| && rest[i] == rest[j] ==>
        buckets[i + 1] == buckets[j + 1];
      TotalGrows(rest, mapping, key);
      assert buckets == [buckets[0]] + rest;
    }
  }

  /** Main result: the values of the series add up to the number of events in the range. */
  lemma {:induction false} SeriesCountsEveryEvent(start: Instant, end: Instant, bucket: Bucket, events: seq<Instant>)
    requires forall e | e in events :: NotAfter(start, e) && NotAfter(e, end)
    ensures Sum(Series(Buckets(start, end, bucket), Counts(events, bucket))) == |events|
  {
    SumOfSeries(Buckets(start, end, bucket), Counts(events, bucket));
    TotalIsCount(start, end, bucket, events);
  }

  lemma {:induction false} TotalIsCount(start: Instant, end: Instant, bucket: Bucket, events: seq<Instant>)
    requires forall e | e in events :: NotAfter(start, e) && NotAfter(e, end)
    ensures Total(Buckets(start, end, bucket), Counts(events, bucket)) == |events|
  {
    var buckets := Buckets(start, end, bucket);
    if events == [] {
      TotalOfNothing(buckets);
    } else {
      TotalIsCount(start, end, bucket, events[1..]);
      EveryInstantHasABucket(start, end, bucket, events[0]);
      TotalGrows(buckets, Counts(events[1..], bucket), BucketStart(events[0], bucket));
    }
  }
}
