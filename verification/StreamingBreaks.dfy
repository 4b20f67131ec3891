/** A text is read the same in every cut exactly if it has no break: where white space or a number is long enough for
    the ends of chunks to fall into it, and only there, a cut makes the reader fail. */
module StreamingBreaks {
  import opened Models
  import opened Json
  import opened JsonPrefix
  import opened SkillsIndex
  import opened StreamingJson
  import opened StreamingCuts

  // ---------------------------------------------------------------------------
  // Where a text can be broken
  // ---------------------------------------------------------------------------

  /** Cuts in the first white space of two or more before a comma or the closing bracket of the array. */
  function ArrayBreak(s: string, p: nat): seq<int>
    requires p <= |s|
    decreases |s| - p
  {
    var q := SkipSpace(s, p);
    if q == |s| then []
    else if (s[q] == ']' || s[q] == ',') && q - p >= 2 then [p, p + 1]
    else if s[q] == ']' then []
    else if s[q] == ',' then ArrayBreak(s, q + 1)
    else match ParseValue(s, q)
      case Invalid => []
      case Parsed(v, end) => if v.Object? then ArrayBreak(s, end) else []
  }

  /** Behind a key, its closing quote at end - 1: three or more before the colon. */
  function ColonBreak(s: string, end: nat): seq<int>
    requires end <= |s|
  {
    var k := SkipSpace(s, end);
    if k < |s| && k - end >= 3 then [end, end + 1, end + 2] else []
  }

  /** In the value at v: behind the first digit of a number that goes on. */
  function NumberBreak(s: string, v: nat): seq<int>
    requires v <= |s| && ParseValue(s, v).Parsed?
  {
    if StartsNumber(s[v]) && Enough(s, v) < ParseValue(s, v).end then [Enough(s, v)] else []
  }

  /** Two or more before the closing brace, or a break in the member that starts here. */
  function ObjectBreak(s: string, p: nat): seq<int>
    requires p <= |s|
    decreases |s| - p, 0
  {
    var q := SkipSpace(s, p);
    if q == |s| then []
    else if s[q] == '}' then (if q - p >= 2 then [p, p + 1] else [])
    else match KeyAt(s, q)
      case Invalid => []
      case Parsed(key, k) =>
        var end := ParseValue(s, q).end;
        if ColonBreak(s, end) != [] then ColonBreak(s, end)
        else if key == SKILLS then SkillsBreak(s, k)
        else OtherBreak(s, k)
  }

  function OtherBreak(s: string, p: nat): seq<int>
    requires p <= |s|
    decreases |s| - p, 0
  {
    var v := SkipSpace(s, p);
    match ParseValue(s, v)
    case Invalid => []
    case Parsed(_, end) => if NumberBreak(s, v) != [] then NumberBreak(s, v) else AfterBreak(s, end)
  }

  /** Two or more before a comma, four or more before the closing brace: behind a failed look-ahead the reader tries
      for a key, and that look-ahead may still reach the brace. */
  function AfterBreak(s: string, p: nat): seq<int>
    requires p <= |s|
    decreases |s| - p, 1
  {
    var q := SkipSpace(s, p);
    if Is(s, q, ',') then (if q - p >= 2 then [p, p + 1] else ObjectBreak(s, q + 1))
    else if Is(s, q, '}') then (if q - p >= 4 then [p, p + 1, p + 2, p + 3] else [])
    else ObjectBreak(s, q)
  }

  /** A `skills` array that starts behind two or more can be taken for another value. Then nothing may follow it that
      the reader would not accept behind such a value. */
  function SkillsBreak(s: string, p: nat): seq<int>
    requires p <= |s|
    decreases |s| - p, 0
  {
    var v := SkipSpace(s, p);
    if !Is(s, v, '[') then
      match ParseValue(s, v)
      case Invalid => []
      case Parsed(_, end) => if NumberBreak(s, v) != [] then NumberBreak(s, v) else ObjectBreak(s, end)
    else if ArrayBreak(s, v + 1) != [] then ArrayBreak(s, v + 1)
    else if !ArrayValues(s, v + 1).Found? then []
    else
      var end := ArrayValues(s, v + 1).end;
      if AfterBreak(s, end) != [] then AfterBreak(s, end)
      else if v - p < 2 then []
      else if ParseValue(s, v).Invalid? || Is(s, SkipSpace(s, end), ',') then [p, p + 1]
      else if Is(s, SkipSpace(s, end), '}') && SkipSpace(s, end) - end >= 2 then [p, p + 1, end, end + 1]
      else []
  }

  /** Three or more before the text begins, or a break in what follows. */
  function TopBreak(s: string): seq<int>
  {
    var q := SkipSpace(s, 0);
    if q < |s| && q >= 3 then [1, 2]
    else if Is(s, q, '[') then ArrayBreak(s, q + 1)
    else if Is(s, q, '{') then ObjectBreak(s, q + 1)
    else []
  }

  // ---------------------------------------------------------------------------
  // The numbers of a text
  // ---------------------------------------------------------------------------

  /** Where the values of members are numbers. */
  function ObjectNumbers(s: string, p: nat): set<nat>
    requires p <= |s|
    decreases |s| - p, 0
  {
    var q := SkipSpace(s, p);
    if Is(s, q, '}') then {}
    else match KeyAt(s, q)
      case Invalid => {}
      case Parsed(key, k) => if key == SKILLS then SkillsNumbers(s, k) else OtherNumbers(s, k)
  }

  function OtherNumbers(s: string, p: nat): set<nat>
    requires p <= |s|
    decreases |s| - p, 0
  {
    var v := SkipSpace(s, p);
    match ParseValue(s, v)
    case Invalid => {}
    case Parsed(_, end) => (if StartsNumber(s[v]) then {v} else {}) + AfterNumbers(s, end)
  }

  function AfterNumbers(s: string, p: nat): set<nat>
    requires p <= |s|
    decreases |s| - p, 1
  {
    var q := SkipSpace(s, p);
    if Is(s, q, ',') then ObjectNumbers(s, q + 1) else ObjectNumbers(s, q)
  }

  function SkillsNumbers(s: string, p: nat): set<nat>
    requires p <= |s|
    decreases |s| - p, 0
  {
    var v := SkipSpace(s, p);
    if Is(s, v, '[') then
      match ArrayValues(s, v + 1)
      case Found(_, end) => AfterNumbers(s, end)
      case _ => {}
    else
      match ParseValue(s, v)
      case Invalid => {}
      case Parsed(_, end) => (if StartsNumber(s[v]) then {v} else {}) + ObjectNumbers(s, end)
  }

  function TopNumbers(s: string): set<nat> {
    var q := SkipSpace(s, 0);
    if Is(s, q, '{') then ObjectNumbers(s, q + 1) else {}
  }

  /** No chunk ends in a number behind its first digit. */
  predicate Whole(f: File, v: nat) {
    v <= |f.text| && ParseValue(f.text, v).Parsed? ==>
      forall k: nat | k < |f.ends| :: Enough(f.text, v) <= f.ends[k] ==> ParseValue(f.text, v).end <= f.ends[k]
  }

  predicate Kept(f: File, numbers: set<nat>) {
    forall v | v in numbers :: Whole(f, v)
  }

  // ---------------------------------------------------------------------------
  // Where the reads suffice: in every cut of a text without a break, and in good cuts that keep the numbers whole
  // ---------------------------------------------------------------------------

  /** Nothing in a part of the text with these numbers and these breaks stops the reader. */
  predicate Clear(f: File, good: bool, numbers: set<nat>, places: seq<int>) {
    if good then GoodCut(f) && Kept(f, numbers) else places == []
  }

  lemma {:induction false} LoadedAtLeast(f: File, k: nat, m: nat)
    ensures Loaded(f, k + m) == |f.text| || Loaded(f, k + m) >= Loaded(f, k) + m
  {
    if m > 0 {
      LoadedAtLeast(f, k, m - 1);
      if k + m - 1 < |f.ends| {
        LoadedGrows(f, k + m - 1);
      }
    }
  }

  lemma {:induction false} SkippedOk(f: File, k: nat, q: nat, n: nat)
    requires k <= |f.ends| && q < |f.text| && n > 0 && q <= Loaded(f, k + n - 1)
    ensures Ok(f, Reader(q + 1, Skipped(f, k, q, n)))
    decreases n
  {
    if q >= Loaded(f, k) {
      LoadedGrows(f, k);
      if n > 1 {
        SkippedOk(f, k + 1, q, n - 1);
      }
    }
  }

  /** n skips get over fewer than n characters, and in a good cut two get over any gap. */
  lemma {:induction false} GapPassed(f: File, r: Reader, n: nat, good: bool)
    requires Ok(f, r) && Next(f, r) < |f.text| && n >= 2
    requires if good then GoodCut(f) else Next(f, r) - r.position < n
    ensures Gap(f, r.fetched, Next(f, r), n) == Some(Skipped(f, r.fetched, Next(f, r), n))
    ensures Ok(f, Reader(Next(f, r) + 1, Skipped(f, r.fetched, Next(f, r), n)))
  {
    LoadedAtLeast(f, r.fetched, n - 1);
    if good {
      GoodCutHasNoBlankRun(f, r);
      LoadedAtLeast(f, r.fetched + 1, n - 2);
    }
    SkippedOk(f, r.fetched, Next(f, r), n);
  }

  lemma {:induction false} UntilThere(f: File, k: nat, n: nat)
    requires n <= |f.text|
    ensures n <= Loaded(f, Until(f, k, n))
    decreases |f.ends| - k
  {
    if n > Loaded(f, k) {
      UntilThere(f, k + 1, n);
    }
  }

  /** A value that no chunk end cuts behind its first digit is decoded as a whole. */
  lemma {:induction false} ValuePassed(f: File, r: Reader, good: bool)
    requires Ok(f, r) && ParseValue(f.text, Next(f, r)).Parsed?
    requires if good then StartsNumber(f.text[Next(f, r)]) ==> Whole(f, Next(f, r))
      else NumberBreak(f.text, Next(f, r)) == []
    ensures ValueReads(f, r.fetched, Next(f, r)).Some?
    ensures Ok(f, Reader(ParseValue(f.text, Next(f, r)).end, ValueReads(f, r.fetched, Next(f, r)).value))
  {
    hide ParseValue, Decode;
    var q := Next(f, r);
    EnoughWithin(f.text, q);
    var n := Until(f, DecodeStart(f, r.fetched, q), Enough(f.text, q));
    UntilThere(f, DecodeStart(f, r.fetched, q), Enough(f.text, q));
    if good && StartsNumber(f.text[q]) {
      assert f.ends[if n < |f.ends| then n else |f.ends| - 1] == Loaded(f, n);
    }
    DecodeIs(f, r);
  }

  lemma {:induction false} ArrayPassed(f: File, r: Reader, good: bool)
    requires Ok(f, r) && ArrayValues(f.text, r.position).Found?
    requires if good then GoodCut(f) else ArrayBreak(f.text, r.position) == []
    ensures ArrayReads(f, r.position, r.fetched).Some?
    ensures Ok(f, Reader(ArrayValues(f.text, r.position).end, ArrayReads(f, r.position, r.fetched).value))
    decreases |f.text| - r.position
  {
    hide ParseValue, LookAhead, Gap, Skipped, ValueReads;
    var q := Next(f, r);
    if f.text[q] == ']' || f.text[q] == ',' {
      GapPassed(f, r, 2, good);
      if f.text[q] == ',' {
        ArrayPassed(f, Reader(q + 1, Skipped(f, r.fetched, q, 2)), good);
      }
    } else {
      LookAheadIs(f, r);
      ValueKind(f.text, q);
      ValuePassed(f, LookAhead(f, r), good);
      var Some(n) := ValueReads(f, Skipped(f, r.fetched, q, 2), q);
      ArrayPassed(f, Reader(ParseValue(f.text, q).end, n), good);
    }
  }

  /** White space before a key does not matter. */
  lemma {:induction false} SameBreak(s: string, p: nat, q: nat)
    requires p <= |s| && q == SkipSpace(s, p) && !Is(s, q, '}')
    ensures ObjectBreak(s, p) == ObjectBreak(s, q) && ObjectNumbers(s, p) == ObjectNumbers(s, q)
  {
  }

  lemma {:induction false} ObjectPassed(f: File, r: Reader, good: bool)
    requires Ok(f, r) && ObjectEntries(f.text, r.position).Found?
    requires Clear(f, good, ObjectNumbers(f.text, r.position), ObjectBreak(f.text, r.position))
    ensures ObjectReads(f, r.position, r.fetched).Some?
    decreases |f.text| - Next(f, r), 1
  {
    hide ParseValue, LookAhead, Gap, Skipped, KeyAt, MemberReads;
    var q := Next(f, r);
    if f.text[q] == '}' {
      GapPassed(f, r, 2, good);
    } else {
      LookAheadIs(f, r);
      SameMember(f.text, r.position, q);
      SameBreak(f.text, r.position, q);
      MemberPassed(f, LookAhead(f, r), good);
    }
  }

  lemma {:induction false} MemberPassed(f: File, a: Reader, good: bool)
    requires Ok(f, a) && ObjectEntries(f.text, Next(f, a)).Found? && !Is(f.text, Next(f, a), '}')
    requires Clear(f, good, ObjectNumbers(f.text, Next(f, a)), ObjectBreak(f.text, Next(f, a)))
    ensures MemberReads(f, Next(f, a), a.fetched).Some?
    decreases |f.text| - Next(f, a), 0
  {
    hide ParseValue, Gap, Skipped, ValueReads, SkillsReads, OtherReads, SkillsValue, OtherValue,
      SkillsBreak, OtherBreak, SkillsNumbers, OtherNumbers;
    var q := Next(f, a);
    SkipSpaceStays(f.text, q);
    var Parsed(key, p) := KeyAt(f.text, q);
    ValueKind(f.text, q);
    ValuePassed(f, a, good);
    var r := Reader(ParseValue(f.text, q).end, ValueReads(f, a.fetched, q).value);
    GapPassed(f, r, 3, good);
    var b := Reader(p, Skipped(f, r.fetched, Next(f, r), 3));
    if key == SKILLS {
      SkillsPassed(f, b, good);
    } else {
      OtherPassed(f, b, good);
    }
  }

  lemma {:induction false} OtherPassed(f: File, r: Reader, good: bool)
    requires Ok(f, r) && OtherValue(f.text, r.position).Found?
    requires Clear(f, good, OtherNumbers(f.text, r.position), OtherBreak(f.text, r.position))
    ensures OtherReads(f, r.position, r.fetched).Some?
    decreases |f.text| - r.position, 2
  {
    hide ParseValue, ValueReads, AfterReads, AfterValue, AfterBreak, AfterNumbers;
    var v := Next(f, r);
    ValuePassed(f, r, good);
    AfterPassed(f, Reader(ParseValue(f.text, v).end, ValueReads(f, r.fetched, v).value), good);
  }

  lemma {:induction false} AfterPassed(f: File, r: Reader, good: bool)
    requires Ok(f, r) && AfterValue(f.text, r.position).Found?
    requires Clear(f, good, AfterNumbers(f.text, r.position), AfterBreak(f.text, r.position))
    ensures AfterReads(f, r.position, r.fetched).Some?
    decreases |f.text| - Next(f, r), 2
  {
    hide LookAhead, Gap, Skipped, ObjectReads, MemberReads, ObjectBreak, ObjectNumbers, ObjectEntries;
    var q := Next(f, r);
    NotAtEnd(f.text, q);
    if f.text[q] == ',' {
      GapPassed(f, r, 2, good);
      ObjectPassed(f, Reader(q + 1, Skipped(f, r.fetched, q, 2)), good);
    } else if f.text[q] == '}' {
      GapPassed(f, r, 4, good);
    } else {
      LookAheadIs(f, r);
      LookAheadIs(f, LookAhead(f, r));
      SkippedMore(f, r.fetched, q);
      MemberPassed(f, LookAhead(f, LookAhead(f, r)), good);
    }
  }

  lemma {:induction false} NotAtEnd(s: string, q: nat)
    requires q <= |s|
    ensures ObjectEntries(s, |s|).Malformed?
  {
  }

  lemma {:induction false} SkillsPassed(f: File, r: Reader, good: bool)
    requires Ok(f, r) && SkillsValue(f.text, r.position).Found?
    requires Clear(f, good, SkillsNumbers(f.text, r.position), SkillsBreak(f.text, r.position))
    ensures SkillsReads(f, r.position, r.fetched).Some?
    decreases |f.text| - r.position, 2
  {
    hide ParseValue, LookAhead, Gap, Skipped, ValueReads, ArrayReads, AfterReads, ObjectReads, ArrayValues, AfterValue,
      ObjectEntries, ArrayBreak, AfterBreak, ObjectBreak, AfterNumbers, ObjectNumbers;
    var v := Next(f, r);
    if Is(f.text, v, '[') {
      SkillsArrayPassed(f, r, good);
    } else {
      LookAheadIs(f, r);
      ValuePassed(f, LookAhead(f, r), good);
      var Some(n) := ValueReads(f, Skipped(f, r.fetched, v, 2), v);
      ObjectPassed(f, Reader(ParseValue(f.text, v).end, n), good);
    }
  }

  lemma {:induction false} SkillsArrayPassed(f: File, r: Reader, good: bool)
    requires Ok(f, r) && SkillsValue(f.text, r.position).Found? && Is(f.text, Next(f, r), '[')
    requires Clear(f, good, SkillsNumbers(f.text, r.position), SkillsBreak(f.text, r.position))
    ensures SkillsReads(f, r.position, r.fetched).Some?
    decreases |f.text| - r.position, 1
  {
    hide ParseValue, LookAhead, Skipped, ValueReads, ArrayReads, AfterReads, ObjectReads, ArrayValues, AfterValue,
      ObjectEntries, ArrayBreak, AfterBreak, ObjectBreak, AfterNumbers, ObjectNumbers;
    var v := Next(f, r);
    if Gap(f, r.fetched, v, 2).Some? {
      SkippedOk(f, r.fetched, v, 2);
      var b := Reader(v + 1, Skipped(f, r.fetched, v, 2));
      ArrayPassed(f, b, good);
      AfterPassed(f, Reader(ArrayValues(f.text, v + 1).end, ArrayReads(f, v + 1, b.fetched).value), good);
    } else {
      if good || v - r.position < 2 {
        GapPassed(f, r, 2, good);
      }
      SkippedArrayPassed(f, r);
    }
  }

  lemma {:induction false} SkippedArrayPassed(f: File, r: Reader)
    requires Ok(f, r) && SkillsValue(f.text, r.position).Found? && Is(f.text, Next(f, r), '[')
    requires SkillsBreak(f.text, r.position) == [] && Next(f, r) - r.position >= 2
    requires Gap(f, r.fetched, Next(f, r), 2).None?
    ensures SkillsReads(f, r.position, r.fetched).Some?
    decreases |f.text| - r.position, 0
  {
    hide ParseValue, LookAhead, Skipped, ValueReads, ArrayReads, AfterReads, ObjectReads, ArrayValues, AfterValue,
      ObjectEntries, ArrayBreak, AfterBreak, ObjectBreak, AfterNumbers, ObjectNumbers;
    var v := Next(f, r);
    LookAheadIs(f, r);
    SkippedArrayBreaks(f.text, r.position);
    var end := ParseValue(f.text, v).end;
    EntriesBehind(f.text, end);
    ValuePassed(f, LookAhead(f, r), false);
    var Some(n) := ValueReads(f, Skipped(f, r.fetched, v, 2), v);
    ObjectPassed(f, Reader(end, n), false);
  }

  /** If a wide gap before the array is no break, the reader that takes it for another value reads on behind it. */
  lemma {:induction false} SkippedArrayBreaks(s: string, p: nat)
    requires p <= |s| && Is(s, SkipSpace(s, p), '[') && SkipSpace(s, p) - p >= 2
    requires SkillsBreak(s, p) == [] && SkillsValue(s, p).Found?
    ensures ParseValue(s, SkipSpace(s, p)).Parsed? && NumberBreak(s, SkipSpace(s, p)) == []
    ensures var end := ParseValue(s, SkipSpace(s, p)).end;
      ObjectBreak(s, end) == [] && !Is(s, SkipSpace(s, end), ',') && AfterValue(s, end).Found?
  {
    hide ObjectBreak, AfterBreak, ArrayBreak, AfterValue, ArrayValues;
    var v := SkipSpace(s, p);
    var end := ArrayValues(s, v + 1).end;
    assert ParseValue(s, v).Parsed? && AfterBreak(s, end) == [] && !Is(s, SkipSpace(s, end), ',');
    ValueKind(s, v);
    ArrayScan(s, v);
    NoBreakBehind(s, end);
  }

  lemma {:induction false} NoBreakBehind(s: string, end: nat)
    requires end <= |s| && AfterBreak(s, end) == [] && !Is(s, SkipSpace(s, end), ',')
    requires Is(s, SkipSpace(s, end), '}') ==> SkipSpace(s, end) - end < 2
    ensures ObjectBreak(s, end) == []
  {
    if !Is(s, SkipSpace(s, end), '}') {
      SameBreak(s, end, SkipSpace(s, end));
    }
  }

  lemma {:induction false} TopPassed(f: File, good: bool)
    requires TopLevel(f.text).Found?
    requires Clear(f, good, TopNumbers(f.text), TopBreak(f.text))
    ensures TopReads(f).Some?
  {
    hide ArrayReads, ObjectReads, ArrayValues, ObjectEntries, ArrayBreak, ObjectBreak, Gap, Skipped;
    var q := SkipSpace(f.text, 0);
    if q > 0 {
      SkipSpaceBetween(f.text, 0, 1);
      GapPassed(f, Reader(1, 1), 2, good);
    } else {
      GapPassed(f, Reader(0, 1), 2, good);
    }
    var b := Reader(q + 1, Skipped(f, 1, q, 2));
    if f.text[q] == '[' {
      ArrayPassed(f, b, good);
    } else {
      ObjectPassed(f, b, good);
    }
  }

  // ---------------------------------------------------------------------------
  // Where breaks lie
  // ---------------------------------------------------------------------------

  /** Places behind p at which a file can be cut. */
  ghost predicate Places(s: string, p: nat, places: seq<int>) {
    && |places| >= 1 && places[0] >= p && places[|places| - 1] < |s|
    && forall i, j :: 0 <= i < j < |places| ==> places[i] < places[j]
  }

  lemma {:induction false} ArrayBreakPlaces(s: string, p: nat)
    requires p <= |s| && ArrayBreak(s, p) != []
    ensures Places(s, p, ArrayBreak(s, p))
    decreases |s| - p
  {
    var q := SkipSpace(s, p);
    if (s[q] == ']' || s[q] == ',') && q - p >= 2 {
    } else if s[q] == ',' {
      ArrayBreakPlaces(s, q + 1);
    } else {
      ArrayBreakPlaces(s, ParseValue(s, q).end);
    }
  }

  lemma {:induction false} ObjectBreakPlaces(s: string, p: nat)
    requires p <= |s| && ObjectBreak(s, p) != []
    ensures Places(s, p, ObjectBreak(s, p))
    decreases |s| - p, 0
  {
    var q := SkipSpace(s, p);
    if s[q] != '}' {
      var Parsed(key, k) := KeyAt(s, q);
      if ColonBreak(s, ParseValue(s, q).end) == [] {
        if key == SKILLS {
          SkillsBreakPlaces(s, k);
        } else {
          OtherBreakPlaces(s, k);
        }
      }
    }
  }

  lemma {:induction false} OtherBreakPlaces(s: string, p: nat)
    requires p <= |s| && OtherBreak(s, p) != []
    ensures Places(s, p, OtherBreak(s, p))
    decreases |s| - p, 0
  {
    var v := SkipSpace(s, p);
    EnoughWithin(s, v);
    if NumberBreak(s, v) == [] {
      AfterBreakPlaces(s, ParseValue(s, v).end);
    }
  }

  lemma {:induction false} AfterBreakPlaces(s: string, p: nat)
    requires p <= |s| && AfterBreak(s, p) != []
    ensures Places(s, p, AfterBreak(s, p))
    decreases |s| - p, 1
  {
    hide ObjectBreak, ParseValue;
    var q := SkipSpace(s, p);
    if Is(s, q, ',') {
      if q - p < 2 {
        ObjectBreakPlaces(s, q + 1);
      }
    } else if !Is(s, q, '}') {
      ObjectBreakPlaces(s, q);
    }
  }

  lemma {:induction false} SkillsBreakPlaces(s: string, p: nat)
    requires p <= |s| && SkillsBreak(s, p) != []
    ensures Places(s, p, SkillsBreak(s, p))
    decreases |s| - p, 0
  {
    hide ObjectBreak, ArrayBreak, AfterBreak, ArrayValues;
    var v := SkipSpace(s, p);
    if !Is(s, v, '[') {
      EnoughWithin(s, v);
      if NumberBreak(s, v) == [] {
        ObjectBreakPlaces(s, ParseValue(s, v).end);
      }
    } else if ArrayBreak(s, v + 1) != [] {
      ArrayBreakPlaces(s, v + 1);
    } else if AfterBreak(s, ArrayValues(s, v + 1).end) != [] {
      AfterBreakPlaces(s, ArrayValues(s, v + 1).end);
    }
  }

  // ---------------------------------------------------------------------------
  // A break stops the reader
  // ---------------------------------------------------------------------------

  /** The chunks from the k-th on end at the given places. */
  predicate CutsAt(f: File, k: nat, places: seq<int>) {
    k + |places| < |f.ends| && forall i :: 0 <= i < |places| ==> f.ends[k + i] == places[i]
  }

  /** Where the first of them end. */
  lemma {:induction false} FirstCuts(f: File, k: nat, places: seq<int>)
    requires CutsAt(f, k, places) && |places| > 0
    ensures Loaded(f, k) == places[0]
    ensures |places| > 1 ==> Loaded(f, k + 1) == places[1]
    ensures |places| > 2 ==> Loaded(f, k + 2) == places[2]
    ensures |places| > 3 ==> Loaded(f, k + 3) == places[3]
  {
    assert f.ends[k + 0] == places[0];
  }

  /** A value that has been read is decoded without reading on. */
  lemma {:induction false} ValueWithin(f: File, k: nat, q: nat)
    requires q <= |f.text| && ParseValue(f.text, q).Parsed? && ParseValue(f.text, q).end <= Loaded(f, k)
    ensures ValueReads(f, k, q) == Some(k)
  {
    EnoughWithin(f.text, q);
  }

  lemma {:induction false} NumberStops(f: File, k: nat, v: nat)
    requires v <= |f.text| && ParseValue(f.text, v).Parsed? && NumberBreak(f.text, v) != []
    requires CutsAt(f, k, NumberBreak(f.text, v))
    ensures v < Loaded(f, k) && ValueReads(f, k, v).None?
  {
    FirstCuts(f, k, NumberBreak(f.text, v));
  }

  /** The three ways in which an array has a break. */
  lemma {:induction false} ArrayBreakCases(s: string, p: nat)
    requires p <= |s| && ArrayBreak(s, p) != []
    ensures var q, c := SkipSpace(s, p), ArrayBreak(s, p);
      q < |s| &&
      if (s[q] == ']' || s[q] == ',') && q - p >= 2 then c == [p, p + 1]
      else if s[q] == ',' then c == ArrayBreak(s, q + 1) && c[0] > q
      else
        && ParseValue(s, q).Parsed? && ParseValue(s, q).value.Object?
        && c == ArrayBreak(s, ParseValue(s, q).end) && c[0] >= ParseValue(s, q).end
  {
    ArrayBreakPlaces(s, p);
    var q := SkipSpace(s, p);
    if (s[q] == ']' || s[q] == ',') && q - p >= 2 {
    } else if s[q] == ',' {
      ArrayBreakPlaces(s, q + 1);
    } else {
      ArrayBreakPlaces(s, ParseValue(s, q).end);
    }
  }

  lemma {:induction false} ArrayStops(f: File, p: nat, k: nat)
    requires p <= |f.text| && ArrayBreak(f.text, p) != [] && CutsAt(f, k, ArrayBreak(f.text, p))
    ensures ArrayReads(f, p, k).None?
    decreases |f.text| - p
  {
    hide ParseValue, ArrayBreak, ValueReads;
    var q := SkipSpace(f.text, p);
    ArrayBreakCases(f.text, p);
    FirstCuts(f, k, ArrayBreak(f.text, p));
    var c := f.text[q];
    if !((c == ']' || c == ',') && q - p >= 2) {
      if c == ',' {
        ArrayStops(f, q + 1, k);
      } else {
        ValueStartsOnNonSpace(f.text, q);
        ValueWithin(f, k, q);
        ArrayStops(f, ParseValue(f.text, q).end, k);
      }
    }
  }

  /** An array that has been read completely is passed without reading on. */
  lemma {:induction false} ArrayWithin(f: File, p: nat, k: nat)
    requires p <= |f.text| && ArrayValues(f.text, p).Found? && ArrayValues(f.text, p).end <= Loaded(f, k)
    ensures ArrayReads(f, p, k) == Some(k)
    decreases |f.text| - p
  {
    hide ParseValue, ValueReads;
    var q := SkipSpace(f.text, p);
    if f.text[q] == ',' {
      ArrayWithin(f, q + 1, k);
    } else if f.text[q] != ']' {
      ValueWithin(f, k, q);
      ArrayWithin(f, ParseValue(f.text, q).end, k);
    }
  }

  lemma {:induction false} BraceBreak(s: string, p: nat)
    requires p <= |s| && ObjectBreak(s, p) != [] && Is(s, SkipSpace(s, p), '}')
    ensures ObjectBreak(s, p) == [p, p + 1] && SkipSpace(s, p) - p >= 2
  {
  }

  lemma {:induction false} ObjectStops(f: File, p: nat, k: nat)
    requires p <= |f.text| && ObjectBreak(f.text, p) != [] && CutsAt(f, k, ObjectBreak(f.text, p))
    ensures ObjectReads(f, p, k).None?
    decreases |f.text| - SkipSpace(f.text, p), 1
  {
    hide ObjectBreak, MemberReads;
    FirstCuts(f, k, ObjectBreak(f.text, p));
    var q := SkipSpace(f.text, p);
    if Is(f.text, q, '}') {
      BraceBreak(f.text, p);
    } else {
      MemberBreak(f.text, p);
      SameBreak(f.text, p, q);
      MemberStops(f, q, k);
    }
  }

  /** Where the break of a member lies. */
  lemma {:induction false} MemberBreak(s: string, p: nat)
    requires p <= |s| && ObjectBreak(s, p) != [] && !Is(s, SkipSpace(s, p), '}')
    ensures SkipSpace(s, p) < |s| && KeyAt(s, SkipSpace(s, p)).Parsed? && ParseValue(s, SkipSpace(s, p)).Parsed?
    ensures var Parsed(key, k) := KeyAt(s, SkipSpace(s, p));
      var end := ParseValue(s, SkipSpace(s, p)).end;
      && SkipSpace(s, p) < end < k <= |s|
      && (ColonBreak(s, end) != [] ==> ObjectBreak(s, p) == ColonBreak(s, end) && ColonBreak(s, end)[0] == end)
      && (ColonBreak(s, end) == [] ==>
            ObjectBreak(s, p) == (if key == SKILLS then SkillsBreak(s, k) else OtherBreak(s, k))
              && ObjectBreak(s, p)[0] >= k)
  {
    var Parsed(key, k) := KeyAt(s, SkipSpace(s, p));
    if ColonBreak(s, ParseValue(s, SkipSpace(s, p)).end) == [] {
      if key == SKILLS {
        SkillsBreakPlaces(s, k);
      } else {
        OtherBreakPlaces(s, k);
      }
    }
  }

  lemma {:induction false} MemberStops(f: File, q: nat, k: nat)
    requires q <= |f.text| && SkipSpace(f.text, q) == q && !Is(f.text, q, '}')
    requires ObjectBreak(f.text, q) != [] && CutsAt(f, k, ObjectBreak(f.text, q))
    ensures MemberReads(f, q, k).None?
    decreases |f.text| - q, 0
  {
    hide ObjectBreak, ParseValue, KeyAt, OtherBreak, SkillsBreak, SkillsReads, OtherReads, ValueReads;
    MemberBreak(f.text, q);
    FirstCuts(f, k, ObjectBreak(f.text, q));
    ValueWithin(f, k, q);
    var Parsed(key, p) := KeyAt(f.text, q);
    if ColonBreak(f.text, ParseValue(f.text, q).end) == [] && KeyReads(f, q, k).Some? {
      KeyWithin(f, q, k);
      if key == SKILLS {
        SkillsStops(f, p, k);
      } else {
        OtherStops(f, p, k);
      }
    }
  }

  lemma {:induction false} KeyWithin(f: File, q: nat, k: nat)
    requires q <= |f.text| && KeyAt(f.text, q).Parsed? && KeyAt(f.text, q).end <= Loaded(f, k)
    ensures KeyReads(f, q, k) == Some(k)
  {
    ValueWithin(f, k, q);
  }

  lemma {:induction false} OtherStops(f: File, p: nat, k: nat)
    requires p <= |f.text| && OtherBreak(f.text, p) != [] && CutsAt(f, k, OtherBreak(f.text, p))
    ensures OtherReads(f, p, k).None?
    decreases |f.text| - p, 2
  {
    hide ParseValue, ValueReads, AfterReads, AfterBreak, NumberBreak;
    var v := SkipSpace(f.text, p);
    if NumberBreak(f.text, v) != [] {
      NumberStops(f, k, v);
    } else {
      var end := ParseValue(f.text, v).end;
      AfterBreakPlaces(f.text, end);
      FirstCuts(f, k, AfterBreak(f.text, end));
      ValueWithin(f, k, v);
      AfterStops(f, end, k);
    }
  }

  lemma {:induction false} AfterStops(f: File, p: nat, k: nat)
    requires p <= |f.text| && AfterBreak(f.text, p) != [] && CutsAt(f, k, AfterBreak(f.text, p))
    ensures AfterReads(f, p, k).None?
    decreases |f.text| - SkipSpace(f.text, p), 2
  {
    hide ObjectBreak, ObjectReads, MemberReads;
    var q := SkipSpace(f.text, p);
    FirstCuts(f, k, AfterBreak(f.text, p));
    if Is(f.text, q, ',') {
      if q - p < 2 {
        ObjectBreakPlaces(f.text, q + 1);
        ObjectStops(f, q + 1, k);
      }
    } else if !Is(f.text, q, '}') {
      SkipSpaceBetween(f.text, p, q);
      MemberBreak(f.text, q);
      MemberStops(f, q, k);
    }
  }

  lemma {:induction false} SkillsStops(f: File, p: nat, k: nat)
    requires p <= |f.text| && SkillsBreak(f.text, p) != [] && CutsAt(f, k, SkillsBreak(f.text, p))
    ensures SkillsReads(f, p, k).None?
    decreases |f.text| - p, 2
  {
    hide ParseValue, ArrayBreak, AfterBreak, ObjectBreak, NumberBreak, ArrayValues, ArrayReads, AfterReads, ObjectReads,
      ValueReads;
    var v := SkipSpace(f.text, p);
    FirstCuts(f, k, SkillsBreak(f.text, p));
    if !Is(f.text, v, '[') {
      if NumberBreak(f.text, v) != [] {
        NumberStops(f, k, v);
      } else {
        var end := ParseValue(f.text, v).end;
        ObjectBreakPlaces(f.text, end);
        ValueWithin(f, k, v);
        ObjectStops(f, end, k);
      }
    } else if ArrayBreak(f.text, v + 1) != [] {
      ArrayBreakPlaces(f.text, v + 1);
      ArrayStops(f, v + 1, k);
    } else {
      var end := ArrayValues(f.text, v + 1).end;
      if AfterBreak(f.text, end) != [] {
        AfterBreakPlaces(f.text, end);
        ArrayWithin(f, v + 1, k);
        AfterStops(f, end, k);
      } else {
        MissedStops(f, p, k);
      }
    }
  }

  predicate Missed(s: string, p: nat)
    requires p <= |s|
  {
    && SkillsBreak(s, p) != [] && Is(s, SkipSpace(s, p), '[') && ArrayBreak(s, SkipSpace(s, p) + 1) == []
    && ArrayValues(s, SkipSpace(s, p) + 1).Found? && AfterBreak(s, ArrayValues(s, SkipSpace(s, p) + 1).end) == []
  }

  lemma {:induction false} MissedBreak(s: string, p: nat)
    requires p <= |s| && Missed(s, p)
    ensures var v, c := SkipSpace(s, p), SkillsBreak(s, p);
      var end := ArrayValues(s, v + 1).end;
      && v - p >= 2 && |c| >= 2 && c[0] == p && c[1] == p + 1
      && (ParseValue(s, v).Parsed? && !Is(s, SkipSpace(s, end), ',') ==>
            c == [p, p + 1, end, end + 1] && Is(s, SkipSpace(s, end), '}') && SkipSpace(s, end) - end >= 2)
  {
    hide ArrayBreak, AfterBreak, ArrayValues, ObjectBreak, ParseValue;
  }

  lemma {:induction false} SkippedArrayReads(f: File, p: nat, k: nat)
    requires p <= |f.text| && Is(f.text, SkipSpace(f.text, p), '[') && Gap(f, k, SkipSpace(f.text, p), 2).None?
    ensures match ValueReads(f, Skipped(f, k, SkipSpace(f.text, p), 2), SkipSpace(f.text, p))
      case None => SkillsReads(f, p, k).None?
      case Some(n) =>
        && ParseValue(f.text, SkipSpace(f.text, p)).Parsed?
        && SkillsReads(f, p, k) == ObjectReads(f, ParseValue(f.text, SkipSpace(f.text, p)).end, n)
  {
  }

  /** The look-ahead misses the bracket, and what follows the array does not forgive it. */
  lemma {:induction false} MissedStops(f: File, p: nat, k: nat)
    requires p <= |f.text| && Missed(f.text, p) && CutsAt(f, k, SkillsBreak(f.text, p))
    ensures SkillsReads(f, p, k).None?
  {
    hide SkillsBreak, ArrayBreak, AfterBreak, ArrayValues, ParseValue, ArrayReads, AfterReads, ValueReads;
    var v := SkipSpace(f.text, p);
    MissedBreak(f.text, p);
    FirstCuts(f, k, SkillsBreak(f.text, p));
    SkippedTwice(f, k, v);
    SkippedArrayReads(f, p, k);
    if ValueReads(f, k + 2, v).Some? {
      SkippedArrayInText(f.text, p);
      ArrayScan(f.text, v);
      var end := ParseValue(f.text, v).end;
      if Is(f.text, SkipSpace(f.text, end), ',') {
        CommaBehind(f, end, ValueReads(f, k + 2, v).value);
      } else {
        ValueWithin(f, k + 2, v);
      }
    }
  }

  // ---------------------------------------------------------------------------
  // Exactly which texts are read the same in every cut
  // ---------------------------------------------------------------------------

  /** The file cut at the given places only. */
  function Broken(s: string, places: seq<int>): File
    requires Places(s, 1, places)
  {
    var ends := [0] + seq<nat>(|places|, i requires 0 <= i < |places| => PlaceAt(s, places, i)) + [|s|];
    Cut(s, ends)
  }

  function PlaceAt(s: string, places: seq<int>, i: nat): (n: nat)
    requires Places(s, 1, places) && i < |places|
    ensures n == places[i] && 1 <= n < |s|
  {
    assert i > 0 ==> places[0] < places[i];
    assert i < |places| - 1 ==> places[i] < places[|places| - 1];
    places[i]
  }

  lemma {:induction false} TopBreakPlaces(s: string)
    requires TopBreak(s) != []
    ensures Places(s, 1, TopBreak(s))
  {
    hide ArrayBreak, ObjectBreak;
    var q := SkipSpace(s, 0);
    if q < 3 {
      if Is(s, q, '[') {
        ArrayBreakPlaces(s, q + 1);
      } else {
        ObjectBreakPlaces(s, q + 1);
      }
    }
  }

  /** A break is a cut in which the reader fails. */
  lemma {:induction false} BreakFails(s: string)
    requires TopBreak(s) != []
    ensures Places(s, 1, TopBreak(s)) && TopLevelFrom(Broken(s, TopBreak(s))).Failed?
  {
    hide TopBreak, TopReads;
    TopBreakPlaces(s);
    var f := Broken(s, TopBreak(s));
    assert CutsAt(f, 1, TopBreak(s));
    TopStops(f);
    ReadsExactly(f);
  }

  lemma {:induction false} TopStops(f: File)
    requires TopBreak(f.text) != [] && CutsAt(f, 1, TopBreak(f.text))
    ensures TopReads(f).None?
  {
    hide ArrayBreak, ObjectBreak, ArrayReads, ObjectReads;
    var q := SkipSpace(f.text, 0);
    TopBreakPlaces(f.text);
    FirstCuts(f, 1, TopBreak(f.text));
    if q < 3 {
      if Is(f.text, q, '[') {
        ArrayBreakPlaces(f.text, q + 1);
        ArrayStops(f, q + 1, 1);
      } else {
        ObjectBreakPlaces(f.text, q + 1);
        ObjectStops(f, q + 1, 1);
      }
    }
  }

  /** Main result: a text that is well-formed for the reader is read the same in every cut if and only if it has no
      break. */
  lemma {:induction false} ReadAlikeExactly(s: string)
    requires TopLevel(s).Found?
    ensures (forall f: File | f.text == s :: TopLevelFrom(f).Got?) <==> TopBreak(s) == []
    ensures forall f: File | f.text == s && TopLevelFrom(f).Got? :: TopLevelFrom(f).value == TopLevel(s).entries
  {
    hide TopLevelFrom, TopReads, TopLevel, TopBreak;
    if TopBreak(s) != [] {
      BreakFails(s);
      assert Broken(s, TopBreak(s)).text == s;
    }
    forall f: File | f.text == s
      ensures TopBreak(s) == [] ==> TopLevelFrom(f).Got?
      ensures TopLevelFrom(f).Got? ==> TopLevelFrom(f).value == TopLevel(s).entries
    {
      ReadsExactly(f);
      if TopBreak(s) == [] {
        TopPassed(f, false);
      }
    }
  }

  /** The shortest well-formed text that can be broken. */
  lemma {:induction false} SmallestBreak()
    ensures TopLevel("[  ]") == Found([], 4) && TopBreak("[  ]") == [1, 2]
  {
    var s := "[  ]";
    assert SkipSpace(s, 0) == 0;
    assert SkipSpace(s, 1) == SkipSpace(s, 2) == SkipSpace(s, 3) == 3;
  }
}
