/** Exactly what the chunked reader of `StreamingJson` returns, for every text and every cut of it: what the scan of the
    text finds if the reads made on the way reach over every gap and every number, else a failure. */
module StreamingCuts {
  import opened Models
  import opened Json
  import opened JsonPrefix
  import opened SkillsIndex
  import opened StreamingJson

  // ---------------------------------------------------------------------------
  // Counting reads
  // ---------------------------------------------------------------------------

  /** The reads made, k of them before, when up to n skips have looked for the character at q. */
  function Skipped(f: File, k: nat, q: nat, n: nat): nat
    decreases n
  {
    if n == 0 || q < Loaded(f, k) then k else Skipped(f, k + 1, q, n - 1)
  }

  /** n skips find the character at q unless the white space before it covers the n - 1 chunks to be read next and goes
      on behind them. */
  function Gap(f: File, k: nat, q: nat, n: nat): Option<nat>
    requires n > 0
  {
    if q <= Loaded(f, k + n - 1) then Some(Skipped(f, k, q, n)) else None
  }

  /** The reads made when a decode has found the value at q: it skips once, and from white space it reads on and skips
      again. */
  function DecodeStart(f: File, k: nat, q: nat): nat
    requires q < |f.text|
    decreases |f.ends| - k
  {
    if q < Loaded(f, k) then k else if q == Loaded(f, k) then k + 1 else DecodeStart(f, k + 2, q)
  }

  /** The reads made when n characters are there. */
  function Until(f: File, k: nat, n: nat): nat
    requires n <= |f.text|
    decreases |f.ends| - k
  {
    if n <= Loaded(f, k) then k else Until(f, k + 1, n)
  }

  /** Where the decoder first sees a value at q: at its end, but a number at its first digit. */
  function Enough(s: string, q: nat): (n: nat)
    requires q <= |s| && ParseValue(s, q).Parsed?
    ensures q < n
  {
    if !StartsNumber(s[q]) then ParseValue(s, q).end else if s[q] == '-' then q + 2 else q + 1
  }

  /** The reads made when the value at q has been decoded, unless a chunk ends in it behind its first digit. */
  function ValueReads(f: File, k: nat, q: nat): Option<nat>
    requires q <= |f.text|
  {
    match ParseValue(f.text, q)
    case Invalid => None
    case Parsed(_, end) =>
      EnoughWithin(f.text, q);
      var n := Until(f, DecodeStart(f, k, q), Enough(f.text, q));
      if end <= Loaded(f, n) then Some(n) else None
  }

  lemma {:induction false} EnoughWithin(s: string, q: nat)
    requires q <= |s| && ParseValue(s, q).Parsed?
    ensures Enough(s, q) <= ParseValue(s, q).end
    ensures StartsNumber(s[q]) ==> ParseValue(s, q) == ParseNumber(s, q)
  {
    WordFirst(s, q, "null");
    WordFirst(s, q, "true");
    WordFirst(s, q, "false");
  }

  // ---------------------------------------------------------------------------
  // The reads made along the tokens of a text, if they suffice
  // ---------------------------------------------------------------------------

  /** Two skips find the comma or the bracket behind an element. */
  function ArrayReads(f: File, p: nat, k: nat): Option<nat>
    requires p <= |f.text|
    decreases |f.text| - p
  {
    var q := SkipSpace(f.text, p);
    if q == |f.text| then None
    else if f.text[q] == ']' then Gap(f, k, q, 2)
    else if f.text[q] == ',' then
      match Gap(f, k, q, 2)
      case None => None
      case Some(n) => ArrayReads(f, q + 1, n)
    else
      match ValueReads(f, Skipped(f, k, q, 2), q)
      case None => None
      case Some(n) => ArrayReads(f, ParseValue(f.text, q).end, n)
  }

  /** Three skips find the colon behind a key. */
  function KeyReads(f: File, q: nat, k: nat): Option<nat>
    requires q <= |f.text|
  {
    match ValueReads(f, k, q)
    case None => None
    case Some(n) => Gap(f, n, SkipSpace(f.text, ParseValue(f.text, q).end), 3)
  }

  function ObjectReads(f: File, p: nat, k: nat): Option<nat>
    requires p <= |f.text|
    decreases |f.text| - p, 1
  {
    var q := SkipSpace(f.text, p);
    if Is(f.text, q, '}') then Gap(f, k, q, 2) else MemberReads(f, q, Skipped(f, k, q, 2))
  }

  function MemberReads(f: File, q: nat, k: nat): Option<nat>
    requires q <= |f.text|
    decreases |f.text| - q, 0
  {
    match KeyAt(f.text, q)
    case Invalid => None
    case Parsed(key, p) =>
      match KeyReads(f, q, k)
      case None => None
      case Some(n) => if key == SKILLS then SkillsReads(f, p, n) else OtherReads(f, p, n)
  }

  function OtherReads(f: File, p: nat, k: nat): Option<nat>
    requires p <= |f.text|
    decreases |f.text| - p, 0
  {
    var v := SkipSpace(f.text, p);
    match ValueReads(f, k, v)
    case None => None
    case Some(n) => AfterReads(f, ParseValue(f.text, v).end, n)
  }

  /** Two skips find the comma behind a member, four the closing brace: after two the reader tries for a key. */
  function AfterReads(f: File, p: nat, k: nat): Option<nat>
    requires p <= |f.text|
    decreases |f.text| - p, 2
  {
    var q := SkipSpace(f.text, p);
    if Is(f.text, q, ',') then
      match Gap(f, k, q, 2)
      case None => None
      case Some(n) => ObjectReads(f, q + 1, n)
    else if Is(f.text, q, '}') then Gap(f, k, q, 4)
    else MemberReads(f, q, Skipped(f, k, q, 4))
  }

  /** If two skips do not find the bracket, the array is decoded as one value, and no comma may follow. */
  function SkillsReads(f: File, p: nat, k: nat): Option<nat>
    requires p <= |f.text|
    decreases |f.text| - p, 0
  {
    var v := SkipSpace(f.text, p);
    match if Is(f.text, v, '[') then Gap(f, k, v, 2) else None
    case Some(n) =>
      (match (ArrayValues(f.text, v + 1), ArrayReads(f, v + 1, n))
       case (Found(_, end), Some(m)) => AfterReads(f, end, m)
       case _ => None)
    case None =>
      match ValueReads(f, Skipped(f, k, v, 2), v)
      case None => None
      case Some(n) => ObjectReads(f, ParseValue(f.text, v).end, n)
  }

  function TopReads(f: File): Option<nat> {
    var q := SkipSpace(f.text, 0);
    match Gap(f, 1, q, 2)
    case None => None
    case Some(n) =>
      if Is(f.text, q, '[') then ArrayReads(f, q + 1, n)
      else if Is(f.text, q, '{') then ObjectReads(f, q + 1, n)
      else None
  }

  // ---------------------------------------------------------------------------
  // Skips
  // ---------------------------------------------------------------------------

  lemma {:induction false} SkippedTwice(f: File, k: nat, q: nat)
    ensures Skipped(f, k, q, 2) == if q < Loaded(f, k) then k else if q < Loaded(f, k + 1) then k + 1 else k + 2
  {
  }

  lemma {:induction false} SkippedMore(f: File, k: nat, q: nat)
    requires q < |f.text|
    ensures Skipped(f, k, q, 4) == Skipped(f, Skipped(f, k, q, 2), q, 2)
    ensures q <= Loaded(f, k + 1) ==> Skipped(f, k, q, 3) == Skipped(f, k, q, 4) == Skipped(f, k, q, 2)
    ensures q > Loaded(f, k + 1) ==> Skipped(f, k, q, 2) == k + 2
    ensures q > Loaded(f, k + 1) ==> Skipped(f, k, q, 3) == if q < Loaded(f, k + 2) then k + 2 else k + 3
  {
    SkippedTwice(f, k, q);
    SkippedTwice(f, k + 1, q);
    SkippedTwice(f, k + 2, q);
  }

  /** Where a look-ahead lands, and what it has read. */
  lemma {:induction false} LookAheadIs(f: File, r: Reader)
    requires Ok(f, r) && Next(f, r) < |f.text|
    ensures var a, q, k := LookAhead(f, r), Next(f, r), r.fetched;
      && a == Reader(if q <= Loaded(f, k + 1) then q else Loaded(f, k + 1), Skipped(f, k, q, 2))
      && Next(f, a) == q && !AtEnd(f, a)
      && (a.position < q ==> IsSpace(f.text[a.position]))
  {
    SkipExact(f, r);
    SkipExact(f, Skip(f, r));
    SkippedTwice(f, r.fetched, Next(f, r));
    if !Eof(f, r) {
      LoadedGrows(f, r.fetched);
    }
    if r.fetched + 1 < |f.ends| {
      LoadedGrows(f, r.fetched + 1);
    }
    SkipSpaceRun(f.text, r.position);
  }

  // ---------------------------------------------------------------------------
  // Decoding
  // ---------------------------------------------------------------------------

  /** A value of the text is decoded from a prefix exactly if that has enough of it. */
  lemma {:induction false} ParsesFrom(f: File, k: nat, q: nat)
    requires q < Loaded(f, k) && ParseValue(f.text, q).Parsed?
    ensures ParseValue(f.text[..Loaded(f, k)], q).Parsed? <==> Enough(f.text, q) <= Loaded(f, k)
  {
    hide ParseValue;
    var n := Loaded(f, k);
    var prefix := f.text[..n];
    if StartsNumber(f.text[q]) {
      NumberFromFirstDigit(f.text, n, q);
    } else if ParseValue(f.text, q).end <= n {
      ValueInPrefix(f.text, n, q);
    } else if ParseValue(prefix, q).Parsed? {
      assert f.text == prefix + f.text[n..];
      ValueStable(prefix, f.text[n..], q);
    }
  }

  lemma {:induction false} NumberFromFirstDigit(s: string, n: nat, q: nat)
    requires q < n <= |s| && StartsNumber(s[q]) && ParseValue(s, q).Parsed?
    ensures ParseValue(s[..n], q).Parsed? <==> Enough(s, q) <= n
  {
    hide SkipDigits, FracEnd, ExpEnd, ParseStringBody, ParseMembers, ParseElements;
    EnoughWithin(s, q);
    WordFirst(s[..n], q, "null");
    WordFirst(s[..n], q, "true");
    WordFirst(s[..n], q, "false");
    var start := if s[q] == '-' then q + 1 else q;
    FirstDigit(s, start);
    if start <= n {
      FirstDigit(s[..n], start);
    }
  }

  /** What n reads show of the value at q. */
  function Shown(f: File, n: nat, q: nat): Parse<Value> {
    if q <= Loaded(f, n) then ParseValue(f.text[..Loaded(f, n)], q) else Invalid
  }

  predicate DecodedAfter(f: File, n: nat, q: nat, d: Read<Value>) {
    && n <= |f.ends| && q < Loaded(f, n) && Shown(f, n, q).Parsed?
    && d == Got(Shown(f, n, q).value, Reader(Shown(f, n, q).end, n))
  }

  /** A decode that has come to the value itself. */
  lemma {:induction false} DecodeLoopIs(f: File, q: nat, k: nat)
    requires Ok(f, Reader(q, k)) && q < Loaded(f, k) && !IsSpace(f.text[q]) && ParseValue(f.text, q).Parsed?
    ensures Enough(f.text, q) <= |f.text|
    ensures DecodedAfter(f, Until(f, k, Enough(f.text, q)), q, DecodeLoop(f, Reader(q, k)))
    decreases |f.ends| - k
  {
    hide ParseValue;
    EnoughWithin(f.text, q);
    ParsesFrom(f, k, q);
    if Loaded(f, k) < Enough(f.text, q) {
      LoadedGrows(f, k);
      SkipExact(f, Reader(q, k + 1));
      SkipSpaceStays(f.text, q);
      DecodeLoopIs(f, q, k + 1);
    }
  }

  /** A decode on white space reads on and starts again. */
  lemma {:induction false} DecodeReadsOn(f: File, r: Reader)
    requires Ok(f, r) && Loaded(f, r.fetched) < Next(f, r) < |f.text|
    ensures var again := Reader(Loaded(f, r.fetched), r.fetched + 2);
      Ok(f, again) && Next(f, again) == Next(f, r) && Decode(f, r) == Decode(f, again)
  {
    hide ParseValue;
    SkipExact(f, r);
    LoadedGrows(f, r.fetched);
    SkipSpaceRun(f.text, r.position);
    var landed := Skip(f, r);
    if ParseValue(Buffer(f, landed), landed.position).Parsed? {
      ValueStartsOnNonSpace(Buffer(f, landed), landed.position);
    }
    SkipExact(f, Fill(f, landed));
  }

  lemma {:induction false} DecodeRaw(f: File, r: Reader)
    requires Ok(f, r) && ParseValue(f.text, Next(f, r)).Parsed?
    ensures Enough(f.text, Next(f, r)) <= |f.text|
    ensures var q := Next(f, r);
      DecodedAfter(f, Until(f, DecodeStart(f, r.fetched, q), Enough(f.text, q)), q, Decode(f, r))
    decreases |f.ends| - r.fetched
  {
    hide ParseValue, DecodeLoop, DecodedAfter;
    var q, k := Next(f, r), r.fetched;
    EnoughWithin(f.text, q);
    SkipExact(f, r);
    if q <= Loaded(f, k) {
      if q == Loaded(f, k) {
        LoadedGrows(f, k);
      }
      DecodeLoopIs(f, q, Skip(f, r).fetched);
    } else {
      DecodeReadsOn(f, r);
      DecodeRaw(f, Reader(Loaded(f, k), k + 2));
    }
  }

  /** A number of which a decode has taken a part: its next character is what the reader sees next. */
  predicate CutNumber(f: File, d: Read<Value>) {
    && d.Got? && d.value.Number? && Ok(f, d.reader)
    && d.reader.position < |f.text| && InNumber(f.text[d.reader.position])
  }

  /** Exactly what a decode yields: the value of the text, nothing where that has none, or a part of a number. */
  lemma {:induction false} DecodeIs(f: File, r: Reader)
    requires Ok(f, r)
    ensures match ValueReads(f, r.fetched, Next(f, r))
      case Some(n) =>
        var q := Next(f, r);
        && ParseValue(f.text, q).Parsed? && Ok(f, Reader(ParseValue(f.text, q).end, n))
        && Decode(f, r) == Got(ParseValue(f.text, q).value, Reader(ParseValue(f.text, q).end, n))
      case None => Decode(f, r).Failed? || CutNumber(f, Decode(f, r))
  {
    var q := Next(f, r);
    DecodeAgrees(f, r);
    if ParseValue(f.text, q).Parsed? {
      DecodeRaw(f, r);
      EnoughWithin(f.text, q);
      var n := Until(f, DecodeStart(f, r.fetched, q), Enough(f.text, q));
      if ParseValue(f.text, q).end <= Loaded(f, n) {
        ValueInPrefix(f.text, Loaded(f, n), q);
      } else {
        NumberCharacters(f.text, q);
      }
    }
  }

  lemma {:induction false} NumberCharacters(s: string, i: nat)
    requires i <= |s| && ParseNumber(s, i).Parsed?
    ensures forall j :: i <= j < ParseNumber(s, i).end ==> InNumber(s[j])
  {
    hide IntEnd, FracEnd, ExpEnd;
    var start := if Is(s, i, '-') then i + 1 else i;
    var whole := IntEnd(s, start);
    var frac := FracEnd(s, whole);
    PartCharacters(s, start);
    PartCharacters(s, whole);
    PartCharacters(s, frac);
  }

  lemma {:induction false} PartCharacters(s: string, i: nat)
    requires i <= |s|
    ensures forall j :: i <= j < IntEnd(s, i) ==> InNumber(s[j])
    ensures forall j :: i <= j < FracEnd(s, i) ==> InNumber(s[j])
    ensures forall j :: i <= j < ExpEnd(s, i) ==> InNumber(s[j])
  {
    DigitsOnly(s, i);
    if i + 1 <= |s| {
      DigitsOnly(s, i + 1);
    }
    if i + 2 <= |s| {
      DigitsOnly(s, i + 2);
    }
  }

  lemma {:induction false} DigitsOnly(s: string, i: nat)
    requires i <= |s|
    ensures forall j :: i <= j < SkipDigits(s, i) ==> IsDigit(s[j])
    decreases |s| - i
  {
    if i < |s| && IsDigit(s[i]) {
      DigitsOnly(s, i + 1);
    }
  }

  /** Behind a part of a number there is no key, no comma and no brace. */
  lemma {:induction false} NothingBehindCutNumber(f: File, r: Reader)
    requires Ok(f, r) && r.position < |f.text| && InNumber(f.text[r.position])
    ensures ObjectFrom(f, r).Failed? && AfterValueFrom(f, r).Failed?
  {
    hide ParseValue, KeyFrom, LookAhead;
    var a := LookAhead(f, r);
    StaysAt(f, r);
    StaysAt(f, a);
    NumberIsNoKey(f, a);
    NumberIsNoKey(f, LookAhead(f, a));
    assert ObjectAt(f, a).Failed? && ObjectAt(f, LookAhead(f, a)).Failed?;
    assert AfterValueAt(f, a) == ObjectFrom(f, a);
  }

  /** A look-ahead from a character that counts does not leave it. */
  lemma {:induction false} StaysAt(f: File, r: Reader)
    requires Ok(f, r) && r.position < |f.text| && !IsSpace(f.text[r.position])
    ensures var a := LookAhead(f, r);
      a.position == r.position == Next(f, a) && Current(f, a) == Some(f.text[r.position])
  {
    SkipSpaceStays(f.text, r.position);
    LookAheadIs(f, r);
    if r.fetched < |f.ends| {
      LoadedGrows(f, r.fetched);
    }
  }

  lemma {:induction false} NumberIsNoKey(f: File, a: Reader)
    requires Ok(f, a) && Next(f, a) < |f.text| && InNumber(f.text[Next(f, a)])
    ensures KeyFrom(f, a).Failed?
  {
    DecodeAgrees(f, a);
    WordFirst(f.text, Next(f, a), "null");
    WordFirst(f.text, Next(f, a), "true");
    WordFirst(f.text, Next(f, a), "false");
  }

  // ---------------------------------------------------------------------------
  // Arrays
  // ---------------------------------------------------------------------------

  /** What the scan of the text finds, if the reads suffice. */
  function Joined(scan: Scan, count: Option<nat>): Read<seq<Value>> {
    if scan.Found? && count.Some? then Got(scan.entries, Reader(scan.end, count.value)) else Failed
  }

  lemma {:induction false} JoinedPrefix(entries: seq<Value>, scan: Scan, count: Option<nat>)
    ensures Prefixed(entries, Joined(scan, count)) == Joined(Prepend(entries, scan), count)
  {
  }

  /** There is no value at the end of the text, at a closing sign or at a comma: whoever looks for one there fails. */
  lemma {:induction false} NothingDecoded(f: File, a: Reader)
    requires Ok(f, a) && (Next(f, a) < |f.text| ==> f.text[Next(f, a)] in "]},:")
    ensures Decode(f, a).Failed? && KeyFrom(f, a).Failed?
    ensures Current(f, a) != Some(']') && Current(f, a) != Some(',') ==> ArrayAt(f, a).Failed?
    ensures Current(f, a) != Some('}') ==> ObjectAt(f, a).Failed?
    ensures Current(f, a) != Some('[') ==> SkillsAt(f, a).Failed?
  {
    DecodeAgrees(f, a);
    if Next(f, a) < |f.text| && ParseValue(f.text, Next(f, a)).Parsed? {
      ValueStartsOnNonSpace(f.text, Next(f, a));
    }
  }

  /** At the end of the text everything fails. */
  lemma {:induction false} NothingAtEnd(f: File, r: Reader)
    requires Ok(f, r) && Next(f, r) == |f.text|
    ensures ArrayFrom(f, r).Failed? && ObjectFrom(f, r).Failed? && SkillsFrom(f, r).Failed? && OtherFrom(f, r).Failed?
    ensures AfterValueFrom(f, r).Failed? && ColonFrom(f, r).Failed?
  {
    hide ParseValue, Decode, ArrayAt, ObjectAt, SkillsAt, LookAhead, ConsumeChar;
    var a := LookAhead(f, r);
    NothingAhead(f, r);
    NothingAhead(f, a);
    NothingDecoded(f, r);
    ConsumeFinds(f, a);
    assert ObjectFrom(f, a) == ObjectAt(f, LookAhead(f, a)) && AfterValueAt(f, a) == ObjectFrom(f, a);
  }

  lemma {:induction false} NothingAhead(f: File, r: Reader)
    requires Ok(f, r) && Next(f, r) == |f.text|
    ensures var a := LookAhead(f, r);
      && Next(f, a) == |f.text| && (Current(f, a).Some? ==> IsSpace(Current(f, a).value))
      && ArrayAt(f, a).Failed? && ObjectAt(f, a).Failed? && SkillsAt(f, a).Failed?
  {
    hide ArrayAt, ObjectAt, SkillsAt, LookAhead;
    LookAheadExact(f, r);
    BlankUpToEnd(f, r, LookAhead(f, r));
    NothingDecoded(f, LookAhead(f, r));
  }

  lemma {:induction false} BlankUpToEnd(f: File, r: Reader, a: Reader)
    requires Ok(f, r) && Next(f, r) == |f.text| && Later(f, r, a)
    ensures Current(f, a).Some? ==> IsSpace(Current(f, a).value)
  {
    SkipSpaceRun(f.text, r.position);
  }

  /** Main result for arrays, in every cut. */
  lemma {:induction false} ArrayExact(f: File, r: Reader)
    requires Ok(f, r)
    ensures ArrayFrom(f, r) == Joined(ArrayValues(f.text, r.position), ArrayReads(f, r.position, r.fetched))
    decreases |f.text| - r.position, 1
  {
    hide ParseValue, Decode, ValueReads, LookAhead;
    var q := Next(f, r);
    if q == |f.text| {
      NothingAtEnd(f, r);
    } else {
      LookAheadIs(f, r);
      var a := LookAhead(f, r);
      if f.text[q] != ']' && f.text[q] != ',' {
        ElementExact(f, r, a);
      } else if a.position < q {
        NothingDecoded(f, a);
      } else if f.text[q] == ',' {
        ArrayExact(f, Bump(f, a));
      }
    }
  }

  lemma {:induction false} ElementExact(f: File, r: Reader, a: Reader)
    requires Ok(f, r) && Next(f, r) < |f.text| && f.text[Next(f, r)] != ']' && f.text[Next(f, r)] != ','
    requires Ok(f, a) && a.fetched == Skipped(f, r.fetched, Next(f, r), 2) && Next(f, a) == Next(f, r) && !AtEnd(f, a)
    requires a.position < Next(f, r) ==> IsSpace(f.text[a.position])
    ensures ArrayAt(f, a) == Joined(ArrayValues(f.text, r.position), ArrayReads(f, r.position, r.fetched))
    decreases |f.text| - r.position, 0
  {
    hide ParseValue, Decode, Skipped;
    var q := Next(f, r);
    DecodeIs(f, a);
    match ValueReads(f, a.fetched, q) {
      case None =>
      case Some(n) =>
        var Parsed(v, end) := ParseValue(f.text, q);
        if v.Object? {
          ArrayExact(f, Reader(end, n));
          JoinedPrefix([v], ArrayValues(f.text, end), ArrayReads(f, end, n));
        }
    }
  }

  // ---------------------------------------------------------------------------
  // Keys and colons
  // ---------------------------------------------------------------------------

  /** What ConsumeChar looks at: the next character that counts, or white space before it. */
  lemma {:induction false} ConsumeFinds(f: File, r: Reader)
    requires Ok(f, r)
    ensures ConsumeChar(f, r, ':').Got? ==> Is(f.text, Next(f, r), ':')
    ensures Is(f.text, Next(f, r), ':') ==>
      ConsumeChar(f, r, ':') ==
        if Next(f, r) <= Loaded(f, r.fetched)
        then Got((), Reader(Next(f, r) + 1, if Next(f, r) < Loaded(f, r.fetched) then r.fetched else r.fetched + 1))
        else Failed
  {
    SkipExact(f, r);
    var s1 := Skip(f, r);
    if AtEnd(f, s1) {
      SkipExact(f, Fill(f, s1));
    }
    if !Eof(f, r) {
      LoadedGrows(f, r.fetched);
    }
    SkipSpaceRun(f.text, r.position);
  }

  lemma {:induction false} ColonExact(f: File, r: Reader)
    requires Ok(f, r)
    ensures var c := Next(f, r);
      ColonFrom(f, r) ==
        if Is(f.text, c, ':') && c <= Loaded(f, r.fetched + 2) then Got((), Reader(c + 1, Skipped(f, r.fetched, c, 3)))
        else Failed
  {
    var c := Next(f, r);
    if c == |f.text| {
      NothingAtEnd(f, r);
    } else {
      LookAheadIs(f, r);
      SkippedMore(f, r.fetched, c);
      ConsumeFinds(f, LookAhead(f, r));
    }
  }

  lemma {:induction false} KeyExact(f: File, a: Reader)
    requires Ok(f, a)
    ensures KeyFrom(f, a) ==
      match (KeyAt(f.text, Next(f, a)), KeyReads(f, Next(f, a), a.fetched))
      case (Parsed(key, end), Some(n)) => Got(key, Reader(end, n))
      case _ => Failed
  {
    hide ParseValue, Decode, ColonFrom, ValueReads;
    DecodeIs(f, a);
    var q := Next(f, a);
    match ValueReads(f, a.fetched, q) {
      case None =>
      case Some(n) => ColonExact(f, Reader(ParseValue(f.text, q).end, n));
    }
  }

  // ---------------------------------------------------------------------------
  // Objects
  // ---------------------------------------------------------------------------

  /** White space before a key does not matter. */
  lemma {:induction false} SameMember(s: string, p: nat, q: nat)
    requires p <= |s| && q == SkipSpace(s, p) && !Is(s, q, '}')
    ensures ObjectEntries(s, p) == ObjectEntries(s, q)
  {
  }

  lemma {:induction false} ObjectExact(f: File, r: Reader)
    requires Ok(f, r)
    ensures ObjectFrom(f, r) == Joined(ObjectEntries(f.text, r.position), ObjectReads(f, r.position, r.fetched))
    decreases |f.text| - Next(f, r), 2
  {
    hide ParseValue, Decode, KeyFrom, LookAhead;
    var q := Next(f, r);
    if q == |f.text| {
      NothingAtEnd(f, r);
    } else {
      LookAheadIs(f, r);
      var a := LookAhead(f, r);
      if f.text[q] != '}' {
        MemberExact(f, a);
        SameMember(f.text, r.position, q);
      } else if a.position < q {
        NothingDecoded(f, a);
      }
    }
  }

  lemma {:induction false} MemberExact(f: File, a: Reader)
    requires Ok(f, a) && Next(f, a) < |f.text| && f.text[Next(f, a)] != '}' && !AtEnd(f, a)
    requires a.position < Next(f, a) ==> IsSpace(f.text[a.position])
    ensures ObjectAt(f, a) == Joined(ObjectEntries(f.text, Next(f, a)), MemberReads(f, Next(f, a), a.fetched))
    decreases |f.text| - Next(f, a), 1
  {
    hide ParseValue, KeyAt, KeyReads, KeyFrom, SkillsFrom, OtherFrom, SkillsReads, OtherReads, SkillsValue, OtherValue;
    var q := Next(f, a);
    KeyExact(f, a);
    match (KeyAt(f.text, q), KeyReads(f, q, a.fetched)) {
      case (Parsed(key, p), Some(n)) =>
        assert KeyFrom(f, a) == Got(key, Reader(p, n));
        if key == SKILLS {
          SkillsExact(f, Reader(p, n));
        } else {
          OtherExact(f, Reader(p, n));
        }
      case _ =>
    }
  }

  lemma {:induction false} OtherExact(f: File, r: Reader)
    requires Ok(f, r)
    ensures OtherFrom(f, r) == Joined(OtherValue(f.text, r.position), OtherReads(f, r.position, r.fetched))
    decreases |f.text| - r.position, 3
  {
    hide ParseValue, Decode, ValueReads, AfterValueFrom, AfterReads, AfterValue;
    DecodeIs(f, r);
    var v := Next(f, r);
    match ValueReads(f, r.fetched, v) {
      case None =>
        if Decode(f, r).Got? {
          NothingBehindCutNumber(f, Decode(f, r).reader);
        }
      case Some(n) => AfterExact(f, Reader(ParseValue(f.text, v).end, n));
    }
  }

  lemma {:induction false} AfterExact(f: File, r: Reader)
    requires Ok(f, r)
    ensures AfterValueFrom(f, r) == Joined(AfterValue(f.text, r.position), AfterReads(f, r.position, r.fetched))
    decreases |f.text| - Next(f, r), 3
  {
    hide ObjectFrom, ObjectEntries, ObjectReads, MemberReads, LookAhead, Skipped;
    var q := Next(f, r);
    if q == |f.text| {
      NothingAtEnd(f, r);
    } else {
      LookAheadIs(f, r);
      var a := LookAhead(f, r);
      if f.text[q] == ',' {
        CommaAfterExact(f, r, a);
      } else if f.text[q] == '}' {
        SkippedMore(f, r.fetched, q);
        if a.position < q {
          BraceExact(f, a);
        }
      } else {
        NextMemberExact(f, r, a);
      }
    }
  }

  predicate Ahead(f: File, r: Reader, a: Reader) {
    && Ok(f, r) && Next(f, r) < |f.text| && Ok(f, a) && !AtEnd(f, a) && Next(f, a) == Next(f, r)
    && a == LookAhead(f, r) && a.fetched == Skipped(f, r.fetched, Next(f, r), 2)
    && (a.position == Next(f, r) <==> Next(f, r) <= Loaded(f, r.fetched + 1))
    && (a.position < Next(f, r) ==> IsSpace(f.text[a.position]))
  }

  lemma {:induction false} CommaAfterExact(f: File, r: Reader, a: Reader)
    requires Ahead(f, r, a) && f.text[Next(f, r)] == ','
    ensures AfterValueFrom(f, r) == Joined(AfterValue(f.text, r.position), AfterReads(f, r.position, r.fetched))
    decreases |f.text| - Next(f, r), 2
  {
    hide ObjectFrom, ObjectEntries, ObjectReads, MemberReads, LookAhead, Skipped;
    if a.position < Next(f, r) {
      NoKeyBeforeComma(f, a);
    } else {
      ObjectExact(f, Bump(f, a));
    }
  }

  /** Where a comma comes next, the reader finds no key. */
  lemma {:induction false} NoKeyBeforeComma(f: File, a: Reader)
    requires Ok(f, a) && Is(f.text, Next(f, a), ',')
    ensures ObjectFrom(f, a).Failed?
  {
    hide LookAhead;
    LookAheadIs(f, a);
    NothingDecoded(f, LookAhead(f, a));
  }

  lemma {:induction false} BraceExact(f: File, r: Reader)
    requires Ok(f, r) && Is(f.text, Next(f, r), '}')
    ensures ObjectFrom(f, r) ==
      if Next(f, r) > Loaded(f, r.fetched + 1) then Failed
      else Got([], Reader(Next(f, r) + 1, Skipped(f, r.fetched, Next(f, r), 2)))
  {
    hide LookAhead, KeyFrom, Skipped;
    LookAheadIs(f, r);
    var a := LookAhead(f, r);
    if a.position < Next(f, r) {
      NothingDecoded(f, a);
    } else {
      assert Current(f, a) == Some('}') && ObjectAt(f, a) == Got([], Bump(f, a));
    }
  }

  lemma {:induction false} NextMemberExact(f: File, r: Reader, a: Reader)
    requires Ahead(f, r, a) && f.text[Next(f, r)] != ',' && f.text[Next(f, r)] != '}'
    ensures AfterValueFrom(f, r) == Joined(AfterValue(f.text, r.position), AfterReads(f, r.position, r.fetched))
    decreases |f.text| - Next(f, r), 2
  {
    hide ObjectEntries, MemberReads, LookAhead, Skipped, ObjectAt;
    var q := Next(f, r);
    SkippedMore(f, r.fetched, q);
    LookAheadIs(f, a);
    MemberExact(f, LookAhead(f, a));
    assert AfterValueAt(f, a) == ObjectFrom(f, a) == ObjectAt(f, LookAhead(f, a));
  }

  lemma {:induction false} SkillsExact(f: File, r: Reader)
    requires Ok(f, r)
    ensures SkillsFrom(f, r) == Joined(SkillsValue(f.text, r.position), SkillsReads(f, r.position, r.fetched))
    decreases |f.text| - r.position, 3
  {
    hide SkillsAt, SkillsValue, SkillsReads, LookAhead, Skipped;
    var v := Next(f, r);
    if v == |f.text| {
      NothingAtEnd(f, r);
      assert SkillsValue(f.text, r.position).Malformed? by { EndIsMalformed(f.text, r.position); }
    } else {
      LookAheadIs(f, r);
      var a := LookAhead(f, r);
      if f.text[v] != '[' {
        NoArrayExact(f, r, a);
      } else if a.position == v {
        SkillsArrayExact(f, r, a);
      } else {
        SkippedArrayExact(f, r, a);
      }
    }
  }

  lemma {:induction false} EndIsMalformed(s: string, p: nat)
    requires p <= |s| && SkipSpace(s, p) == |s|
    ensures SkillsValue(s, p).Malformed?
  {
  }

  lemma {:induction false} SkillsArrayExact(f: File, r: Reader, a: Reader)
    requires Ahead(f, r, a) && f.text[Next(f, r)] == '[' && a.position == Next(f, r)
    ensures SkillsAt(f, a) == Joined(SkillsValue(f.text, r.position), SkillsReads(f, r.position, r.fetched))
    decreases |f.text| - r.position, 2
  {
    hide ArrayFrom, ArrayValues, ArrayReads, AfterValueFrom, AfterValue, AfterReads, LookAhead, Skipped, ParseValue;
    var v := Next(f, r);
    ArrayExact(f, Bump(f, a));
    match (ArrayValues(f.text, v + 1), ArrayReads(f, v + 1, a.fetched)) {
      case (Found(entries, end), Some(n)) =>
        assert ArrayFrom(f, Bump(f, a)) == Got(entries, Reader(end, n));
        AfterExact(f, Reader(end, n));
        JoinedPrefix(entries, AfterValue(f.text, end), AfterReads(f, end, n));
      case _ =>
    }
  }

  lemma {:induction false} NoArrayExact(f: File, r: Reader, a: Reader)
    requires Ahead(f, r, a) && f.text[Next(f, r)] != '['
    ensures SkillsAt(f, a) == Joined(SkillsValue(f.text, r.position), SkillsReads(f, r.position, r.fetched))
    decreases |f.text| - r.position, 2
  {
    hide SkillsAt, ObjectFrom, ObjectEntries, ObjectReads, LookAhead, Skipped, ParseValue, Decode, ValueReads;
    var v := Next(f, r);
    DecodeIs(f, a);
    match ValueReads(f, a.fetched, v) {
      case None =>
        if Decode(f, a).Got? {
          NothingBehindCutNumber(f, Decode(f, a).reader);
        }
        SkillsPassedOver(f, a);
      case Some(n) =>
        ValueKind(f.text, v);
        SkillsPassedOver(f, a);
        ObjectExact(f, Reader(ParseValue(f.text, v).end, n));
    }
  }

  /** An array that is taken for another value yields its entries, if it is one to the decoder and no comma follows. */
  lemma {:induction false} SkippedArrayExact(f: File, r: Reader, a: Reader)
    requires Ahead(f, r, a) && f.text[Next(f, r)] == '[' && a.position < Next(f, r)
    ensures SkillsAt(f, a) == Joined(SkillsValue(f.text, r.position), SkillsReads(f, r.position, r.fetched))
    decreases |f.text| - r.position, 2
  {
    hide SkillsAt, ObjectFrom, ObjectEntries, ObjectReads, AfterValue, LookAhead, Skipped, ParseValue, Decode,
      ValueReads, SkillsValue;
    var v := Next(f, r);
    DecodeIs(f, a);
    match ValueReads(f, a.fetched, v) {
      case None =>
        NoArrayCutNumber(f, a);
        SkippedArrayRead(f, a);
      case Some(n) =>
        var Parsed(list, end) := ParseValue(f.text, v);
        SkippedArrayInText(f.text, r.position);
        SkippedArrayRead(f, a);
        ObjectExact(f, Reader(end, n));
        EntriesBehind(f.text, end);
        if Is(f.text, SkipSpace(f.text, end), ',') {
          CommaBehind(f, end, n);
        }
        JoinedPrefix(list.elements, ObjectEntries(f.text, end), ObjectReads(f, end, n));
    }
  }

  lemma {:induction false} NoArrayCutNumber(f: File, a: Reader)
    requires Ok(f, a) && Is(f.text, Next(f, a), '[') && ValueReads(f, a.fetched, Next(f, a)).None?
    ensures Decode(f, a).Failed?
  {
    DecodeIs(f, a);
    DecodeAgrees(f, a);
    if ParseValue(f.text, Next(f, a)).Parsed? {
      ValueKind(f.text, Next(f, a));
    }
  }

  lemma {:induction false} CommaBehind(f: File, end: nat, k: nat)
    requires end <= |f.text| && Is(f.text, SkipSpace(f.text, end), ',')
    ensures ObjectReads(f, end, k).None?
  {
    var q := SkipSpace(f.text, end);
    if ParseValue(f.text, q).Parsed? {
      ValueStartsOnNonSpace(f.text, q);
    }
  }

  /** Whatever is no bracket is decoded as a value, and a list is taken as it is. */
  lemma {:induction false} SkippedArrayRead(f: File, a: Reader)
    requires Ok(f, a) && Current(f, a).Some? && Current(f, a) != Some('[')
    requires Decode(f, a).Got? ==> Decode(f, a).value.Array?
    ensures SkillsAt(f, a) ==
      if Decode(f, a).Failed? || !AllObjects(Decode(f, a).value.elements) then Failed
      else Prefixed(Decode(f, a).value.elements, ObjectFrom(f, Decode(f, a).reader))
  {
  }

  lemma {:induction false} SkippedArrayInText(s: string, p: nat)
    requires p <= |s| && Is(s, SkipSpace(s, p), '[') && ParseValue(s, SkipSpace(s, p)).Parsed?
    ensures ParseValue(s, SkipSpace(s, p)).value.Array?
    ensures var Parsed(a, end) := ParseValue(s, SkipSpace(s, p));
      SkillsValue(s, p) == if AllObjects(a.elements) then Prepend(a.elements, AfterValue(s, end)) else Malformed
  {
    ValueKind(s, SkipSpace(s, p));
    ArrayScan(s, SkipSpace(s, p));
  }

  /** What a reader that skips the comma finds behind a value, compared with one that does not. */
  lemma {:induction false} EntriesBehind(s: string, end: nat)
    requires end <= |s|
    ensures if Is(s, SkipSpace(s, end), ',') then ObjectEntries(s, end).Malformed?
      else ObjectEntries(s, end) == AfterValue(s, end)
  {
    if Is(s, SkipSpace(s, end), ',') && ParseValue(s, SkipSpace(s, end)).Parsed? {
      ValueStartsOnNonSpace(s, SkipSpace(s, end));
    }
  }

  // ---------------------------------------------------------------------------
  // The whole file
  // ---------------------------------------------------------------------------

  /** Main result, for every text and every cut: the reader returns what the scan of the text finds exactly if the reads
      made on the way suffice, and fails else. */
  lemma {:induction false} ReadsExactly(f: File)
    ensures TopLevelFrom(f) == Joined(TopLevel(f.text), TopReads(f))
  {
    hide ArrayFrom, ObjectFrom, ArrayValues, ObjectEntries, ArrayReads, ObjectReads, LookAhead;
    var r := Fill(f, START);
    var q := Next(f, r);
    if q == |f.text| {
      LookAheadExact(f, r);
      BlankUpToEnd(f, r, LookAhead(f, r));
    } else {
      assert r == Reader(0, 1);
      LookAheadIs(f, r);
      var a := LookAhead(f, r);
      if a.position == q && f.text[q] == '[' {
        ArrayExact(f, Bump(f, a));
      } else if a.position == q && f.text[q] == '{' {
        ObjectExact(f, Bump(f, a));
      }
    }
  }

  /** So in no cut of any text does the reader return anything but what the text holds. */
  lemma {:induction false} NeverWrong(f: File)
    ensures TopLevelFrom(f).Got? ==> TopLevel(f.text).Found? && TopLevelFrom(f).value == TopLevel(f.text).entries
  {
    ReadsExactly(f);
  }
}
