/** The incremental reader of skills_index.json as functions on its state, and how far one look-ahead or decode gets.
    Models `_StreamingJSONReader` of backend/app/api/skills_marketplace.py. */
module StreamingJson {
  import opened Models
  import opened Json
  import opened SkillsIndex

  // ---------------------------------------------------------------------------
  // A file and the reads it answers
  // ---------------------------------------------------------------------------

  /** `ends[k]` characters have been returned by the first k reads; after the last of them a read returns nothing. */
  datatype Cut = Cut(text: string, ends: seq<nat>)

  predicate IsCut(f: Cut) {
    && |f.ends| > 0 && f.ends[0] == 0 && f.ends[|f.ends| - 1] == |f.text|
    && forall i, j :: 0 <= i < j < |f.ends| ==> f.ends[i] < f.ends[j]
  }

  type File = f: Cut | IsCut(f) witness Cut("", [0])

  /** How many characters the first reads have returned. */
  function Loaded(f: File, fetched: nat): (n: nat)
    ensures n <= |f.text|
  {
    var last := |f.ends| - 1;
    assert fetched < last ==> f.ends[fetched] < f.ends[last];
    f.ends[if fetched <= last then fetched else last]
  }

  lemma {:induction false} LoadedGrows(f: File, fetched: nat)
    requires fetched < |f.ends|
    ensures Loaded(f, fetched) < Loaded(f, fetched + 1) || (fetched == |f.ends| - 1 && Loaded(f, fetched) == |f.text|)
    ensures Loaded(f, fetched) <= Loaded(f, fetched + 1)
  {
  }

  // ---------------------------------------------------------------------------
  // The reader, as a function on its state
  // ---------------------------------------------------------------------------

  datatype Reader = Reader(position: nat, fetched: nat)

  datatype Read<+T> = Got(value: T, reader: Reader) | Failed

  predicate Ok(f: File, r: Reader) { r.fetched <= |f.ends| && r.position <= Loaded(f, r.fetched) }
  predicate Eof(f: File, r: Reader) { r.fetched == |f.ends| }
  predicate AtEnd(f: File, r: Reader) { r.position >= Loaded(f, r.fetched) }
  function Buffer(f: File, r: Reader): string { f.text[..Loaded(f, r.fetched)] }

  predicate Later(f: File, r1: Reader, r2: Reader) {
    Ok(f, r2) && r1.position <= r2.position && r1.fetched <= r2.fetched
  }

  /** `_fill_buffer`. */
  function Fill(f: File, r: Reader): (r': Reader)
    requires Ok(f, r)
    ensures Later(f, r, r') && r'.position == r.position
    ensures !Eof(f, r) ==> r'.fetched == r.fetched + 1
    ensures AtEnd(f, r') ==> Eof(f, r') || !AtEnd(f, r)
  {
    if Eof(f, r) then r
    else LoadedGrows(f, r.fetched); r.(fetched := r.fetched + 1)
  }

  /** `_skip_whitespace`: when it has to read, it returns at the start of what it has read, white space or not. */
  function Skip(f: File, r: Reader): (r': Reader)
    requires Ok(f, r)
    ensures Later(f, r, r')
    ensures AtEnd(f, r') ==> Eof(f, r')
  {
    var p := SkipSpace(Buffer(f, r), r.position);
    if p < Loaded(f, r.fetched) then r.(position := p) else Fill(f, r.(position := p))
  }

  /** The character under the position, if any has been read. */
  function Current(f: File, r: Reader): Option<char> {
    if AtEnd(f, r) then None else Some(f.text[r.position])
  }

  /** A skip and then a peek, which skips again: the pair with which every loop looks ahead. */
  function LookAhead(f: File, r: Reader): (r': Reader)
    requires Ok(f, r)
    ensures Later(f, r, r')
    ensures AtEnd(f, r') ==> Eof(f, r')
  {
    Skip(f, Skip(f, r))
  }

  function Bump(f: File, r: Reader): (r': Reader)
    requires Ok(f, r) && !AtEnd(f, r)
    ensures Later(f, r, r')
  {
    r.(position := r.position + 1)
  }

  /** The retry loop of `_decode_value`. */
  function DecodeLoop(f: File, r: Reader): (d: Read<Value>)
    requires Ok(f, r)
    ensures d.Got? ==> Later(f, r, d.reader) && r.position < d.reader.position
    decreases |f.ends| - r.fetched
  {
    match ParseValue(Buffer(f, r), r.position)
    case Parsed(v, end) => Got(v, r.(position := end))
    case Invalid =>
      if Eof(f, r) then Failed
      else
        var next := Skip(f, Fill(f, r));
        if AtEnd(f, next) && Eof(f, next) then Failed else DecodeLoop(f, next)
  }

  /** `_decode_value`. */
  function Decode(f: File, r: Reader): (d: Read<Value>)
    requires Ok(f, r)
    ensures d.Got? ==> Later(f, r, d.reader) && r.position < d.reader.position
  {
    DecodeLoop(f, Skip(f, r))
  }

  /** `_consume_char`. */
  function ConsumeChar(f: File, r: Reader, expected: char): (d: Read<()>)
    requires Ok(f, r)
    ensures d.Got? ==> Later(f, r, d.reader) && r.position < d.reader.position
  {
    var s1 := Skip(f, r);
    var s2 := if AtEnd(f, s1) then Skip(f, Fill(f, s1)) else s1;
    if Current(f, s2) == Some(expected) then Got((), Bump(f, s2)) else Failed
  }

  function Prefixed<T>(entries: seq<T>, read: Read<seq<T>>): Read<seq<T>> {
    if read.Got? then Got(entries + read.value, read.reader) else Failed
  }

  /** `_read_array_values`. */
  function ArrayFrom(f: File, r: Reader): (d: Read<seq<Value>>)
    requires Ok(f, r)
    ensures d.Got? ==> Later(f, r, d.reader) && r.position < d.reader.position
    decreases |f.text| - r.position, 1
  {
    ArrayAt(f, LookAhead(f, r))
  }

  /** One round of its loop, once the look-ahead is done. */
  function ArrayAt(f: File, a: Reader): (d: Read<seq<Value>>)
    requires Ok(f, a)
    ensures d.Got? ==> Later(f, a, d.reader) && a.position < d.reader.position
    decreases |f.text| - a.position, 0
  {
    match Current(f, a)
    case None => Failed
    case Some(c) =>
      if c == ']' then Got([], Bump(f, a))
      else if c == ',' then ArrayFrom(f, Bump(f, a))
      else match Decode(f, a)
        case Failed => Failed
        case Got(v, d) => if v.Object? then Prefixed([v], ArrayFrom(f, d)) else Failed
  }

  /** A key and its colon. */
  function KeyFrom(f: File, r: Reader): (d: Read<seq<int>>)
    requires Ok(f, r)
    ensures d.Got? ==> Later(f, r, d.reader) && r.position < d.reader.position
  {
    match Decode(f, r)
    case Failed => Failed
    case Got(key, d) =>
      if !key.String? then Failed
      else match ColonFrom(f, d)
        case Failed => Failed
        case Got(_, c) => Got(key.codes, c)
  }

  function ColonFrom(f: File, r: Reader): (d: Read<()>)
    requires Ok(f, r)
    ensures d.Got? ==> Later(f, r, d.reader) && r.position < d.reader.position
  {
    var a := LookAhead(f, r);
    if Current(f, a) == Some(':') then Got((), Bump(f, a)) else ConsumeChar(f, a, ':')
  }

  /** `_read_skills_from_object`. */
  function ObjectFrom(f: File, r: Reader): (d: Read<seq<Value>>)
    requires Ok(f, r)
    ensures d.Got? ==> Later(f, r, d.reader) && r.position < d.reader.position
    decreases |f.text| - r.position, 3
  {
    ObjectAt(f, LookAhead(f, r))
  }

  function ObjectAt(f: File, a: Reader): (d: Read<seq<Value>>)
    requires Ok(f, a)
    ensures d.Got? ==> Later(f, a, d.reader) && a.position < d.reader.position
    decreases |f.text| - a.position, 2
  {
    match Current(f, a)
    case None => Failed
    case Some(c) =>
      if c == '}' then Got([], Bump(f, a))
      else match KeyFrom(f, a)
        case Failed => Failed
        case Got(key, k) => if key == SKILLS then SkillsFrom(f, k) else OtherFrom(f, k)
  }

  /** The value of a `skills` member. */
  function SkillsFrom(f: File, r: Reader): (d: Read<seq<Value>>)
    requires Ok(f, r)
    ensures d.Got? ==> Later(f, r, d.reader) && r.position < d.reader.position
    decreases |f.text| - r.position, 1
  {
    SkillsAt(f, LookAhead(f, r))
  }

  function SkillsAt(f: File, a: Reader): (d: Read<seq<Value>>)
    requires Ok(f, a)
    ensures d.Got? ==> Later(f, a, d.reader) && a.position < d.reader.position
    decreases |f.text| - a.position, 0
  {
    match Current(f, a)
    case None => Failed
    case Some(c) =>
      if c == '[' then
        match ArrayFrom(f, Bump(f, a))
        case Failed => Failed
        case Got(entries, d) => Prefixed(entries, AfterValueFrom(f, d))
      else
        match Decode(f, a)
        case Failed => Failed
        case Got(v, d) =>
          if v.Array? && !AllObjects(v.elements) then Failed
          else Prefixed(if v.Array? then v.elements else [], ObjectFrom(f, d))
  }

  /** The value of any other member. */
  function OtherFrom(f: File, r: Reader): (d: Read<seq<Value>>)
    requires Ok(f, r)
    ensures d.Got? ==> Later(f, r, d.reader) && r.position < d.reader.position
    decreases |f.text| - r.position, 0
  {
    match Decode(f, r)
    case Failed => Failed
    case Got(_, d) => AfterValueFrom(f, d)
  }

  function AfterValueFrom(f: File, r: Reader): (d: Read<seq<Value>>)
    requires Ok(f, r)
    ensures d.Got? ==> Later(f, r, d.reader) && r.position < d.reader.position
    decreases |f.text| - r.position, 5
  {
    AfterValueAt(f, LookAhead(f, r))
  }

  function AfterValueAt(f: File, a: Reader): (d: Read<seq<Value>>)
    requires Ok(f, a)
    ensures d.Got? ==> Later(f, a, d.reader) && a.position < d.reader.position
    decreases |f.text| - a.position, 4
  {
    if Current(f, a) == Some('}') then Got([], Bump(f, a))
    else if Current(f, a) == Some(',') then ObjectFrom(f, Bump(f, a))
    else ObjectFrom(f, a)
  }

  const START := Reader(0, 0)

  /** `read_top_level_entries` on a freshly opened file. */
  function TopLevelFrom(f: File): Read<seq<Value>> {
    TopLevelAt(f, LookAhead(f, Fill(f, START)))
  }

  function TopLevelAt(f: File, a: Reader): Read<seq<Value>>
    requires Ok(f, a)
  {
    if Current(f, a) == Some('[') then ArrayFrom(f, Bump(f, a))
    else if Current(f, a) == Some('{') then ObjectFrom(f, Bump(f, a))
    else Failed
  }

  // ---------------------------------------------------------------------------
  // How far a look-ahead gets
  // ---------------------------------------------------------------------------

  lemma {:induction false} SkipSpaceInPrefix(s: string, n: nat, i: nat)
    requires i <= n <= |s|
    ensures SkipSpace(s[..n], i) == if SkipSpace(s, i) < n then SkipSpace(s, i) else n
    decreases n - i
  {
    if i < n && IsSpace(s[i]) {
      SkipSpaceInPrefix(s, n, i + 1);
    }
  }

  lemma {:induction false} SkipSpaceBetween(s: string, i: nat, j: nat)
    requires i <= |s| && i <= j <= SkipSpace(s, i)
    ensures SkipSpace(s, j) == SkipSpace(s, i)
  {
    SkipSpaceRun(s, i);
    SkipSpaceFrom(s, i, j);
  }

  /** The next character that counts. */
  function Next(f: File, r: Reader): (q: nat)
    requires Ok(f, r)
    ensures r.position <= q <= |f.text|
  {
    SkipSpace(f.text, r.position)
  }

  /** A skip stops at the next character that counts if it has been read, else where its one read begins. */
  lemma {:induction false} SkipExact(f: File, r: Reader)
    requires Ok(f, r)
    ensures Skip(f, r) ==
      if Next(f, r) < Loaded(f, r.fetched) then r.(position := Next(f, r))
      else Reader(Loaded(f, r.fetched), if Eof(f, r) then r.fetched else r.fetched + 1)
    ensures Next(f, Skip(f, r)) == Next(f, r)
  {
    SkipSpaceInPrefix(f.text, Loaded(f, r.fetched), r.position);
    SkipSpaceBetween(f.text, r.position, Skip(f, r).position);
  }

  /** The run of white space that a look-ahead does not get through: it fills the chunk after the buffer and goes on
      in the chunk after that. */
  predicate BlankRun(f: File, r: Reader)
    requires Ok(f, r)
  {
    r.fetched + 2 < |f.ends| && Next(f, r) > f.ends[r.fetched + 1]
  }

  /** Exactly when a look-ahead reaches the next character that counts. */
  lemma {:induction false} LookAheadExact(f: File, r: Reader)
    requires Ok(f, r)
    ensures LookAhead(f, r).position == Next(f, r) <==> !BlankRun(f, r)
    ensures Next(f, LookAhead(f, r)) == Next(f, r)
  {
    SkipExact(f, r);
    SkipExact(f, Skip(f, r));
    if Next(f, r) >= Loaded(f, r.fetched) && r.fetched + 1 < |f.ends| {
      LoadedGrows(f, r.fetched);
      LoadedGrows(f, r.fetched + 1);
    }
  }

  predicate Blank(s: string, from: nat, to: nat)
    requires to <= |s|
  {
    forall i :: from <= i < to ==> IsSpace(s[i])
  }

  /** No chunk of nothing but white space is followed by a chunk that starts with white space. */
  predicate GoodCut(f: File) {
    forall k: nat | k + 2 < |f.ends| :: !BadChunk(f, k)
  }

  predicate BadChunk(f: File, k: nat)
    requires k + 2 < |f.ends|
  {
    assert f.ends[k + 1] < f.ends[k + 2] <= |f.text| by {
      LoadedGrows(f, k + 1);
      assert f.ends[k + 2] == Loaded(f, k + 2);
    }
    Blank(f.text, f.ends[k], f.ends[k + 1]) && IsSpace(f.text[f.ends[k + 1]])
  }

  lemma {:induction false} GoodCutHasNoBlankRun(f: File, r: Reader)
    requires Ok(f, r) && GoodCut(f)
    ensures !BlankRun(f, r)
  {
    if BlankRun(f, r) {
      SkipSpaceRun(f.text, r.position);
      assert BadChunk(f, r.fetched);
    }
  }

  // ---------------------------------------------------------------------------
  // Decoding does not depend on the cut
  // ---------------------------------------------------------------------------

  /** The value a decode yields in any cut: that of the whole text. Where the text has a number, it is the number as far
      as it had been read. */
  predicate DecodedFrom(f: File, q: nat, d: Read<Value>)
    requires q <= |f.text|
  {
    if q < |f.text| && StartsNumber(f.text[q]) then
      && (d.Got? <==> ParseValue(f.text, q).Parsed?)
      && (d.Got? ==> d.value.Number? && NumberSoFar(f, q, d.value, d.reader))
    else match ParseValue(f.text, q)
      case Invalid => d.Failed?
      case Parsed(v, end) => d.Got? && d.value == v && d.reader.position == end
  }

  predicate NumberSoFar(f: File, q: nat, v: Value, r: Reader) {
    Ok(f, r) && q <= r.position && ParseValue(Buffer(f, r), q) == Parsed(v, r.position)
  }

  /** What has been parsed in the buffer is what the whole text has there, numbers as far as they have been read. */
  lemma {:induction false} ParsedInBuffer(f: File, r: Reader)
    requires Ok(f, r) && ParseValue(Buffer(f, r), r.position).Parsed?
    ensures r.position == Next(f, r) < |f.text|
    ensures if StartsNumber(f.text[r.position])
            then ParseValue(Buffer(f, r), r.position).value.Number? && ParseValue(f.text, r.position).Parsed?
            else ParseValue(Buffer(f, r), r.position) == ParseValue(f.text, r.position)
  {
    var n := Loaded(f, r.fetched);
    ValueStartsOnNonSpace(Buffer(f, r), r.position);
    ValueKind(Buffer(f, r), r.position);
    SkipSpaceStays(f.text, r.position);
    assert f.text == f.text[..n] + f.text[n..];
    if StartsNumber(f.text[r.position]) {
      NumberGoesOn(f.text, n, r.position);
    } else {
      ValueStable(f.text[..n], f.text[n..], r.position);
    }
  }

  /** Where a prefix has a number the text has one, which may be longer. */
  lemma {:induction false} NumberGoesOn(s: string, n: nat, i: nat)
    requires i < n <= |s| && StartsNumber(s[i]) && ParseValue(s[..n], i).Parsed?
    ensures ParseValue(s, i).Parsed?
  {
    hide SkipDigits, FracEnd, ExpEnd, ParseStringBody, ParseMembers, ParseElements;
    WordFirst(s[..n], i, "null");
    WordFirst(s[..n], i, "true");
    WordFirst(s[..n], i, "false");
    WordFirst(s, i, "null");
    WordFirst(s, i, "true");
    WordFirst(s, i, "false");
    var start := if Is(s, i, '-') then i + 1 else i;
    assert ParseNumber(s[..n], i).Parsed?;
    FirstDigit(s[..n], start);
    FirstDigit(s, start);
  }

  lemma {:induction false} FirstDigit(s: string, i: nat)
    requires i <= |s|
    ensures IntEnd(s, i) > i <==> i < |s| && IsDigit(s[i])
  {
  }

  lemma {:induction false} DecodeLoopAgrees(f: File, r: Reader)
    requires Ok(f, r) && (Eof(f, r) ==> r.position == Next(f, r))
    ensures DecodedFrom(f, Next(f, r), DecodeLoop(f, r))
    decreases |f.ends| - r.fetched
  {
    match ParseValue(Buffer(f, r), r.position) {
      case Parsed(v, end) =>
        ParsedInBuffer(f, r);
      case Invalid =>
        if Eof(f, r) {
          assert Buffer(f, r) == f.text;
        } else {
          var filled := Fill(f, r);
          var next := Skip(f, filled);
          SkipExact(f, filled);
          if AtEnd(f, next) && Eof(f, next) {
            assert Next(f, r) == |f.text|;
          } else {
            DecodeLoopAgrees(f, next);
          }
        }
    }
  }

  /** However the text is cut, `_decode_value` finds the value that the whole text has there, or none where it has none;
      of a number it takes what has been read. */
  lemma {:induction false} DecodeAgrees(f: File, r: Reader)
    requires Ok(f, r)
    ensures DecodedFrom(f, Next(f, r), Decode(f, r))
  {
    SkipExact(f, r);
    DecodeLoopAgrees(f, Skip(f, r));
  }

  /** A `skills` value that is no array is passed over. */
  lemma {:induction false} SkillsPassedOver(f: File, a: Reader)
    requires Ok(f, a) && Current(f, a).Some? && Current(f, a) != Some('[')
    requires Decode(f, a).Got? ==> !Decode(f, a).value.Array?
    ensures SkillsAt(f, a) == if Decode(f, a).Got? then ObjectFrom(f, Decode(f, a).reader) else Failed
  {
    if Decode(f, a).Got? {
      var o := ObjectFrom(f, Decode(f, a).reader);
      assert o.Got? ==> [] + o.value == o.value;
    }
  }

  // ---------------------------------------------------------------------------
  // When the cut is good
  // ---------------------------------------------------------------------------

  /** Every read but the last returns as many characters as were asked for. */
  predicate CutEvery(f: File, size: nat) {
    forall k: nat | k + 2 < |f.ends| :: f.ends[k + 1] == f.ends[k] + size
  }

  /** No read returns more characters than were asked for. */
  predicate CutAtMost(f: File, size: nat) {
    forall k: nat | k + 1 < |f.ends| :: f.ends[k + 1] <= f.ends[k] + size
  }

  /** No run of white space is longer than a chunk. */
  predicate ShortBlanks(s: string, size: nat) {
    forall i: nat, j: nat | i + size < j <= |s| :: !Blank(s, i, j)
  }

  lemma {:induction false} ShortBlanksGiveGoodCut(f: File, size: nat)
    requires CutEvery(f, size) && ShortBlanks(f.text, size)
    ensures GoodCut(f)
  {
    forall k: nat | k + 2 < |f.ends| ensures !BadChunk(f, k) {
      LoadedGrows(f, k + 1);
      assert f.ends[k] + size < |f.text|;
      assert !Blank(f.text, f.ends[k], f.ends[k] + size + 1);
    }
  }
}
