/** What that means for cuts in which no chunk is all white space and no number is cut, and for the reads of the
    program. */
module StreamingChunks {
  import opened Models
  import opened Json
  import JsonText
  import opened SkillsIndex
  import opened StreamingJson
  import opened StreamingCuts
  import opened StreamingBreaks

  // ---------------------------------------------------------------------------
  // Good cuts
  // ---------------------------------------------------------------------------

  /** In a good cut that keeps the numbers whole, the reader fails only on a text that is malformed for it. */
  lemma {:induction false} ReadingIgnoresTheCut(f: File)
    requires GoodCut(f) && Kept(f, TopNumbers(f.text))
    ensures TopLevelFrom(f).Got? <==> TopLevel(f.text).Found?
    ensures TopLevelFrom(f).Got? ==> TopLevelFrom(f).value == TopLevel(f.text).entries
  {
    hide TopLevelFrom, TopLevel, TopReads;
    ReadsExactly(f);
    if TopLevel(f.text).Found? {
      TopPassed(f, true);
    }
  }

  /** So two such cuts of one text give the same entries, or both fail. */
  lemma {:induction false} GoodCutsAgree(f: File, g: File)
    requires f.text == g.text && GoodCut(f) && GoodCut(g)
    requires Kept(f, TopNumbers(f.text)) && Kept(g, TopNumbers(g.text))
    ensures TopLevelFrom(f).Failed? <==> TopLevelFrom(g).Failed?
    ensures TopLevelFrom(f).Got? ==> TopLevelFrom(f).value == TopLevelFrom(g).value
  {
    ReadingIgnoresTheCut(f);
    ReadingIgnoresTheCut(g);
  }

  /** On valid JSON, in every cut: the reader returns what parsing the whole text gives exactly for an array of objects
      and for an object whose `skills` members leave no doubt, if the reads suffice; for every document it returns
      `DocumentEntries` or fails. */
  lemma {:induction false} ReadsValidDocument(f: File)
    requires ParseDocument(f.text).Parsed?
    ensures var doc := ParseDocument(f.text).value;
      && (TopLevelFrom(f).Got? <==> DocumentEntries(doc).Some? && TopReads(f).Some?)
      && (TopLevelFrom(f).Got? ==> TopLevelFrom(f).value == DocumentEntries(doc).value)
      && (TopLevelFrom(f).Got? && TopLevelFrom(f).value == Coerced(doc) <==> SameEntries(doc) && TopReads(f).Some?)
  {
    hide TopLevelFrom, TopLevel, TopReads;
    DocumentScan(f.text);
    ReadsExactly(f);
    ReaderMatchesParse(ParseDocument(f.text).value);
  }

  /** A document in whatever spelling, in every cut: the entries are those of the value that is written, if the reads
      suffice. */
  lemma {:induction false} ReadsWrittenDocument(f: File, d: JsonText.Document)
    requires JsonText.WellDocument(d) && f.text == JsonText.DocumentSpelled(d)
    ensures var doc := JsonText.Says(d.value);
      && (TopLevelFrom(f).Got? <==> DocumentEntries(doc).Some? && TopReads(f).Some?)
      && (TopLevelFrom(f).Got? ==> TopLevelFrom(f).value == DocumentEntries(doc).value)
  {
    JsonText.WrittenIsParsed(d);
    ReadsValidDocument(f);
  }

  /** The key that the reader looks for is written "skills". */
  lemma {:induction false} SkillsIsSpelled()
    ensures var chars := [JsonText.Plain('s'), JsonText.Plain('k'), JsonText.Plain('i'), JsonText.Plain('l'),
        JsonText.Plain('l'), JsonText.Plain('s')];
      && JsonText.WellChars(chars) && JsonText.Quoted(chars) == "\"skills\"" && JsonText.CharsSay(chars) == SKILLS
  {
    var chars := [JsonText.Plain('s'), JsonText.Plain('k'), JsonText.Plain('i'), JsonText.Plain('l'),
      JsonText.Plain('l'), JsonText.Plain('s')];
    assert chars[1..][1..][1..][1..][1..] == [JsonText.Plain('s')];
  }

  predicate NoNumbers(ms: seq<Member>) {
    forall m | m in ms :: !m.value.Number?
  }

  predicate NumberFree(doc: Value) {
    doc.Object? ==> NoNumbers(doc.members)
  }

  /** A valid document without numbers for members has none that a cut could break. */
  lemma {:induction false} NumberFreeIsKept(f: File)
    requires ParseDocument(f.text).Parsed? && NumberFree(ParseDocument(f.text).value)
    ensures Kept(f, TopNumbers(f.text))
  {
    var s := f.text;
    var i := SkipWs(s, 0);
    ValueStartsOnNonSpace(s, i);
    ValueKind(s, i);
    SkipWsThenSpace(s, 0);
    SkipSpaceStays(s, i);
    if s[i] == '{' {
      var j := SkipWs(s, i + 1);
      SkipWsThenSpace(s, i + 1);
      SameNumbers(s, i + 1);
      if !Is(s, j, '}') {
        MembersNumbers(s, j);
      }
    }
  }

  lemma {:induction false} SameNumbers(s: string, i: nat)
    requires i <= |s|
    ensures ObjectNumbers(s, i) == ObjectNumbers(s, SkipWs(s, i))
  {
    SkipWsThenSpace(s, i);
  }

  lemma {:induction false} MembersNumbers(s: string, i: nat)
    requires i <= |s| && ParseMembers(s, i).Parsed? && NoNumbers(ParseMembers(s, i).value)
    ensures ObjectNumbers(s, i) == {}
    decreases |s| - i, 1
  {
    hide ParseValue, ArrayValues;
    var Parsed(m, end) := ParseMember(s, i);
    assert m == ParseMembers(s, i).value[0];
    KeyAtMember(s, i);
    SkipSpaceStays(s, i);
    MemberNumbers(s, i);
    BehindMember(s, m, end);
  }

  /** The value of a member that is no number adds none. */
  lemma {:induction false} MemberNumbers(s: string, i: nat)
    requires i <= |s| && ParseMember(s, i).Parsed? && !ParseMember(s, i).value.value.Number?
    requires KeyAt(s, i) == Parsed(ParseMember(s, i).value.key, BehindColon(s, i)) && SkipSpace(s, i) == i
    ensures ObjectNumbers(s, i) <= AfterNumbers(s, ParseMember(s, i).end) + ObjectNumbers(s, ParseMember(s, i).end)
  {
    hide ParseMember, ParseValue;
    var p := BehindColon(s, i);
    var v := SkipWs(s, p);
    ValueOfMember(s, i);
    ValueKind(s, v);
    ValueStartsOnNonSpace(s, v);
    SkipWsThenSpace(s, p);
    SkipSpaceStays(s, v);
    if s[v] == '[' {
      ArrayScan(s, v);
    }
  }

  lemma {:induction false} BehindMember(s: string, m: Member, end: nat)
    requires end <= |s| && AfterMember(s, m, end).Parsed? && NoNumbers(AfterMember(s, m, end).value)
    ensures AfterNumbers(s, end) == {} && ObjectNumbers(s, end) == {}
    decreases |s| - end, 2
  {
    hide ObjectNumbers, AfterNumbers, ParseValue;
    var j := SkipWs(s, end);
    NumbersBehind(s, end);
    if !Is(s, j, '}') {
      MoreMembers(s, m, end);
      var rest := ParseMembers(s, SkipWs(s, j + 1)).value;
      assert forall x | x in rest :: x in [m] + rest;
      SameNumbers(s, j + 1);
      MembersNumbers(s, SkipWs(s, j + 1));
    }
  }

  lemma {:induction false} NumbersBehind(s: string, end: nat)
    requires end <= |s|
    ensures Is(s, SkipWs(s, end), '}') ==> AfterNumbers(s, end) == {} && ObjectNumbers(s, end) == {}
    ensures Is(s, SkipWs(s, end), ',') ==>
      AfterNumbers(s, end) == ObjectNumbers(s, SkipWs(s, end) + 1) && ObjectNumbers(s, end) == {}
  {
    var j := SkipWs(s, end);
    SkipWsThenSpace(s, end);
    if j < |s| && ParseValue(s, j).Parsed? {
      ValueStartsOnNonSpace(s, j);
    }
  }

  // ---------------------------------------------------------------------------
  // The reads of the program
  // ---------------------------------------------------------------------------

  /** SKILLS_INDEX_READ_CHUNK_BYTES. */
  const CHUNK_SIZE: nat := 16 * 1024

  /** Reads of that many characters find everything, if no run of white space is longer and no number is cut. */
  lemma {:induction false} ReadInChunks(f: File)
    requires CutEvery(f, CHUNK_SIZE) && ShortBlanks(f.text, CHUNK_SIZE) && TopLevel(f.text).Found?
    requires Kept(f, TopNumbers(f.text))
    ensures TopLevelFrom(f).Got? && TopLevelFrom(f).value == TopLevel(f.text).entries
  {
    ShortBlanksGiveGoodCut(f, CHUNK_SIZE);
    ReadingIgnoresTheCut(f);
  }

  predicate BlankArray(s: string) {
    |s| >= 2 && s[0] == '[' && s[|s| - 1] == ']' && Blank(s, 1, |s| - 1)
  }

  lemma {:induction false} BlankArrayHasNoEntries(s: string)
    requires BlankArray(s)
    ensures SkipSpace(s, 0) == 0 && SkipSpace(s, 1) == |s| - 1 && TopLevel(s) == Found([], |s|)
  {
    SkipSpaceFrom(s, 1, |s| - 1);
  }

  /** The reads of the program find the end of an array with nothing but white space in it exactly if that white space
      is shorter than two chunks. */
  lemma {:induction false} BlankArrayExactly(f: File, size: nat)
    requires BlankArray(f.text) && CutEvery(f, size) && CutAtMost(f, size) && size > 0
    ensures TopLevel(f.text) == Found([], |f.text|)
    ensures TopLevelFrom(f).Got? <==> |f.text| - 2 < 2 * size
  {
    hide TopLevelFrom, TopLevel;
    BlankArrayHasNoEntries(f.text);
    ReadsExactly(f);
    assert 1 < |f.ends| && f.ends[0] < f.ends[1];
    assert 2 < |f.ends| ==> f.ends[1] == f.ends[0] + size;
    assert 3 < |f.ends| ==> f.ends[2] == f.ends[1] + size;
    assert f.ends[1] <= f.ends[0] + size && (2 < |f.ends| ==> f.ends[2] <= f.ends[1] + size);
    assert Gap(f, 1, 0, 2) == Some(1);
    assert TopReads(f) == Gap(f, 1, |f.text| - 1, 2);
  }

  function Blanks(n: nat): (s: string)
    ensures |s| == n && forall i :: 0 <= i < n ==> s[i] == ' '
  {
    seq(n, _ => ' ')
  }

  lemma {:induction false} BlanksSkipped(s: string, i: nat, end: nat)
    requires i <= end < |s| && (forall k :: i <= k < end ==> s[k] == ' ') && !IsWs(s[end])
    ensures SkipWs(s, i) == end
    decreases end - i
  {
    if i < end {
      BlanksSkipped(s, i + 1, end);
    }
  }

  lemma {:induction false} BlankArrayParses(s: string)
    requires |s| >= 2 && s[0] == '[' && (forall k :: 1 <= k < |s| - 1 ==> s[k] == ' ') && s[|s| - 1] == ']'
    ensures ParseDocument(s) == Parsed(Array([]), |s|)
  {
    BlanksSkipped(s, 1, |s| - 1);
    assert SkipWs(s, 0) == 0 && SkipWs(s, |s|) == |s|;
    assert ParseValue(s, 0) == Parsed(Array([]), |s|);
  }

  /** A file that is valid JSON, an array without elements, and that the program cannot read: two chunks of blanks. */
  lemma {:induction false} ProgramFailsOnValidFile()
    ensures var s := "[" + Blanks(2 * CHUNK_SIZE) + "]";
      var f := Cut(s, [0, CHUNK_SIZE, 2 * CHUNK_SIZE, |s|]);
      && IsCut(f) && CutEvery(f, CHUNK_SIZE) && CutAtMost(f, CHUNK_SIZE)
      && ParseDocument(s) == Parsed(Array([]), |s|) && DocumentEntries(Array([])) == Some([])
      && TopLevelFrom(f).Failed?
  {
    hide ParseDocument, TopLevelFrom, TopLevel;
    var s := "[" + Blanks(2 * CHUNK_SIZE) + "]";
    var f: File := Cut(s, [0, CHUNK_SIZE, 2 * CHUNK_SIZE, |s|]);
    BlankArrayExactly(f, CHUNK_SIZE);
    BlankArrayParses(s);
  }

  /** An object whose one member, with an empty key, is the number 12 behind n blanks. */
  function NumberText(n: nat): string {
    "{\"\":" + Blanks(n) + "12}"
  }

  lemma {:induction false} NumberTextTokens(n: nat)
    ensures var s, v := NumberText(n), n + 4;
      && |s| == n + 7 && s[0] == '{' && s[1] == s[2] == '"' && s[3] == ':'
      && s[v] == '1' && s[v + 1] == '2' && s[v + 2] == '}'
      && SkipWs(s, 4) == v && SkipSpace(s, 4) == v
      && ParseValue(s, v) == Parsed(Number(['1', '2']), v + 2) && Enough(s, v) == v + 1
  {
    var s, v := NumberText(n), n + 4;
    assert forall k :: 4 <= k < v ==> s[k] == ' ';
    BlanksSkipped(s, 4, v);
    SkipWsThenSpace(s, 4);
    SkipSpaceStays(s, v);
    WordFirst(s, v, "null");
    WordFirst(s, v, "true");
    WordFirst(s, v, "false");
    assert SkipDigits(s, v + 2) == v + 2 && SkipDigits(s, v + 1) == v + 2 && SkipDigits(s, v) == v + 2;
    assert s[v..v + 2] == ['1', '2'];
  }

  lemma {:induction false} NumberTextParses(n: nat)
    ensures var s := NumberText(n);
      ParseDocument(s) == Parsed(Object([Member([], Number(['1', '2']))]), |s|) && TopBreak(s) == [n + 5]
  {
    hide ParseNumber, HasWord;
    var s, v := NumberText(n), n + 4;
    NumberTextTokens(n);
    assert SkipWs(s, 0) == 0 && SkipWs(s, 1) == 1 && SkipWs(s, 3) == 3;
    assert SkipWs(s, v + 2) == v + 2 && SkipWs(s, v + 3) == v + 3;
    assert SkipSpace(s, 0) == 0 && SkipSpace(s, 1) == 1 && SkipSpace(s, 3) == 3;
    assert ParseStringBody(s, 2) == Parsed([], 3);
    var m := Member([], Number(['1', '2']));
    assert ParseMember(s, 1) == Parsed(m, v + 2);
    assert ParseMembers(s, 1) == Parsed([m], v + 3);
    assert ParseValue(s, 0) == Parsed(Object([m]), v + 3);
    assert ParseValue(s, 1) == Parsed(String([]), 3);
    assert KeyAt(s, 1) == Parsed([], 4);
    assert OtherBreak(s, 4) == [v + 1];
    assert ObjectBreak(s, 1) == [v + 1];
  }

  /** Another: the number is at the end of the first chunk, and its second digit in the next. */
  lemma {:induction false} ProgramFailsOnCutNumber()
    ensures var s := NumberText(CHUNK_SIZE - 5);
      var f := Cut(s, [0, CHUNK_SIZE, |s|]);
      && IsCut(f) && CutEvery(f, CHUNK_SIZE) && CutAtMost(f, CHUNK_SIZE)
      && ParseDocument(s) == Parsed(Object([Member([], Number(['1', '2']))]), |s|)
      && DocumentEntries(ParseDocument(s).value) == Some([])
      && TopLevelFrom(f).Failed?
  {
    hide TopBreak, TopReads, ParseDocument, TopLevelFrom, TopLevel;
    var s := NumberText(CHUNK_SIZE - 5);
    NumberTextTokens(CHUNK_SIZE - 5);
    var f: File := Cut(s, [0, CHUNK_SIZE, |s|]);
    NumberTextParses(CHUNK_SIZE - 5);
    TopStops(f);
    ReadsExactly(f);
  }
}
