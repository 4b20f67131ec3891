/** What the reader of skills_index.json finds in a text, and how that compares with parsing the whole text.
    The scan follows `_read_array_values` and `_read_skills_from_object` of backend/app/api/skills_marketplace.py. */
module SkillsIndex {
  import opened Models
  import opened Json

  /** `str.isspace`, which is wider than the white space of the grammar. */
  predicate IsSpace(c: char) {
    if c <= ' ' then 9 <= c as int <= 13 || 28 <= c as int else c as int >= 0x85 && IsWideSpace(c as int)
  }

  predicate IsWideSpace(n: int) {
    || n == 0x85 || n == 0xA0 || n == 0x1680 || 0x2000 <= n <= 0x200A
    || n == 0x2028 || n == 0x2029 || n == 0x202F || n == 0x205F || n == 0x3000
  }

  /** The code points that Unicode counts as white space, with the four separators of ASCII. */
  const SPACES: set<int> := {
    0x09, 0x0A, 0x0B, 0x0C, 0x0D, 0x1C, 0x1D, 0x1E, 0x1F, 0x20, 0x85, 0xA0, 0x1680, 0x2000, 0x2001, 0x2002, 0x2003,
    0x2004, 0x2005, 0x2006, 0x2007, 0x2008, 0x2009, 0x200A, 0x2028, 0x2029, 0x202F, 0x205F, 0x3000}

  lemma {:induction false} SpacesExactly(c: char)
    ensures IsSpace(c) <==> c as int in SPACES
  {
    assert c as int == 32 <==> c == ' ';
  }

  function SkipSpace(s: string, i: nat): (r: nat)
    requires i <= |s|
    ensures i <= r <= |s|
    ensures r < |s| ==> !IsSpace(s[r])
    decreases |s| - i
  {
    if i < |s| && IsSpace(s[i]) then SkipSpace(s, i + 1) else i
  }

  /** The code points of "skills". */
  const SKILLS: seq<int> := [115, 107, 105, 108, 108, 115]

  predicate AllObjects(values: seq<Value>) {
    forall v | v in values :: v.Object?
  }

  // ---------------------------------------------------------------------------
  // The scan
  // ---------------------------------------------------------------------------

  datatype Scan = Found(entries: seq<Value>, end: nat) | Malformed

  function Prepend(entries: seq<Value>, scan: Scan): Scan {
    if scan.Found? then scan.(entries := entries + scan.entries) else scan
  }

  /** Array values from p, which is behind the opening bracket: stray commas are skipped, only objects are accepted. */
  function ArrayValues(s: string, p: nat): (r: Scan)
    requires p <= |s|
    ensures r.Found? ==> p < r.end <= |s|
    decreases |s| - p
  {
    var q := SkipSpace(s, p);
    if q == |s| then Malformed
    else if s[q] == ']' then Found([], q + 1)
    else if s[q] == ',' then ArrayValues(s, q + 1)
    else match ParseValue(s, q)
      case Invalid => Malformed
      case Parsed(v, end) => if v.Object? then Prepend([v], ArrayValues(s, end)) else Malformed
  }

  /** A key and its colon. */
  function KeyAt(s: string, q: nat): (r: Parse<seq<int>>)
    requires q <= |s|
    ensures r.Parsed? ==> q < r.end <= |s|
  {
    match ParseValue(s, q)
    case Invalid => Invalid
    case Parsed(key, end) =>
      var k := SkipSpace(s, end);
      if !key.String? || !Is(s, k, ':') then Invalid else Parsed(key.codes, k + 1)
  }

  /** The members of the top-level object from p. */
  function ObjectEntries(s: string, p: nat): (r: Scan)
    requires p <= |s|
    ensures r.Found? ==> p < r.end <= |s|
    decreases |s| - p, 0
  {
    var q := SkipSpace(s, p);
    if q == |s| then Malformed
    else if s[q] == '}' then Found([], q + 1)
    else match KeyAt(s, q)
      case Invalid => Malformed
      case Parsed(key, k) => if key == SKILLS then SkillsValue(s, k) else OtherValue(s, k)
  }

  /** After a `skills` value that is no array the scan goes straight to the next key, without looking for a comma. */
  function SkillsValue(s: string, p: nat): (r: Scan)
    requires p <= |s|
    ensures r.Found? ==> p < r.end <= |s|
    decreases |s| - p, 0
  {
    var v := SkipSpace(s, p);
    if v == |s| then Malformed
    else if s[v] == '[' then
      match ArrayValues(s, v + 1)
      case Found(entries, end) => Prepend(entries, AfterValue(s, end))
      case _ => Malformed
    else match ParseValue(s, v)
      case Invalid => Malformed
      case Parsed(_, end) => ObjectEntries(s, end)
  }

  function OtherValue(s: string, p: nat): (r: Scan)
    requires p <= |s|
    ensures r.Found? ==> p < r.end <= |s|
    decreases |s| - p, 0
  {
    var v := SkipSpace(s, p);
    if v == |s| then Malformed
    else match ParseValue(s, v)
      case Invalid => Malformed
      case Parsed(_, end) => AfterValue(s, end)
  }

  /** A comma or the closing brace; anything else is left for the next key. */
  function AfterValue(s: string, p: nat): (r: Scan)
    requires p <= |s|
    ensures r.Found? ==> p < r.end <= |s|
    decreases |s| - p, 1
  {
    var q := SkipSpace(s, p);
    if Is(s, q, ',') then ObjectEntries(s, q + 1)
    else if Is(s, q, '}') then Found([], q + 1)
    else ObjectEntries(s, q)
  }

  function TopLevel(s: string): Scan {
    var q := SkipSpace(s, 0);
    if Is(s, q, '[') then ArrayValues(s, q + 1)
    else if Is(s, q, '{') then ObjectEntries(s, q + 1)
    else Malformed
  }

  // ---------------------------------------------------------------------------
  // White space and first characters
  // ---------------------------------------------------------------------------

  lemma {:induction false} SkipSpaceFrom(s: string, i: nat, j: nat)
    requires i <= j <= |s| && forall k :: i <= k < j ==> IsSpace(s[k])
    ensures SkipSpace(s, i) == SkipSpace(s, j)
    decreases j - i
  {
    if i < j {
      SkipSpaceFrom(s, i + 1, j);
    }
  }

  lemma {:induction false} SkipSpaceRun(s: string, i: nat)
    requires i <= |s|
    ensures forall k :: i <= k < SkipSpace(s, i) ==> IsSpace(s[k])
    decreases |s| - i
  {
    if i < |s| && IsSpace(s[i]) {
      SkipSpaceRun(s, i + 1);
    }
  }

  lemma {:induction false} SkipWsThenSpace(s: string, i: nat)
    requires i <= |s|
    ensures SkipSpace(s, SkipWs(s, i)) == SkipSpace(s, i)
    decreases |s| - i
  {
    if i < |s| && IsWs(s[i]) {
      SkipWsThenSpace(s, i + 1);
    }
  }

  lemma {:induction false} ValueStartsOnNonSpace(s: string, i: nat)
    requires i < |s| && ParseValue(s, i).Parsed?
    ensures !IsSpace(s[i]) && s[i] !in "]},:"
  {
    WordFirst(s, i, "null");
    WordFirst(s, i, "true");
    WordFirst(s, i, "false");
  }

  /** The first character tells what kind of value follows. */
  lemma {:induction false} ValueKind(s: string, i: nat)
    requires i < |s| && ParseValue(s, i).Parsed?
    ensures s[i] == '[' <==> ParseValue(s, i).value.Array?
    ensures s[i] == '{' <==> ParseValue(s, i).value.Object?
    ensures StartsNumber(s[i]) <==> ParseValue(s, i).value.Number?
  {
    WordFirst(s, i, "null");
    WordFirst(s, i, "true");
    WordFirst(s, i, "false");
  }

  // ---------------------------------------------------------------------------
  // The scan of a valid text
  // ---------------------------------------------------------------------------

  lemma {:induction false} SkipSpaceStays(s: string, i: nat)
    requires i < |s| && !IsSpace(s[i])
    ensures SkipSpace(s, i) == i
  {
  }

  /** White space before a value, a key or a closing sign does not matter. */
  lemma {:induction false} SameFrom(s: string, i: nat)
    requires i <= |s|
    ensures ArrayValues(s, i) == ArrayValues(s, SkipWs(s, i))
    ensures ObjectEntries(s, i) == ObjectEntries(s, SkipWs(s, i))
  {
    SkipWsThenSpace(s, i);
  }

  /** One element: the scan keeps an object and goes on behind it, and refuses anything else. */
  lemma {:induction false} ArrayValuesStep(s: string, i: nat)
    requires i <= |s| && ParseValue(s, i).Parsed?
    ensures var Parsed(v, end) := ParseValue(s, i);
      ArrayValues(s, i) == if v.Object? then Prepend([v], ArrayValues(s, end)) else Malformed
  {
    ValueStartsOnNonSpace(s, i);
    SkipSpaceStays(s, i);
  }

  /** Behind an element: the bracket ends the array, a comma is passed. */
  lemma {:induction false} ArrayValuesBehind(s: string, end: nat)
    requires end <= |s|
    ensures Is(s, SkipWs(s, end), ']') ==> ArrayValues(s, end) == Found([], SkipWs(s, end) + 1)
    ensures Is(s, SkipWs(s, end), ',') ==> ArrayValues(s, end) == ArrayValues(s, SkipWs(s, end) + 1)
  {
    SkipWsThenSpace(s, end);
  }

  /** What the scan makes of the elements of an array. */
  function ElementEntries(es: seq<Value>, end: nat): Scan {
    if AllObjects(es) then Found(es, end) else Malformed
  }

  lemma {:induction false} ElementEntriesWithFirst(v: Value, rest: seq<Value>, end: nat)
    requires v.Object?
    ensures ElementEntries([v] + rest, end) == Prepend([v], ElementEntries(rest, end))
  {
    if AllObjects([v] + rest) {
      forall w | w in rest ensures w.Object? {
        assert w in [v] + rest;
      }
    }
  }

  /** A well-formed array behind its opening bracket: all of its elements if they are all objects, else a failure. */
  lemma {:induction false} ElementsScan(s: string, i: nat)
    requires i <= |s| && ParseElements(s, i).Parsed?
    ensures ArrayValues(s, i) == ElementEntries(ParseElements(s, i).value, ParseElements(s, i).end)
    decreases |s| - i, 1
  {
    var Parsed(v, end) := ParseValue(s, i);
    ArrayValuesStep(s, i);
    if v.Object? {
      AfterElementScan(s, v, end);
    }
  }

  lemma {:induction false} AfterElementScan(s: string, v: Value, end: nat)
    requires end <= |s| && AfterElement(s, v, end).Parsed? && v.Object?
    ensures Prepend([v], ArrayValues(s, end))
      == ElementEntries(AfterElement(s, v, end).value, AfterElement(s, v, end).end)
    decreases |s| - end, 2
  {
    var j := SkipWs(s, end);
    if Is(s, j, ']') {
      ArrayValuesBehind(s, end);
      assert AfterElement(s, v, end).value == [v];
    } else {
      MoreElementsScan(s, v, end);
    }
  }

  lemma {:induction false} MoreElementsScan(s: string, v: Value, end: nat)
    requires end <= |s| && AfterElement(s, v, end).Parsed? && v.Object? && !Is(s, SkipWs(s, end), ']')
    ensures Prepend([v], ArrayValues(s, end))
      == ElementEntries(AfterElement(s, v, end).value, AfterElement(s, v, end).end)
    decreases |s| - end, 1
  {
    hide ArrayValues, ParseElements, ParseValue, ElementEntries;
    var j := SkipWs(s, end);
    ArrayValuesBehind(s, end);
    SameFrom(s, j + 1);
    var next := SkipWs(s, j + 1);
    var Parsed(rest, e) := ParseElements(s, next);
    ElementsScan(s, next);
    ElementEntriesWithFirst(v, rest, e);
  }

  /** What the reader makes of the members of an object, in order. */
  function MemberEntries(ms: seq<Member>): Option<seq<Value>> {
    if ms == [] then Some([])
    else if ms[0].key != SKILLS then MemberEntries(ms[1..])
    else if ms[0].value.Array? then
      (match MemberEntries(ms[1..])
       case None => None
       case Some(rest) => if AllObjects(ms[0].value.elements) then Some(ms[0].value.elements + rest) else None)
    else if |ms| == 1 then Some([])
    else None
  }

  function AsScan(entries: Option<seq<Value>>, end: nat): Scan {
    match entries
    case None => Malformed
    case Some(es) => Found(es, end)
  }

  /** Behind a member: the brace ends the object; a comma is passed, but not where a key is expected. */
  lemma {:induction false} AfterValueBehind(s: string, end: nat)
    requires end <= |s|
    ensures Is(s, SkipWs(s, end), '}') ==> AfterValue(s, end) == ObjectEntries(s, end) == Found([], SkipWs(s, end) + 1)
    ensures Is(s, SkipWs(s, end), ',') ==>
      AfterValue(s, end) == ObjectEntries(s, SkipWs(s, end) + 1) && ObjectEntries(s, end).Malformed?
  {
    SkipWsThenSpace(s, end);
    var j := SkipWs(s, end);
    if Is(s, j, ',') && ParseValue(s, j).Parsed? {
      ValueStartsOnNonSpace(s, j);
    }
  }

  /** The scan of the value of a member, from behind its colon. */
  function MemberValue(s: string, key: seq<int>, p: nat): Scan
    requires p <= |s|
  {
    if key == SKILLS then SkillsValue(s, p) else OtherValue(s, p)
  }

  /** Behind the colon of the member at i. */
  function BehindColon(s: string, i: nat): (p: nat)
    requires i <= |s| && ParseMember(s, i).Parsed?
    ensures i < p <= |s|
  {
    assert AfterKey(s, ParseStringBody(s, i + 1).value, ParseStringBody(s, i + 1).end).Parsed?;
    SkipWs(s, ParseStringBody(s, i + 1).end) + 1
  }

  lemma {:induction false} KeyAtMember(s: string, i: nat)
    requires i <= |s| && ParseMember(s, i).Parsed?
    ensures KeyAt(s, i) == Parsed(ParseMember(s, i).value.key, BehindColon(s, i))
  {
    var Parsed(key, end) := ParseStringBody(s, i + 1);
    SkipWsThenSpace(s, end);
    SkipSpaceStays(s, SkipWs(s, end));
    assert ParseValue(s, i) == Parsed(String(key), end);
  }

  lemma {:induction false} KeyScan(s: string, i: nat)
    requires i <= |s| && ParseMember(s, i).Parsed?
    ensures ObjectEntries(s, i) == MemberValue(s, ParseMember(s, i).value.key, BehindColon(s, i))
  {
    KeyAtMember(s, i);
    SkipSpaceStays(s, i);
  }

  lemma {:induction false} ValueOfMember(s: string, i: nat)
    requires i <= |s| && ParseMember(s, i).Parsed?
    ensures ParseValue(s, SkipWs(s, BehindColon(s, i))) == Parsed(ParseMember(s, i).value.value, ParseMember(s, i).end)
  {
  }

  lemma {:induction false} OtherValueScan(s: string, p: nat)
    requires p <= |s| && ParseValue(s, SkipWs(s, p)).Parsed?
    ensures OtherValue(s, p) == AfterValue(s, ParseValue(s, SkipWs(s, p)).end)
  {
    var v := SkipWs(s, p);
    ValueKind(s, v);
    ValueStartsOnNonSpace(s, v);
    SkipWsThenSpace(s, p);
    SkipSpaceStays(s, v);
  }

  lemma {:induction false} SkillsNoArrayScan(s: string, p: nat)
    requires p <= |s| && ParseValue(s, SkipWs(s, p)).Parsed? && !ParseValue(s, SkipWs(s, p)).value.Array?
    ensures SkillsValue(s, p) == ObjectEntries(s, ParseValue(s, SkipWs(s, p)).end)
  {
    var v := SkipWs(s, p);
    ValueKind(s, v);
    ValueStartsOnNonSpace(s, v);
    SkipWsThenSpace(s, p);
    SkipSpaceStays(s, v);
  }

  /** A whole array, bracket included. */
  lemma {:induction false} ArrayScan(s: string, v: nat)
    requires v <= |s| && ParseValue(s, v).Parsed? && ParseValue(s, v).value.Array?
    ensures ArrayValues(s, v + 1) == ElementEntries(ParseValue(s, v).value.elements, ParseValue(s, v).end)
  {
    ValueKind(s, v);
    ValueStartsOnNonSpace(s, v);
    var j := SkipWs(s, v + 1);
    if Is(s, j, ']') {
      ArrayValuesBehind(s, v + 1);
    } else {
      SameFrom(s, v + 1);
      ElementsScan(s, j);
    }
  }

  lemma {:induction false} SkillsArrayScan(s: string, p: nat)
    requires p <= |s| && ParseValue(s, SkipWs(s, p)).Parsed? && ParseValue(s, SkipWs(s, p)).value.Array?
    ensures var Parsed(a, end) := ParseValue(s, SkipWs(s, p));
      SkillsValue(s, p) == if AllObjects(a.elements) then Prepend(a.elements, AfterValue(s, end)) else Malformed
  {
    hide ParseValue;
    var v := SkipWs(s, p);
    ValueKind(s, v);
    ValueStartsOnNonSpace(s, v);
    ArrayScan(s, v);
    SkipWsThenSpace(s, p);
    SkipSpaceStays(s, v);
  }

  /** The scan of one member, given what comes behind it. */
  lemma {:induction false} MemberScan(s: string, i: nat)
    requires i <= |s| && ParseMember(s, i).Parsed?
    ensures var Parsed(m, end) := ParseMember(s, i);
      ObjectEntries(s, i) ==
        if m.key != SKILLS then AfterValue(s, end)
        else if !m.value.Array? then ObjectEntries(s, end)
        else if AllObjects(m.value.elements) then Prepend(m.value.elements, AfterValue(s, end))
        else Malformed
  {
    KeyScan(s, i);
    ValueOfMember(s, i);
    var p, m := BehindColon(s, i), ParseMember(s, i).value;
    if m.key != SKILLS {
      OtherValueScan(s, p);
    } else if m.value.Array? {
      SkillsArrayScan(s, p);
    } else {
      SkillsNoArrayScan(s, p);
    }
  }

  lemma {:induction false} MembersScan(s: string, i: nat)
    requires i <= |s| && ParseMembers(s, i).Parsed?
    ensures ObjectEntries(s, i) == AsScan(MemberEntries(ParseMembers(s, i).value), ParseMembers(s, i).end)
    decreases |s| - i, 1
  {
    var Parsed(m, end) := ParseMember(s, i);
    var Parsed(ms, e) := AfterMember(s, m, end);
    assert m == ms[0] && m in ms;
    MemberScan(s, i);
    AfterMemberScan(s, m, end);
    if |ms| > 1 {
      assert Is(s, SkipWs(s, end), ',');
      AfterValueBehind(s, end);
    } else {
      AfterValueBehind(s, end);
    }
  }

  /** Behind a member the scan yields what the other members do. */
  lemma {:induction false} AfterMemberScan(s: string, m: Member, end: nat)
    requires end <= |s| && AfterMember(s, m, end).Parsed?
    ensures AfterValue(s, end) == AsScan(MemberEntries(AfterMember(s, m, end).value[1..]), AfterMember(s, m, end).end)
    ensures Is(s, SkipWs(s, end), if |AfterMember(s, m, end).value| == 1 then '}' else ',')
    decreases |s| - end, 2
  {
    var j := SkipWs(s, end);
    if Is(s, j, '}') {
      AfterValueBehind(s, end);
    } else {
      MoreMembers(s, m, end);
      AfterValueBehind(s, end);
      SameFrom(s, j + 1);
      MembersScan(s, SkipWs(s, j + 1));
    }
  }

  lemma {:induction false} MoreMembers(s: string, m: Member, end: nat)
    requires end <= |s| && AfterMember(s, m, end).Parsed? && !Is(s, SkipWs(s, end), '}')
    ensures Is(s, SkipWs(s, end), ',')
    ensures var rest := ParseMembers(s, SkipWs(s, SkipWs(s, end) + 1));
      rest.Parsed? && AfterMember(s, m, end) == Parsed([m] + rest.value, rest.end)
  {
  }

  // ---------------------------------------------------------------------------
  // The scan of a valid document
  // ---------------------------------------------------------------------------

  /** What the reader makes of a whole document, if it accepts it. */
  function DocumentEntries(doc: Value): Option<seq<Value>> {
    match doc
    case Array(es) => if AllObjects(es) then Some(es) else None
    case Object(ms) => MemberEntries(ms)
    case _ => None
  }

  /** On valid JSON the scan is decided by the parsed document alone: it fails on a top level that is no container, on
      array elements that are no objects and on a `skills` value that is no array with more members behind it. */
  lemma {:induction false} DocumentScan(s: string)
    requires ParseDocument(s).Parsed?
    ensures match DocumentEntries(ParseDocument(s).value)
      case None => TopLevel(s).Malformed?
      case Some(es) => TopLevel(s).Found? && TopLevel(s).entries == es
  {
    hide ParseValue;
    var i := SkipWs(s, 0);
    var Parsed(doc, end) := ParseValue(s, i);
    ValueStartsOnNonSpace(s, i);
    ValueKind(s, i);
    SkipWsThenSpace(s, 0);
    SkipSpaceStays(s, i);
    if doc.Array? {
      ArrayScan(s, i);
    } else if doc.Object? {
      ObjectScan(s, i);
    }
  }

  lemma {:induction false} ObjectScan(s: string, i: nat)
    requires i <= |s| && ParseValue(s, i).Parsed? && ParseValue(s, i).value.Object?
    ensures ObjectEntries(s, i + 1) == AsScan(MemberEntries(ParseValue(s, i).value.members), ParseValue(s, i).end)
  {
    ValueKind(s, i);
    var j := SkipWs(s, i + 1);
    SameFrom(s, i + 1);
    if Is(s, j, '}') {
      AfterValueBehind(s, i + 1);
    } else {
      MembersScan(s, j);
    }
  }

  // ---------------------------------------------------------------------------
  // Compared with collecting the entries from the parsed document
  // ---------------------------------------------------------------------------

  function Objects(es: seq<Value>): (r: seq<Value>)
    ensures |r| <= |es|
    ensures AllObjects(es) ==> r == es
  {
    if es == [] then []
    else
      assert es[0] in es && forall e | e in es[1..] :: e in es;
      (if es[0].Object? then [es[0]] else []) + Objects(es[1..])
  }

  /** The value a dictionary keeps for `skills`: that of the last such member. */
  function LastSkills(ms: seq<Member>): Option<Value> {
    if ms == [] then None
    else if LastSkills(ms[1..]).Some? then LastSkills(ms[1..])
    else if ms[0].key == SKILLS then Some(ms[0].value)
    else None
  }

  function ObjectsOf(v: Option<Value>): seq<Value> {
    match v
    case Some(Array(es)) => Objects(es)
    case _ => []
  }

  /** `_coerce_index_entries` on the parsed document. */
  function Coerced(doc: Value): seq<Value> {
    match doc
    case Array(es) => Objects(es)
    case Object(ms) => ObjectsOf(LastSkills(ms))
    case _ => []
  }

  /** Every `skills` member but the last is an empty array, and the last is an array of objects, or no array if it is
      the last member of all. */
  predicate Unambiguous(ms: seq<Member>) {
    if ms == [] then true
    else if ms[0].key != SKILLS then Unambiguous(ms[1..])
    else if LastSkills(ms[1..]).Some? then ms[0].value == Array([]) && Unambiguous(ms[1..])
    else if ms[0].value.Array? then AllObjects(ms[0].value.elements)
    else |ms| == 1
  }

  lemma {:induction false} NoSkills(ms: seq<Member>)
    requires LastSkills(ms).None?
    ensures MemberEntries(ms) == Some([]) && Unambiguous(ms)
  {
    if ms != [] {
      NoSkills(ms[1..]);
    }
  }

  /** What the reader returns is at least as long as the last `skills` array. */
  lemma {:induction false} CoercedIsShorter(ms: seq<Member>)
    requires MemberEntries(ms).Some?
    ensures |ObjectsOf(LastSkills(ms))| <= |MemberEntries(ms).value|
  {
    if ms != [] && (ms[0].key != SKILLS || |ms| > 1) {
      CoercedIsShorter(ms[1..]);
    }
  }

  lemma {:induction false} MembersAgree(ms: seq<Member>)
    ensures MemberEntries(ms) == Some(ObjectsOf(LastSkills(ms))) <==> Unambiguous(ms)
  {
    if ms != [] {
      var rest := ms[1..];
      MembersAgree(rest);
      if ms[0].key == SKILLS {
        if LastSkills(rest).None? {
          NoSkills(rest);
          if ms[0].value.Array? {
            assert ms[0].value.elements + [] == ms[0].value.elements;
          }
        } else if ms[0].value.Array? && MemberEntries(rest).Some? {
          CoercedIsShorter(rest);
          if ms[0].value.elements != [] {
            assert MemberEntries(ms).Some? ==> |MemberEntries(ms).value| > |ObjectsOf(LastSkills(ms))|;
          } else {
            assert ms[0].value == Array([]) && AllObjects([])
              && [] + MemberEntries(rest).value == MemberEntries(rest).value;
          }
        }
      }
    }
  }

  /** The documents on which reading and parsing come to the same entries. */
  predicate SameEntries(doc: Value) {
    match doc
    case Array(es) => AllObjects(es)
    case Object(ms) => Unambiguous(ms)
    case _ => false
  }

  /** A document whose entries the reader keeps although the parsed dictionary has lost them. */
  lemma {:induction false} ReaderKeepsShadowedEntries()
    ensures var first := Member(SKILLS, Array([Object([])]));
      var doc := Object([first, Member(SKILLS, Array([]))]);
      DocumentEntries(doc) == Some([Object([])]) && Coerced(doc) == [] && !SameEntries(doc)
  {
    var first, last := Member(SKILLS, Array([Object([])])), Member(SKILLS, Array([]));
    var none: seq<Member>, empty: seq<Value> := [], [];
    assert [first, last][1..] == [last] && [last][1..] == none;
    assert MemberEntries(none) == Some([]) && LastSkills(none).None?;
    assert empty + empty == empty && MemberEntries([last]) == Some(empty);
    assert LastSkills([last]) == Some(Array([]));
    assert [Object([])] + [] == [Object([])];
  }

  /** Exactly when the reader returns the entries that the parsed document has. */
  lemma {:induction false} ReaderMatchesParse(doc: Value)
    ensures DocumentEntries(doc) == Some(Coerced(doc)) <==> SameEntries(doc)
  {
    if doc.Object? {
      MembersAgree(doc.members);
    }
  }
}
