/** JSON values and a recursive-descent parser for the grammar in sections 2 to 7 of RFC 8259.
    `ParseValue` stands for `json.JSONDecoder.raw_decode`: it parses one value at a position and says where it ends. */
module Json {

  /** A string value is its sequence of code points; a number keeps its literal, an object its members in order. */
  datatype Value =
    | Null
    | Bool(b: bool)
    | Number(literal: string)
    | String(codes: seq<int>)
    | Array(elements: seq<Value>)
    | Object(members: seq<Member>)

  datatype Member = Member(key: seq<int>, value: Value)

  datatype Parse<+T> = Parsed(value: T, end: nat) | Invalid

  // ---------------------------------------------------------------------------
  // Characters
  // ---------------------------------------------------------------------------

  /** Section 2: the white space the grammar allows. */
  predicate IsWs(c: char) { c == ' ' || c == '\t' || c == '\n' || c == '\r' }
  predicate IsDigit(c: char) { '0' <= c <= '9' }
  predicate StartsNumber(c: char) { c == '-' || IsDigit(c) }
  predicate InNumber(c: char) { IsDigit(c) || c == '-' || c == '+' || c == '.' || c == 'e' || c == 'E' }

  predicate Is(s: string, i: nat, c: char) { i < |s| && s[i] == c }

  function SkipWs(s: string, i: nat): (r: nat)
    requires i <= |s|
    ensures i <= r <= |s|
    ensures r < |s| ==> !IsWs(s[r])
    decreases |s| - i
  {
    if i < |s| && IsWs(s[i]) then SkipWs(s, i + 1) else i
  }

  function SkipDigits(s: string, i: nat): (r: nat)
    requires i <= |s|
    ensures i <= r <= |s|
    ensures r < |s| ==> !IsDigit(s[r])
    decreases |s| - i
  {
    if i < |s| && IsDigit(s[i]) then SkipDigits(s, i + 1) else i
  }

  predicate HasWord(s: string, i: nat, word: string) {
    i + |word| <= |s| && s[i..i + |word|] == word
  }

  // ---------------------------------------------------------------------------
  // Numbers (section 6): the longest literal that starts here
  // ---------------------------------------------------------------------------

  function IntEnd(s: string, i: nat): (r: nat)
    requires i <= |s|
    ensures i <= r <= |s|
  {
    if i < |s| && s[i] == '0' then i + 1
    else if i < |s| && IsDigit(s[i]) then SkipDigits(s, i)
    else i
  }

  function FracEnd(s: string, i: nat): (r: nat)
    requires i <= |s|
    ensures i <= r <= |s|
  {
    if i + 1 < |s| && s[i] == '.' && IsDigit(s[i + 1]) then SkipDigits(s, i + 1) else i
  }

  function ExpEnd(s: string, i: nat): (r: nat)
    requires i <= |s|
    ensures i <= r <= |s|
  {
    if i < |s| && (s[i] == 'e' || s[i] == 'E') then
      var j := if Is(s, i + 1, '+') || Is(s, i + 1, '-') then i + 2 else i + 1;
      if j < |s| && IsDigit(s[j]) then SkipDigits(s, j) else i
    else i
  }

  function ParseNumber(s: string, i: nat): (r: Parse<Value>)
    requires i <= |s|
    ensures r.Parsed? ==> i < r.end <= |s| && r.value.Number?
  {
    var start := if Is(s, i, '-') then i + 1 else i;
    var whole := IntEnd(s, start);
    if whole == start then Invalid
    else
      var end := ExpEnd(s, FracEnd(s, whole));
      Parsed(Number(s[i..end]), end)
  }

  // ---------------------------------------------------------------------------
  // Strings (section 7)
  // ---------------------------------------------------------------------------

  function HexValue(c: char): int {
    if '0' <= c <= '9' then c as int - '0' as int
    else if 'a' <= c <= 'f' then c as int - 'a' as int + 10
    else if 'A' <= c <= 'F' then c as int - 'A' as int + 10
    else -1
  }

  /** The value of four hexadecimal digits at i, or -1. */
  function Hex4(s: string, i: nat): int {
    if i + 4 > |s| then -1
    else
      var a, b, c, d := HexValue(s[i]), HexValue(s[i + 1]), HexValue(s[i + 2]), HexValue(s[i + 3]);
      if a < 0 || b < 0 || c < 0 || d < 0 then -1 else ((a * 16 + b) * 16 + c) * 16 + d
  }

  function SimpleEscape(c: char): int {
    match c
    case '"' => 0x22
    case '\\' => 0x5C
    case '/' => 0x2F
    case 'b' => 0x08
    case 'f' => 0x0C
    case 'n' => 0x0A
    case 'r' => 0x0D
    case 't' => 0x09
    case _ => -1
  }

  datatype Unit = Unit(code: int, next: nat) | BadUnit

  /** One character of a string body that is not the closing quote: plain, escaped, or a surrogate pair. */
  function ParseUnit(s: string, i: nat): (r: Unit)
    requires i < |s|
    ensures r.Unit? ==> i < r.next <= |s|
  {
    if s[i] != '\\' then (if s[i] as int < 0x20 then BadUnit else Unit(s[i] as int, i + 1))
    else if i + 1 >= |s| then BadUnit
    else if s[i + 1] != 'u' then
      (if SimpleEscape(s[i + 1]) < 0 then BadUnit else Unit(SimpleEscape(s[i + 1]), i + 2))
    else
      var high := Hex4(s, i + 2);
      if high < 0 then BadUnit
      else
        var low := if Is(s, i + 6, '\\') && Is(s, i + 7, 'u') then Hex4(s, i + 8) else -1;
        if 0xD800 <= high <= 0xDBFF && 0xDC00 <= low <= 0xDFFF then
          Unit(0x10000 + (high - 0xD800) * 0x400 + (low - 0xDC00), i + 12)
        else Unit(high, i + 6)
  }

  /** The rest of a string, from i to its closing quote. */
  function ParseStringBody(s: string, i: nat): (r: Parse<seq<int>>)
    requires i <= |s|
    ensures r.Parsed? ==> i < r.end <= |s|
    decreases |s| - i
  {
    if i == |s| then Invalid
    else if s[i] == '"' then Parsed([], i + 1)
    else match ParseUnit(s, i)
      case BadUnit => Invalid
      case Unit(code, next) =>
        match ParseStringBody(s, next)
        case Invalid => Invalid
        case Parsed(codes, end) => Parsed([code] + codes, end)
  }

  // ---------------------------------------------------------------------------
  // Values (sections 3 to 5)
  // ---------------------------------------------------------------------------

  function ParseValue(s: string, i: nat): (r: Parse<Value>)
    requires i <= |s|
    ensures r.Parsed? ==> i < r.end <= |s|
    decreases |s| - i, 0
  {
    if i == |s| then Invalid
    else if s[i] == '"' then
      match ParseStringBody(s, i + 1)
      case Invalid => Invalid
      case Parsed(codes, end) => Parsed(String(codes), end)
    else if s[i] == '{' then
      var j := SkipWs(s, i + 1);
      if Is(s, j, '}') then Parsed(Object([]), j + 1)
      else match ParseMembers(s, j)
        case Invalid => Invalid
        case Parsed(members, end) => Parsed(Object(members), end)
    else if s[i] == '[' then
      var j := SkipWs(s, i + 1);
      if Is(s, j, ']') then Parsed(Array([]), j + 1)
      else match ParseElements(s, j)
        case Invalid => Invalid
        case Parsed(elements, end) => Parsed(Array(elements), end)
    else if HasWord(s, i, "null") then Parsed(Null, i + 4)
    else if HasWord(s, i, "true") then Parsed(Bool(true), i + 4)
    else if HasWord(s, i, "false") then Parsed(Bool(false), i + 5)
    else ParseNumber(s, i)
  }

  /** One or more elements, up to and including the closing bracket. */
  function ParseElements(s: string, i: nat): (r: Parse<seq<Value>>)
    requires i <= |s|
    ensures r.Parsed? ==> i < r.end <= |s| && |r.value| > 0
    decreases |s| - i, 1
  {
    match ParseValue(s, i)
    case Invalid => Invalid
    case Parsed(v, end) => AfterElement(s, v, end)
  }

  function AfterElement(s: string, v: Value, end: nat): (r: Parse<seq<Value>>)
    requires end <= |s|
    ensures r.Parsed? ==> end < r.end <= |s| && |r.value| > 0
    decreases |s| - end, 2
  {
    var j := SkipWs(s, end);
    if Is(s, j, ']') then Parsed([v], j + 1)
    else if !Is(s, j, ',') then Invalid
    else match ParseElements(s, SkipWs(s, j + 1))
      case Invalid => Invalid
      case Parsed(rest, end') => Parsed([v] + rest, end')
  }

  /** A key, its colon and its value. */
  function ParseMember(s: string, i: nat): (r: Parse<Member>)
    requires i <= |s|
    ensures r.Parsed? ==> i < r.end <= |s|
    decreases |s| - i, 1
  {
    if !Is(s, i, '"') then Invalid
    else match ParseStringBody(s, i + 1)
      case Invalid => Invalid
      case Parsed(key, end) => AfterKey(s, key, end)
  }

  function AfterKey(s: string, key: seq<int>, end: nat): (r: Parse<Member>)
    requires end <= |s|
    ensures r.Parsed? ==> end < r.end <= |s|
    decreases |s| - end, 1
  {
    var j := SkipWs(s, end);
    if !Is(s, j, ':') then Invalid
    else match ParseValue(s, SkipWs(s, j + 1))
      case Invalid => Invalid
      case Parsed(v, end') => Parsed(Member(key, v), end')
  }

  /** One or more members, up to and including the closing brace. */
  function ParseMembers(s: string, i: nat): (r: Parse<seq<Member>>)
    requires i <= |s|
    ensures r.Parsed? ==> i < r.end <= |s| && |r.value| > 0
    decreases |s| - i, 2
  {
    match ParseMember(s, i)
    case Invalid => Invalid
    case Parsed(m, end) => AfterMember(s, m, end)
  }

  function AfterMember(s: string, m: Member, end: nat): (r: Parse<seq<Member>>)
    requires end <= |s|
    ensures r.Parsed? ==> end < r.end <= |s| && |r.value| > 0
    decreases |s| - end, 3
  {
    var j := SkipWs(s, end);
    if Is(s, j, '}') then Parsed([m], j + 1)
    else if !Is(s, j, ',') then Invalid
    else match ParseMembers(s, SkipWs(s, j + 1))
      case Invalid => Invalid
      case Parsed(rest, end') => Parsed([m] + rest, end')
  }

  /** The whole text as one value: what `json.loads` accepts. */
  function ParseDocument(s: string): (r: Parse<Value>) {
    match ParseValue(s, SkipWs(s, 0))
    case Invalid => Invalid
    case Parsed(v, end) => if SkipWs(s, end) == |s| then Parsed(v, |s|) else Invalid
  }

  // ---------------------------------------------------------------------------
  // A parse that has succeeded stays the same when more text follows
  // ---------------------------------------------------------------------------

  lemma {:induction false} SkipWsStable(s: string, t: string, i: nat)
    requires i <= |s|
    ensures SkipWs(s, i) < |s| ==> SkipWs(s + t, i) == SkipWs(s, i)
    decreases |s| - i
  {
    if i < |s| && IsWs(s[i]) {
      SkipWsStable(s, t, i + 1);
    }
  }

  lemma {:induction false} SkipDigitsStable(s: string, t: string, i: nat)
    requires i <= |s|
    ensures SkipDigits(s, i) < |s| ==> SkipDigits(s + t, i) == SkipDigits(s, i)
    decreases |s| - i
  {
    if i < |s| && IsDigit(s[i]) {
      SkipDigitsStable(s, t, i + 1);
    }
  }

  /** The parts of a number are final once a character follows that does not go on with them. */
  lemma {:induction false} PartsStable(s: string, t: string, i: nat)
    requires i <= |s|
    ensures i != IntEnd(s, i) < |s| ==> IntEnd(s + t, i) == IntEnd(s, i)
    ensures i < |s| && FracEnd(s, i) < |s| && (FracEnd(s, i) == i ==> s[i] != '.') ==>
      FracEnd(s + t, i) == FracEnd(s, i)
    ensures i < |s| && ExpEnd(s, i) < |s| && (ExpEnd(s, i) == i ==> s[i] != 'e' && s[i] != 'E') ==>
      ExpEnd(s + t, i) == ExpEnd(s, i)
  {
    SkipDigitsStable(s, t, i);
    if i < |s| {
      SkipDigitsStable(s, t, i + 1);
      if ExpEnd(s, i) != i {
        SkipDigitsStable(s, t, if Is(s, i + 1, '+') || Is(s, i + 1, '-') then i + 2 else i + 1);
      }
    }
  }

  /** A number is final once a character follows that cannot belong to it. */
  lemma {:induction false} NumberStable(s: string, t: string, i: nat)
    requires i <= |s| && ParseNumber(s, i).Parsed?
    requires ParseNumber(s, i).end < |s| && !InNumber(s[ParseNumber(s, i).end])
    ensures ParseNumber(s + t, i) == ParseNumber(s, i)
  {
    hide SkipDigits;
    var start := if Is(s, i, '-') then i + 1 else i;
    var whole := IntEnd(s, start);
    var frac := FracEnd(s, whole);
    var end := ExpEnd(s, frac);
    PartsStable(s, t, start);
    PartsStable(s, t, whole);
    PartsStable(s, t, frac);
    assert (s + t)[i..end] == s[i..end];
  }

  /** A unit is final once a character follows it and no low surrogate can still complete it: within a closed string. */
  lemma {:induction false} StringBodyStable(s: string, t: string, i: nat)
    requires i <= |s| && ParseStringBody(s, i).Parsed?
    ensures ParseStringBody(s + t, i) == ParseStringBody(s, i)
    decreases |s| - i
  {
    if s[i] != '"' {
      StringBodyStable(s, t, ParseUnit(s, i).next);
    }
  }

  lemma {:induction false} WordStable(s: string, t: string, i: nat, word: string)
    ensures HasWord(s, i, word) ==> HasWord(s + t, i, word)
  {
    if HasWord(s, i, word) {
      assert (s + t)[i..i + |word|] == s[i..i + |word|];
    }
  }

  /** What may follow a value inside a container cannot continue a number. */
  predicate Closes(s: string, i: nat) {
    i < |s| && !InNumber(s[i])
  }

  lemma {:induction false} SkipWsCloses(s: string, i: nat)
    requires i <= |s| && SkipWs(s, i) < |s| && !InNumber(s[SkipWs(s, i)])
    ensures Closes(s, i)
  {
  }

  lemma {:induction false} LiteralStable(s: string, t: string, i: nat)
    requires i < |s| && ParseValue(s, i).Parsed? && s[i] != '"' && s[i] != '{' && s[i] != '['
    requires StartsNumber(s[i]) ==> Closes(s, ParseValue(s, i).end)
    ensures ParseValue(s + t, i) == ParseValue(s, i)
  {
    var r := s + t;
    assert r[i] == s[i];
    WordStable(s, t, i, "null");
    WordStable(s, t, i, "true");
    WordStable(s, t, i, "false");
    if !HasWord(s, i, "null") && !HasWord(s, i, "true") && !HasWord(s, i, "false") {
      NumberStable(s, t, i);
      WordFirst(r, i, "null");
      WordFirst(r, i, "true");
      WordFirst(r, i, "false");
    }
  }

  lemma {:induction false} ValueStable(s: string, t: string, i: nat)
    requires i < |s| && ParseValue(s, i).Parsed?
    requires StartsNumber(s[i]) ==> Closes(s, ParseValue(s, i).end)
    ensures ParseValue(s + t, i) == ParseValue(s, i)
    decreases |s| - i, 0
  {
    var r := s + t;
    assert r[i] == s[i];
    if s[i] == '"' {
      StringBodyStable(s, t, i + 1);
    } else if s[i] == '{' {
      SkipWsStable(s, t, i + 1);
      var j := SkipWs(s, i + 1);
      if !Is(s, j, '}') {
        MembersStable(s, t, j);
      }
    } else if s[i] == '[' {
      SkipWsStable(s, t, i + 1);
      var j := SkipWs(s, i + 1);
      if !Is(s, j, ']') {
        ElementsStable(s, t, j);
      }
    } else {
      LiteralStable(s, t, i);
    }
  }

  lemma {:induction false} WordFirst(s: string, i: nat, word: string)
    requires word != []
    ensures HasWord(s, i, word) ==> s[i] == word[0]
  {
    if HasWord(s, i, word) {
      assert s[i..i + |word|][0] == s[i];
    }
  }

  lemma {:induction false} ElementsStable(s: string, t: string, i: nat)
    requires i <= |s| && ParseElements(s, i).Parsed?
    ensures ParseElements(s + t, i) == ParseElements(s, i)
    decreases |s| - i, 1
  {
    var Parsed(v, end) := ParseValue(s, i);
    AfterElementStable(s, t, v, end);
    ValueStable(s, t, i);
  }

  lemma {:induction false} AfterElementStable(s: string, t: string, v: Value, end: nat)
    requires end <= |s| && AfterElement(s, v, end).Parsed?
    ensures AfterElement(s + t, v, end) == AfterElement(s, v, end)
    ensures Closes(s, end)
    decreases |s| - end, 2
  {
    hide Closes;
    var j := SkipWs(s, end);
    SkipWsCloses(s, end);
    SkipWsStable(s, t, end);
    assert SkipWs(s + t, end) == j && (s + t)[j] == s[j];
    if Is(s, j, ',') {
      SkipWsStable(s, t, j + 1);
      ElementsStable(s, t, SkipWs(s, j + 1));
    }
  }

  lemma {:induction false} MemberStable(s: string, t: string, i: nat)
    requires i <= |s| && ParseMember(s, i).Parsed?
    requires Closes(s, ParseMember(s, i).end)
    ensures ParseMember(s + t, i) == ParseMember(s, i)
    decreases |s| - i, 1
  {
    StringBodyStable(s, t, i + 1);
    var Parsed(key, end) := ParseStringBody(s, i + 1);
    AfterKeyStable(s, t, key, end);
  }

  lemma {:induction false} AfterKeyStable(s: string, t: string, key: seq<int>, end: nat)
    requires end <= |s| && AfterKey(s, key, end).Parsed?
    requires Closes(s, AfterKey(s, key, end).end)
    ensures AfterKey(s + t, key, end) == AfterKey(s, key, end)
    decreases |s| - end, 1
  {
    var j := SkipWs(s, end);
    SkipWsStable(s, t, end);
    SkipWsStable(s, t, j + 1);
    ValueStable(s, t, SkipWs(s, j + 1));
  }

  lemma {:induction false} MembersStable(s: string, t: string, i: nat)
    requires i <= |s| && ParseMembers(s, i).Parsed?
    ensures ParseMembers(s + t, i) == ParseMembers(s, i)
    decreases |s| - i, 2
  {
    var Parsed(m, end) := ParseMember(s, i);
    AfterMemberStable(s, t, m, end);
    MemberStable(s, t, i);
  }

  lemma {:induction false} AfterMemberStable(s: string, t: string, m: Member, end: nat)
    requires end <= |s| && AfterMember(s, m, end).Parsed?
    ensures AfterMember(s + t, m, end) == AfterMember(s, m, end)
    ensures Closes(s, end)
    decreases |s| - end, 3
  {
    var j := SkipWs(s, end);
    SkipWsCloses(s, end);
    SkipWsStable(s, t, end);
    if Is(s, j, '}') {
      assert Is(s + t, j, '}');
    } else {
      var k := SkipWs(s, j + 1);
      SkipWsStable(s, t, j + 1);
      MembersStable(s, t, k);
      assert Is(s + t, j, ',') && SkipWs(s + t, j + 1) == k;
    }
  }
}
