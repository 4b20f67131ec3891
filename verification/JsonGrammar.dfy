/** Whatever the parser of `Json` accepts is written in the grammar of `JsonText`: the two agree on every text. */
module JsonGrammar {
  import opened Json
  import opened JsonText

  lemma {:induction false} AtJoined(s: string, i: nat, a: string, b: string, c: string, d: string)
    requires At(s, i, a) && At(s, i + |a|, b) && At(s, i + |a| + |b|, c) && At(s, i + |a| + |b| + |c|, d)
    ensures At(s, i, a + b + c + d)
  {
    hide At;
    AtSplit(s, i, a, b);
    AtSplit(s, i, a + b, c);
    AtSplit(s, i, a + b + c, d);
  }

  /** The white space that is skipped. */
  lemma {:induction false} SkippedIsBlank(s: string, i: nat)
    requires i <= |s|
    ensures At(s, i, s[i..SkipWs(s, i)]) && BlankText(s[i..SkipWs(s, i)])
  {
    SkippedAreWs(s, i);
  }

  lemma {:induction false} SkippedAreWs(s: string, i: nat)
    requires i <= |s|
    ensures forall k :: i <= k < SkipWs(s, i) ==> BlankChar(s[k])
    decreases |s| - i
  {
    if i < |s| && IsWs(s[i]) {
      SkippedAreWs(s, i + 1);
    }
  }

  lemma {:induction false} SkippedAreDigits(s: string, i: nat)
    requires i <= |s|
    ensures At(s, i, s[i..SkipDigits(s, i)]) && DigitText(s[i..SkipDigits(s, i)])
    decreases |s| - i
  {
    if i < |s| && IsDigit(s[i]) {
      SkippedAreDigits(s, i + 1);
      assert s[i..SkipDigits(s, i)] == [s[i]] + s[i + 1..SkipDigits(s, i)];
    }
  }

  lemma {:induction false} HexDigitOf(c: char) returns (d: HexDigit)
    requires HexValue(c) >= 0
    ensures d.n < 16 && d.n == HexValue(c) && (if d.upper then UPPER_HEX_DIGITS else HEX_DIGITS)[d.n] == c
  {
    d := HexDigit(HexValue(c), 'A' <= c <= 'F');
    match d.n
    case 0 => case 1 => case 2 => case 3 => case 4 => case 5 => case 6 => case 7 =>
    case 8 => case 9 => case 10 => case 11 => case 12 => case 13 => case 14 => case _ =>
  }

  lemma {:induction false} HexDigitsOf(s: string, i: nat) returns (digits: seq<HexDigit>)
    requires Hex4(s, i) >= 0
    ensures FourDigits(digits) && CodeOf(digits) == Hex4(s, i) && At(s, i, HexSpelled(digits))
  {
    var a := HexDigitOf(s[i]);
    var b := HexDigitOf(s[i + 1]);
    var c := HexDigitOf(s[i + 2]);
    var d := HexDigitOf(s[i + 3]);
    digits := [a, b, c, d];
    var w := HexSpelled(digits);
    assert w[0] == s[i] && w[1] == s[i + 1] && w[2] == s[i + 2] && w[3] == s[i + 3];
    assert s[i..i + 4] == w;
  }

  lemma {:induction false} ShortOf(c: char) returns (k: nat)
    requires SimpleEscape(c) >= 0
    ensures k < 8 && SHORT_LETTERS[k] == c && SHORT_CODES[k] == SimpleEscape(c)
  {
    k := match c
      case '"' => 0 case '\\' => 1 case '/' => 2 case 'b' => 3
      case 'f' => 4 case 'n' => 5 case 'r' => 6 case _ => 7;
  }

  lemma {:induction false} CharOf(s: string, i: nat) returns (c: Char)
    requires i < |s| && s[i] != '"' && ParseUnit(s, i).Unit?
    ensures WellChar(c) && CharSays(c) == ParseUnit(s, i).code
    ensures At(s, i, CharSpelled(c)) && ParseUnit(s, i).next == i + |CharSpelled(c)|
    ensures IsHex(c, false) ==> NoLowAt(s, i + 6)
  {
    hide Hex4, CodeOf, HexSpelled;
    if s[i] != '\\' {
      c := Plain(s[i]);
    } else if s[i + 1] != 'u' {
      var k := ShortOf(s[i + 1]);
      c := Short(k);
      assert s[i..i + 2] == ['\\', SHORT_LETTERS[k]];
    } else {
      HexWithin(s, i + 2);
      assert s[i..i + 2] == "\\u";
      var high := HexDigitsOf(s, i + 2);
      AtSplit(s, i, "\\u", HexSpelled(high));
      if ParseUnit(s, i).next == i + 12 {
        HexWithin(s, i + 8);
        assert s[i + 6..i + 8] == "\\u";
        var low := HexDigitsOf(s, i + 8);
        c := Pair(high, low);
        AtSplit(s, i, "\\u" + HexSpelled(high), "\\u");
        AtSplit(s, i, "\\u" + HexSpelled(high) + "\\u", HexSpelled(low));
      } else {
        c := Hex(high);
      }
    }
  }

  lemma {:induction false} HexWithin(s: string, i: nat)
    requires Hex4(s, i) >= 0
    ensures i + 4 <= |s|
  {
  }

  lemma {:induction false} CharsOf(s: string, i: nat) returns (chars: seq<Char>)
    requires i <= |s| && ParseStringBody(s, i).Parsed?
    ensures WellChars(chars) && CharsSay(chars) == ParseStringBody(s, i).value
    ensures At(s, i, CharsSpelled(chars) + "\"") && ParseStringBody(s, i).end == i + |CharsSpelled(chars)| + 1
    decreases |s| - i
  {
    hide At, ParseUnit, CharSpelled, CharSays, NoLowAt;
    if s[i] == '"' {
      chars := [];
      QuoteAt(s, i);
    } else {
      var c := CharOf(s, i);
      var rest := CharsOf(s, ParseUnit(s, i).next);
      chars := [c] + rest;
      assert chars[1..] == rest;
      if IsHex(c, false) && rest != [] {
        HexIsSix(c);
        TailWell(rest);
        CharsParts(s, i + 6, rest);
        NotLow(s, i + 6, rest[0]);
      }
      JoinedWell(c, rest);
      CharsParts(s, i, chars);
    }
  }

  lemma {:induction false} QuoteAt(s: string, i: nat)
    requires Is(s, i, '"')
    ensures At(s, i, CharsSpelled([]) + "\"")
  {
  }

  lemma {:induction false} NotLow(s: string, j: nat, c: Char)
    requires NoLowAt(s, j) && WellChar(c) && At(s, j, CharSpelled(c))
    ensures !IsHex(c, true)
  {
    if IsHex(c, true) {
      AtChar(s, j, CharSpelled(c), 0);
      AtChar(s, j, CharSpelled(c), 1);
      AtSplit(s, j, "\\u", HexSpelled(c.digits));
      HexReads(s, j + 2, c.digits);
    }
  }

  lemma {:induction false} JoinedWell(c: Char, rest: seq<Char>)
    requires WellChar(c) && WellChars(rest) && (rest != [] ==> !(IsHex(c, false) && IsHex(rest[0], true)))
    ensures WellChars([c] + rest)
  {
  }

  lemma {:induction false} QuotedOf(s: string, i: nat) returns (chars: seq<Char>)
    requires Is(s, i, '"') && ParseStringBody(s, i + 1).Parsed?
    ensures WellChars(chars) && CharsSay(chars) == ParseStringBody(s, i + 1).value
    ensures At(s, i, Quoted(chars)) && ParseStringBody(s, i + 1).end == i + |Quoted(chars)|
  {
    chars := CharsOf(s, i + 1);
    assert Quoted(chars) == "\"" + (CharsSpelled(chars) + "\"");
    AtSplit(s, i, "\"", CharsSpelled(chars) + "\"");
  }

  lemma {:induction false} WholeOf(s: string, i: nat) returns (w: string)
    requires i <= |s| && IntEnd(s, i) > i
    ensures w != "" && DigitText(w) && (w[0] == '0' ==> w == "0") && At(s, i, w) && i + |w| == IntEnd(s, i)
  {
    w := s[i..IntEnd(s, i)];
    SkippedAreDigits(s, i);
  }

  lemma {:induction false} FractionOf(s: string, i: nat) returns (fraction: string)
    requires i <= |s|
    ensures DigitText(fraction) && At(s, i, FractionSpelled(fraction))
    ensures i + |FractionSpelled(fraction)| == FracEnd(s, i)
  {
    if FracEnd(s, i) == i {
      fraction := "";
    } else {
      fraction := s[i + 1..FracEnd(s, i)];
      SkippedAreDigits(s, i + 1);
      assert s[i..FracEnd(s, i)] == "." + fraction;
    }
  }

  lemma {:induction false} ExponentOf(s: string, i: nat) returns (e: Exponent)
    requires i <= |s|
    ensures e.Exponent? ==>
      e.letter in {'e', 'E'} && e.sign in ["", "+", "-"] && e.digits != "" && DigitText(e.digits)
    ensures At(s, i, ExponentSpelled(e)) && i + |ExponentSpelled(e)| == ExpEnd(s, i)
  {
    hide At, SkipDigits, DigitText;
    if ExpEnd(s, i) == i {
      e := NoExponent;
      AtNothing(s, i);
    } else {
      var sign := if Is(s, i + 1, '+') then "+" else if Is(s, i + 1, '-') then "-" else "";
      var j := i + 1 + |sign|;
      SkippedAreDigits(s, j);
      e := Exponent(s[i], sign, s[j..ExpEnd(s, i)]);
      OneAt(s, i);
      if sign == "" {
        AtNothing(s, i + 1);
      } else {
        OneAt(s, i + 1);
      }
      AtNothing(s, ExpEnd(s, i));
      AtJoined(s, i, [s[i]], sign, e.digits, "");
      assert ExponentSpelled(e) + "" == ExponentSpelled(e);
    }
  }

  lemma {:induction false} NumberOf(s: string, i: nat) returns (t: Text)
    requires i <= |s| && ParseNumber(s, i).Parsed?
    ensures t.NumberText? && WellNumber(t) && At(s, i, NumberSpelled(t))
    ensures ParseNumber(s, i) == Parsed(Number(NumberSpelled(t)), i + |NumberSpelled(t)|)
  {
    hide IntEnd, FracEnd, ExpEnd, FractionSpelled, ExponentSpelled, At, DigitText;
    var minus := if Is(s, i, '-') then "-" else "";
    if Is(s, i, '-') {
      OneAt(s, i);
    } else {
      AtNothing(s, i);
    }
    var whole := WholeOf(s, i + |minus|);
    var j := i + |minus| + |whole|;
    var fraction := FractionOf(s, j);
    var exponent := ExponentOf(s, j + |FractionSpelled(fraction)|);
    t := NumberText(Is(s, i, '-'), whole, fraction, exponent);
    AtJoined(s, i, minus, whole, FractionSpelled(fraction), ExponentSpelled(exponent));
    AtIs(s, i, NumberSpelled(t));
  }

  lemma {:induction false} WordAt(s: string, i: nat, w: string)
    requires HasWord(s, i, w)
    ensures At(s, i, w)
  {
  }

  lemma {:induction false} TextOf(s: string, i: nat) returns (t: Text)
    requires i <= |s| && ParseValue(s, i).Parsed?
    ensures Well(t) && At(s, i, Spelled(t)) && ParseValue(s, i) == Parsed(Says(t), i + |Spelled(t)|)
    decreases |s| - i, 0
  {
    hide At, SkipWs, NumberSpelled, ItemsSpelled, PairsSpelled, Quoted, ParseNumber, ParseElements, ParseMembers,
      WellNumber, WellChars, WellItems, WellPairs, HasWord;
    if s[i] == '"' {
      var chars := QuotedOf(s, i);
      t := StringText(chars);
    } else if s[i] == '[' {
      var j := SkipWs(s, i + 1);
      if Is(s, j, ']') {
        t := EmptyArray(s[i + 1..j]);
        EmptyOf(s, i, ']');
      } else {
        var items := ItemsOf(s, i + 1);
        t := ArrayText(items);
        OneAt(s, i);
        AtSplit(s, i, "[", ItemsSpelled(items));
      }
    } else if s[i] == '{' {
      var j := SkipWs(s, i + 1);
      if Is(s, j, '}') {
        t := EmptyObject(s[i + 1..j]);
        EmptyOf(s, i, '}');
      } else {
        var pairs := PairsOf(s, i + 1);
        t := ObjectText(pairs);
        OneAt(s, i);
        AtSplit(s, i, "{", PairsSpelled(pairs));
      }
    } else if HasWord(s, i, "null") {
      t := NullText;
      WordAt(s, i, "null");
    } else if HasWord(s, i, "true") {
      t := TrueText;
      WordAt(s, i, "true");
    } else if HasWord(s, i, "false") {
      t := FalseText;
      WordAt(s, i, "false");
    } else {
      t := NumberOf(s, i);
    }
  }

  lemma {:induction false} OneAt(s: string, i: nat)
    requires i < |s|
    ensures At(s, i, [s[i]])
  {
  }

  lemma {:induction false} EmptyOf(s: string, i: nat, close: char)
    requires i < |s| && Is(s, SkipWs(s, i + 1), close)
    ensures var j := SkipWs(s, i + 1);
      && BlankText(s[i + 1..j]) && At(s, i, [s[i]] + s[i + 1..j] + [close])
      && |[s[i]] + s[i + 1..j] + [close]| == j + 1 - i
  {
    var j := SkipWs(s, i + 1);
    BlankBetween(s, i + 1);
    OneAt(s, i);
    OneAt(s, j);
    assert [s[i]] + s[i + 1..j] + [close] + "" == [s[i]] + s[i + 1..j] + [close];
    AtNothing(s, j + 1);
    AtJoined(s, i, [s[i]], s[i + 1..j], [close], "");
  }

  lemma {:induction false} AtNothing(s: string, i: nat)
    requires i <= |s|
    ensures At(s, i, "")
  {
  }

  /** Behind an element or a member: the end, or a comma and more. */
  lemma {:induction false} ElementsGoOn(s: string, v: Value, e: nat)
    requires e <= |s| && AfterElement(s, v, e).Parsed?
    ensures var k := SkipWs(s, e);
      if Is(s, k, ']') then AfterElement(s, v, e) == Parsed([v], k + 1)
      else
        && Is(s, k, ',') && ParseElements(s, SkipWs(s, k + 1)).Parsed?
        && var Parsed(rest, end) := ParseElements(s, SkipWs(s, k + 1)); AfterElement(s, v, e) == Parsed([v] + rest, end)
  {
  }

  lemma {:induction false} MembersGoOn(s: string, m: Member, e: nat)
    requires e <= |s| && AfterMember(s, m, e).Parsed?
    ensures var k := SkipWs(s, e);
      if Is(s, k, '}') then AfterMember(s, m, e) == Parsed([m], k + 1)
      else
        && Is(s, k, ',') && ParseMembers(s, SkipWs(s, k + 1)).Parsed?
        && var Parsed(rest, end) := ParseMembers(s, SkipWs(s, k + 1)); AfterMember(s, m, e) == Parsed([m] + rest, end)
  {
  }

  lemma {:induction false} ItemsOf(s: string, i: nat) returns (items: Items)
    requires i <= |s| && ParseElements(s, SkipWs(s, i)).Parsed?
    ensures WellItems(items) && At(s, i, ItemsSpelled(items))
    ensures ParseElements(s, SkipWs(s, i)) == Parsed(ItemsSay(items), i + |ItemsSpelled(items)|)
    decreases |s| - i, 1
  {
    hide At, Well, Spelled, Says, ParseValue, SkipWs, AfterElement, BlankText;
    var j := SkipWs(s, i);
    BlankBetween(s, i);
    var t := TextOf(s, j);
    var e := j + |Spelled(t)|;
    assert ParseElements(s, j) == AfterElement(s, Says(t), e);
    hide ParseElements;
    var k := SkipWs(s, e);
    BlankBetween(s, e);
    ElementsGoOn(s, Says(t), e);
    OneAt(s, k);
    if Is(s, k, ']') {
      items := LastItem(s[i..j], t, s[e..k]);
      AtJoined(s, i, s[i..j], Spelled(t), s[e..k], "]");
    } else {
      var rest := ItemsOf(s, k + 1);
      items := Item(s[i..j], t, s[e..k], rest);
      AtSplit(s, k, ",", ItemsSpelled(rest));
      AtJoined(s, i, s[i..j], Spelled(t), s[e..k], "," + ItemsSpelled(rest));
    }
  }

  /** What a parsed member consists of. */
  lemma {:induction false} MemberUnfolds(s: string, j: nat)
    requires j <= |s| && ParseMembers(s, j).Parsed?
    ensures Is(s, j, '"') && ParseStringBody(s, j + 1).Parsed?
    ensures var Parsed(key, b) := ParseStringBody(s, j + 1);
      var c := SkipWs(s, b);
      && Is(s, c, ':') && ParseValue(s, SkipWs(s, c + 1)).Parsed?
      && var Parsed(v, e) := ParseValue(s, SkipWs(s, c + 1));
         ParseMembers(s, j) == AfterMember(s, Member(key, v), e)
  {
    hide ParseStringBody, ParseValue, SkipWs, AfterMember;
    assert ParseMember(s, j).Parsed?;
    var Parsed(key, b) := ParseStringBody(s, j + 1);
    assert AfterKey(s, key, b).Parsed?;
  }

  /** The parts of a member lie between i and k. */
  predicate PairAt(s: string, i: nat, p: Pairs, k: nat)
    requires WellChars(p.key) && Well(p.value)
  {
    var c := i + |KeySpelled(p)|;
    && At(s, i, KeySpelled(p)) && At(s, c, p.before') && At(s, c + |p.before'|, Spelled(p.value))
    && At(s, c + |p.before'| + |Spelled(p.value)|, p.after)
    && k == c + |p.before'| + |Spelled(p.value)| + |p.after|
  }

  /** The text of one member, as if it were the last, and where it ends. */
  lemma {:induction false} PairOf(s: string, i: nat) returns (p: Pairs, k: nat)
    requires i <= |s| && ParseMembers(s, SkipWs(s, i)).Parsed?
    ensures p.LastPair? && BlankText(p.before) && WellChars(p.key) && BlankText(p.behindKey) && BlankText(p.before')
    ensures Well(p.value) && BlankText(p.after)
    ensures PairAt(s, i, p, k)
    ensures i < k - |p.after| <= |s| && k == SkipWs(s, k - |p.after|)
    ensures ParseMembers(s, SkipWs(s, i)) ==
      AfterMember(s, Member(CharsSay(p.key), Says(p.value)), k - |p.after|)
    decreases |s| - i, 1
  {
    hide At, Well, WellChars, Spelled, Says, ParseValue, Quoted, CharsSay, ParseStringBody, ParseMembers, SkipWs,
      AfterMember, BlankText;
    var j := SkipWs(s, i);
    MemberUnfolds(s, j);
    var key := QuotedOf(s, j);
    var b := j + |Quoted(key)|;
    var c := SkipWs(s, b);
    var v := SkipWs(s, c + 1);
    var t := TextOf(s, v);
    var e := v + |Spelled(t)|;
    k := SkipWs(s, e);
    BlankBetween(s, i);
    BlankBetween(s, b);
    BlankBetween(s, c + 1);
    BlankBetween(s, e);
    OneAt(s, c);
    AtJoined(s, i, s[i..j], Quoted(key), s[b..c], ":");
    p := LastPair(s[i..j], key, s[b..c], s[c + 1..v], t, s[e..k]);
    assert i + |KeySpelled(p)| == c + 1;
  }

  lemma {:induction false} PairsOf(s: string, i: nat) returns (pairs: Pairs)
    requires i <= |s| && ParseMembers(s, SkipWs(s, i)).Parsed?
    ensures WellPairs(pairs) && At(s, i, PairsSpelled(pairs))
    ensures ParseMembers(s, SkipWs(s, i)) == Parsed(PairsSay(pairs), i + |PairsSpelled(pairs)|)
    decreases |s| - i, 2
  {
    hide At, Well, WellChars, Spelled, Says, ParseValue, CharsSay, ParseStringBody, ParseMembers, SkipWs, BlankText,
      AfterMember, PairAt, PairsSpelled;
    var p, k := PairOf(s, i);
    MembersGoOn(s, Member(CharsSay(p.key), Says(p.value)), k - |p.after|);
    if Is(s, k, '}') {
      pairs := p;
      OneAt(s, k);
      PairsJoined(s, i, p, pairs, k, "}");
    } else {
      OneAt(s, k);
      var rest := PairsOf(s, k + 1);
      pairs := OnePair(p.before, p.key, p.behindKey, p.before', p.value, p.after, rest);
      AtSplit(s, k, ",", PairsSpelled(rest));
      PairsJoined(s, i, p, pairs, k, "," + PairsSpelled(rest));
    }
  }

  lemma {:induction false} PairsJoined(s: string, i: nat, p: Pairs, pairs: Pairs, k: nat, end: string)
    requires WellPairs(pairs) && WellChars(p.key) && Well(p.value) && PairAt(s, i, p, k) && At(s, k, end)
    requires p.before == pairs.before && p.key == pairs.key && p.behindKey == pairs.behindKey
    requires p.before' == pairs.before' && p.value == pairs.value && p.after == pairs.after
    requires end == if pairs.LastPair? then "}" else "," + PairsSpelled(pairs.rest)
    ensures At(s, i, PairsSpelled(pairs)) && i + |PairsSpelled(pairs)| == k + |end|
  {
    hide At, Spelled, Quoted;
    var key := KeySpelled(pairs);
    assert key == KeySpelled(p);
    hide KeySpelled;
    AtJoined(s, i + |key|, pairs.before', Spelled(pairs.value), pairs.after, end);
    AtSplit(s, i, key, pairs.before' + Spelled(pairs.value) + pairs.after + end);
  }

  lemma {:induction false} BlankBetween(s: string, i: nat)
    requires i <= |s|
    ensures i <= SkipWs(s, i) <= |s| && |s[i..SkipWs(s, i)]| == SkipWs(s, i) - i
    ensures At(s, i, s[i..SkipWs(s, i)]) && BlankText(s[i..SkipWs(s, i)])
  {
    SkippedIsBlank(s, i);
  }

  lemma {:induction false} ParsedIsWritten(s: string) returns (d: Document)
    requires ParseDocument(s).Parsed?
    ensures WellDocument(d) && DocumentSpelled(d) == s && Says(d.value) == ParseDocument(s).value
  {
    hide Well, Spelled, Says, ParseValue, SkipWs, At;
    var i := SkipWs(s, 0);
    BlankBetween(s, 0);
    var t := TextOf(s, i);
    var e := i + |Spelled(t)|;
    BlankBetween(s, e);
    d := Document(s[0..i], t, s[e..SkipWs(s, e)]);
    AtNothing(s, |s|);
    AtJoined(s, 0, d.before, Spelled(t), d.after, "");
    assert d.before + Spelled(t) + d.after + "" == DocumentSpelled(d);
    AtIs(s, 0, DocumentSpelled(d));
    assert s[0..|s|] == s;
  }

  /** Main result: a text is parsed as a value if and only if it is one of the ways to write that value. */
  lemma {:induction false} ParsesExactly(s: string, v: Value)
    ensures ParseDocument(s) == Parsed(v, |s|) <==>
      exists d :: WellDocument(d) && DocumentSpelled(d) == s && Says(d.value) == v
  {
    if ParseDocument(s) == Parsed(v, |s|) {
      var d := ParsedIsWritten(s);
    }
    forall d | WellDocument(d) && DocumentSpelled(d) == s && Says(d.value) == v
      ensures ParseDocument(s) == Parsed(v, |s|)
    {
      WrittenIsParsed(d);
    }
  }

  // ---------------------------------------------------------------------------
  // Which values can be written
  // ---------------------------------------------------------------------------

  /** Code points up to the last one, without a pair of surrogates that would be read as one character. */
  predicate SayableCodes(codes: seq<int>) {
    && (forall c | c in codes :: 0 <= c < 0x110000)
    && (forall i :: 0 <= i < |codes| - 1 ==> !(IsHighSurrogate(codes[i]) && IsLowSurrogate(codes[i + 1])))
  }

  ghost predicate Sayable(v: Value) {
    match v
    case Number(literal) => exists t: Text :: t.NumberText? && WellNumber(t) && NumberSpelled(t) == literal
    case String(codes) => SayableCodes(codes)
    case Array(es) => forall i :: 0 <= i < |es| ==> Sayable(es[i])
    case Object(ms) => forall i :: 0 <= i < |ms| ==> SayableCodes(ms[i].key) && Sayable(ms[i].value)
    case _ => true
  }

  function HexFor(code: int): (digits: seq<HexDigit>)
    requires 0 <= code < 0x10000
    ensures FourDigits(digits) && CodeOf(digits) == code
  {
    var high, low := code / 256, code % 256;
    [HexDigit(high / 16, false), HexDigit(high % 16, false), HexDigit(low / 16, false), HexDigit(low % 16, false)]
  }

  /** Any code point as an escape. */
  function CharFor(code: int): (c: Char)
    requires 0 <= code < 0x110000
    ensures WellChar(c) && CharSays(c) == code
    ensures IsHex(c, true) ==> IsLowSurrogate(code)
    ensures IsHex(c, false) ==> IsHighSurrogate(code)
  {
    hide CodeOf;
    if code < 0x10000 then Hex(HexFor(code))
    else
      SurrogateParts(code - 0x10000);
      Pair(HexFor(0xD800 + (code - 0x10000) / 1024), HexFor(0xDC00 + (code - 0x10000) % 1024))
  }

  lemma {:induction false} SurrogateParts(n: int)
    requires 0 <= n < 0x100000
    ensures 0 <= n / 1024 < 1024 && 0 <= n % 1024 < 1024 && n == n / 1024 * 1024 + n % 1024
  {
  }

  lemma {:induction false} CharsFor(codes: seq<int>) returns (chars: seq<Char>)
    requires SayableCodes(codes)
    ensures WellChars(chars) && CharsSay(chars) == codes
    ensures codes != [] ==> 0 <= codes[0] < 0x110000 && chars != [] && chars[0] == CharFor(codes[0])
  {
    if codes == [] {
      chars := [];
    } else {
      assert forall i | 0 <= i < |codes| :: codes[i] in codes;
      assert forall c | c in codes[1..] :: c in codes;
      var rest := CharsFor(codes[1..]);
      var c := CharFor(codes[0]);
      JoinedWell(c, rest);
      chars := [c] + rest;
      assert chars[1..] == rest;
    }
  }

  lemma {:induction false} TextFor(v: Value) returns (t: Text)
    requires Sayable(v)
    ensures Well(t) && Says(t) == v
    decreases v
  {
    match v
    case Null => t := NullText;
    case Bool(b) => t := if b then TrueText else FalseText;
    case Number(literal) => t :| t.NumberText? && WellNumber(t) && NumberSpelled(t) == literal;
    case String(codes) =>
      var chars := CharsFor(codes);
      t := StringText(chars);
    case Array(es) =>
      if es == [] {
        t := EmptyArray("");
      } else {
        var items := ItemsFor(v, 0);
        t := ArrayText(items);
      }
    case Object(ms) =>
      if ms == [] {
        t := EmptyObject("");
      } else {
        var pairs := PairsFor(v, 0);
        t := ObjectText(pairs);
      }
  }

  lemma {:induction false} ItemsFor(v: Value, k: nat) returns (items: Items)
    requires v.Array? && Sayable(v) && k < |v.elements|
    ensures WellItems(items) && ItemsSay(items) == v.elements[k..]
    decreases v, |v.elements| - k
  {
    var one := TextFor(v.elements[k]);
    if k + 1 == |v.elements| {
      items := LastItem("", one, "");
    } else {
      var rest := ItemsFor(v, k + 1);
      items := Item("", one, "", rest);
      assert v.elements[k..] == [v.elements[k]] + v.elements[k + 1..];
    }
  }

  lemma {:induction false} PairsFor(v: Value, k: nat) returns (pairs: Pairs)
    requires v.Object? && Sayable(v) && k < |v.members|
    ensures WellPairs(pairs) && PairsSay(pairs) == v.members[k..]
    decreases v, |v.members| - k
  {
    var m := v.members[k];
    var key := CharsFor(m.key);
    var one := TextFor(m.value);
    if k + 1 == |v.members| {
      pairs := LastPair("", key, "", "", one, "");
    } else {
      var rest := PairsFor(v, k + 1);
      pairs := OnePair("", key, "", "", one, "", rest);
      assert v.members[k..] == [m] + v.members[k + 1..];
    }
  }

  /** Every value made of code points and number literals has a text that is parsed as that value. */
  lemma {:induction false} EveryValueIsWritten(v: Value)
    requires Sayable(v)
    ensures exists d ::
      WellDocument(d) && Says(d.value) == v && ParseDocument(DocumentSpelled(d)) == Parsed(v, |DocumentSpelled(d)|)
  {
    var t := TextFor(v);
    WrittenIsParsed(Document("", t, ""));
  }
}
