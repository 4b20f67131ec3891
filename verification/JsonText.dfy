/** The JSON grammar of RFC 8259 from the writer's side: which texts say which values. The parser of `Json` returns for
    each of these texts exactly what it says. */
module JsonText {
  import opened Json

  // ---------------------------------------------------------------------------
  // Texts
  // ---------------------------------------------------------------------------

  datatype HexDigit = HexDigit(n: nat, upper: bool)

  /** One character of a string: itself, one of the eight short escapes, four hexadecimal digits, or two surrogates. */
  datatype Char =
    | Plain(c: char)
    | Short(k: nat)
    | Hex(digits: seq<HexDigit>)
    | Pair(high: seq<HexDigit>, low: seq<HexDigit>)

  datatype Exponent = NoExponent | Exponent(letter: char, sign: string, digits: string)

  /** A value as it is written: every escape, sign and white space is there. */
  datatype Text =
    | NullText
    | TrueText
    | FalseText
    | NumberText(minus: bool, whole: string, fraction: string, exponent: Exponent)
    | StringText(chars: seq<Char>)
    | EmptyArray(blank: string)
    | ArrayText(items: Items)
    | EmptyObject(blank: string)
    | ObjectText(pairs: Pairs)

  datatype Items =
    | LastItem(before: string, value: Text, after: string)
    | Item(before: string, value: Text, after: string, rest: Items)

  datatype Pairs =
    | LastPair(before: string, key: seq<Char>, behindKey: string, before': string, value: Text, after: string)
    | OnePair(
        before: string, key: seq<Char>, behindKey: string, before': string, value: Text, after: string, rest: Pairs)

  datatype Document = Document(before: string, value: Text, after: string)

  const HEX_DIGITS := "0123456789abcdef"
  const UPPER_HEX_DIGITS := "0123456789ABCDEF"

  /** The letters of the short escapes, and the code points they stand for: quotation mark, reverse solidus, solidus,
      backspace, form feed, line feed, carriage return, tab. */
  const SHORT_LETTERS := "\"\\/bfnrt"
  const SHORT_CODES: seq<int> := [34, 92, 47, 8, 12, 10, 13, 9]

  // ---------------------------------------------------------------------------
  // What is a text
  // ---------------------------------------------------------------------------

  predicate BlankChar(c: char) { c == ' ' || c == '\t' || c == '\n' || c == '\r' }
  predicate DigitChar(c: char) { '0' <= c <= '9' }

  predicate BlankText(w: string) {
    forall i :: 0 <= i < |w| ==> BlankChar(w[i])
  }

  predicate DigitText(w: string) {
    forall i :: 0 <= i < |w| ==> DigitChar(w[i])
  }

  predicate FourDigits(digits: seq<HexDigit>) {
    |digits| == 4 && forall d | d in digits :: d.n < 16
  }

  function CodeOf(digits: seq<HexDigit>): int
    requires FourDigits(digits)
  {
    digits[0].n * 4096 + digits[1].n * 256 + digits[2].n * 16 + digits[3].n
  }

  predicate IsHighSurrogate(code: int) { 0xD800 <= code < 0xDC00 }
  predicate IsLowSurrogate(code: int) { 0xDC00 <= code < 0xE000 }

  predicate WellChar(c: Char) {
    match c
    case Plain(x) => x as int >= 0x20 && x != '"' && x != '\\'
    case Short(k) => k < 8
    case Hex(digits) => FourDigits(digits)
    case Pair(high, low) =>
      FourDigits(high) && FourDigits(low) && IsHighSurrogate(CodeOf(high)) && IsLowSurrogate(CodeOf(low))
  }

  predicate IsHex(c: Char, low: bool) {
    && c.Hex? && FourDigits(c.digits)
    && if low then IsLowSurrogate(CodeOf(c.digits)) else IsHighSurrogate(CodeOf(c.digits))
  }

  /** Two escapes that make a surrogate pair are one character. */
  predicate WellChars(chars: seq<Char>) {
    && (forall c | c in chars :: WellChar(c))
    && (forall i :: 0 <= i < |chars| - 1 ==> !(IsHex(chars[i], false) && IsHex(chars[i + 1], true)))
  }

  predicate WellNumber(t: Text)
    requires t.NumberText?
  {
    && t.whole != "" && DigitText(t.whole) && (t.whole[0] == '0' ==> t.whole == "0")
    && DigitText(t.fraction)
    && (t.exponent.Exponent? ==>
          && t.exponent.letter in {'e', 'E'} && t.exponent.sign in ["", "+", "-"]
          && t.exponent.digits != "" && DigitText(t.exponent.digits))
  }

  predicate Well(t: Text) {
    match t
    case NumberText(_, _, _, _) => WellNumber(t)
    case StringText(chars) => WellChars(chars)
    case EmptyArray(blank) => BlankText(blank)
    case ArrayText(items) => WellItems(items)
    case EmptyObject(blank) => BlankText(blank)
    case ObjectText(pairs) => WellPairs(pairs)
    case _ => true
  }

  predicate WellItems(items: Items) {
    && BlankText(items.before) && Well(items.value) && BlankText(items.after)
    && (items.Item? ==> WellItems(items.rest))
  }

  predicate WellPairs(pairs: Pairs) {
    && BlankText(pairs.before) && WellChars(pairs.key) && BlankText(pairs.behindKey)
    && BlankText(pairs.before') && Well(pairs.value) && BlankText(pairs.after)
    && (pairs.OnePair? ==> WellPairs(pairs.rest))
  }

  predicate WellDocument(d: Document) {
    BlankText(d.before) && Well(d.value) && BlankText(d.after)
  }

  // ---------------------------------------------------------------------------
  // How it is spelled
  // ---------------------------------------------------------------------------

  function HexSpelled(digits: seq<HexDigit>): (w: string)
    requires FourDigits(digits)
    ensures |w| == 4
  {
    seq(4, i requires 0 <= i < 4 =>
      assert digits[i] in digits; (if digits[i].upper then UPPER_HEX_DIGITS else HEX_DIGITS)[digits[i].n])
  }

  function CharSpelled(c: Char): (w: string)
    requires WellChar(c)
    ensures w != ""
  {
    match c
    case Plain(x) => [x]
    case Short(k) => ['\\', SHORT_LETTERS[k]]
    case Hex(digits) => "\\u" + HexSpelled(digits)
    case Pair(high, low) => "\\u" + HexSpelled(high) + "\\u" + HexSpelled(low)
  }

  function CharsSpelled(chars: seq<Char>): string
    requires WellChars(chars)
  {
    if chars == [] then ""
    else
      TailWell(chars);
      CharSpelled(chars[0]) + CharsSpelled(chars[1..])
  }

  lemma {:induction false} TailWell(chars: seq<Char>)
    requires WellChars(chars) && chars != []
    ensures WellChar(chars[0]) && WellChars(chars[1..])
  {
  }

  function Quoted(chars: seq<Char>): string
    requires WellChars(chars)
  {
    "\"" + CharsSpelled(chars) + "\""
  }

  function FractionSpelled(fraction: string): string { if fraction == "" then "" else "." + fraction }

  function ExponentSpelled(e: Exponent): string {
    if e.NoExponent? then "" else [e.letter] + e.sign + e.digits
  }

  function NumberSpelled(t: Text): string
    requires t.NumberText?
  {
    (if t.minus then "-" else "") + t.whole + FractionSpelled(t.fraction) + ExponentSpelled(t.exponent)
  }

  function Spelled(t: Text): string
    requires Well(t)
  {
    match t
    case NullText => "null"
    case TrueText => "true"
    case FalseText => "false"
    case NumberText(_, _, _, _) => NumberSpelled(t)
    case StringText(chars) => Quoted(chars)
    case EmptyArray(blank) => "[" + blank + "]"
    case ArrayText(items) => "[" + ItemsSpelled(items)
    case EmptyObject(blank) => "{" + blank + "}"
    case ObjectText(pairs) => "{" + PairsSpelled(pairs)
  }

  function ItemsSpelled(items: Items): string
    requires WellItems(items)
  {
    items.before + Spelled(items.value) + items.after + if items.LastItem? then "]" else "," + ItemsSpelled(items.rest)
  }

  function PairsSpelled(pairs: Pairs): string
    requires WellPairs(pairs)
  {
    KeySpelled(pairs) +
      (pairs.before' + Spelled(pairs.value) + pairs.after +
        if pairs.LastPair? then "}" else "," + PairsSpelled(pairs.rest))
  }

  /** The key of a member with its colon. */
  function KeySpelled(pairs: Pairs): string
    requires WellChars(pairs.key)
  {
    pairs.before + Quoted(pairs.key) + pairs.behindKey + ":"
  }

  function DocumentSpelled(d: Document): string
    requires WellDocument(d)
  {
    d.before + Spelled(d.value) + d.after
  }

  // ---------------------------------------------------------------------------
  // What it says
  // ---------------------------------------------------------------------------

  function CharSays(c: Char): int
    requires WellChar(c)
  {
    match c
    case Plain(x) => x as int
    case Short(k) => SHORT_CODES[k]
    case Hex(digits) => CodeOf(digits)
    case Pair(high, low) => 65536 + (CodeOf(high) - 55296) * 1024 + (CodeOf(low) - 56320)
  }

  function CharsSay(chars: seq<Char>): (codes: seq<int>)
    requires WellChars(chars)
    ensures |codes| == |chars|
  {
    if chars == [] then []
    else
      TailWell(chars);
      [CharSays(chars[0])] + CharsSay(chars[1..])
  }

  function Says(t: Text): Value
    requires Well(t)
  {
    match t
    case NullText => Null
    case TrueText => Bool(true)
    case FalseText => Bool(false)
    case NumberText(_, _, _, _) => Number(NumberSpelled(t))
    case StringText(chars) => String(CharsSay(chars))
    case EmptyArray(_) => Array([])
    case ArrayText(items) => Array(ItemsSay(items))
    case EmptyObject(_) => Object([])
    case ObjectText(pairs) => Object(PairsSay(pairs))
  }

  function ItemsSay(items: Items): seq<Value>
    requires WellItems(items)
  {
    if items.LastItem? then [Says(items.value)] else [Says(items.value)] + ItemsSay(items.rest)
  }

  function PairsSay(pairs: Pairs): seq<Member>
    requires WellPairs(pairs)
  {
    var m := Member(CharsSay(pairs.key), Says(pairs.value));
    if pairs.LastPair? then [m] else [m] + PairsSay(pairs.rest)
  }

  // ---------------------------------------------------------------------------
  // Words in a text
  // ---------------------------------------------------------------------------

  predicate At(s: string, i: nat, w: string) {
    i + |w| <= |s| && s[i..i + |w|] == w
  }

  lemma {:induction false} AtSplit(s: string, i: nat, a: string, b: string)
    ensures At(s, i, a + b) <==> At(s, i, a) && At(s, i + |a|, b)
  {
    if i + |a| + |b| <= |s| {
      assert s[i..i + |a| + |b|] == s[i..i + |a|] + s[i + |a|..i + |a| + |b|];
      if At(s, i, a + b) {
        assert (a + b)[..|a|] == a && (a + b)[|a|..] == b;
      }
    }
  }

  lemma {:induction false} AtChar(s: string, i: nat, w: string, k: nat)
    requires At(s, i, w) && k < |w|
    ensures i + k < |s| && s[i + k] == w[k]
  {
  }

  lemma {:induction false} AtParts(s: string, i: nat, a: string, b: string, c: string, d: string)
    requires At(s, i, a + b + c + d)
    ensures At(s, i, a) && At(s, i + |a|, b) && At(s, i + |a| + |b|, c) && At(s, i + |a| + |b| + |c|, d)
    ensures i + |a| + |b| + |c| + |d| <= |s|
  {
    hide At;
    AtSplit(s, i, a + b + c, d);
    AtSplit(s, i, a + b, c);
    AtSplit(s, i, a, b);
    AtWithin(s, i, a + b + c + d);
  }

  lemma {:induction false} AtIs(s: string, i: nat, w: string)
    requires At(s, i, w)
    ensures i + |w| <= |s| && s[i..i + |w|] == w
  {
  }

  lemma {:induction false} AtWithin(s: string, i: nat, w: string)
    requires At(s, i, w)
    ensures i + |w| <= |s|
  {
  }

  /** White space is skipped to the character that ends it. */
  lemma {:induction false} BlankSkipped(s: string, i: nat, w: string)
    requires At(s, i, w) && BlankText(w) && (i + |w| < |s| ==> !BlankChar(s[i + |w|]))
    ensures SkipWs(s, i) == i + |w|
    decreases |w|
  {
    if w != "" {
      assert s[i] == w[0];
      assert s[i + 1..i + |w|] == w[1..];
      BlankSkipped(s, i + 1, w[1..]);
    }
  }

  lemma {:induction false} DigitsSkipped(s: string, i: nat, w: string)
    requires At(s, i, w) && DigitText(w) && (i + |w| < |s| ==> !DigitChar(s[i + |w|]))
    ensures SkipDigits(s, i) == i + |w|
    decreases |w|
  {
    if w != "" {
      assert s[i] == w[0];
      assert s[i + 1..i + |w|] == w[1..];
      DigitsSkipped(s, i + 1, w[1..]);
    }
  }

  // ---------------------------------------------------------------------------
  // Every text is parsed as what it says
  // ---------------------------------------------------------------------------

  lemma {:induction false} HexCharValue(d: HexDigit)
    requires d.n < 16
    ensures HexValue((if d.upper then UPPER_HEX_DIGITS else HEX_DIGITS)[d.n]) == d.n
  {
    match d.n
    case 0 => case 1 => case 2 => case 3 => case 4 => case 5 => case 6 => case 7 =>
    case 8 => case 9 => case 10 => case 11 => case 12 => case 13 => case 14 => case _ =>
  }

  lemma {:induction false} HexReads(s: string, i: nat, digits: seq<HexDigit>)
    requires FourDigits(digits) && At(s, i, HexSpelled(digits))
    ensures Hex4(s, i) == CodeOf(digits)
  {
    var w := HexSpelled(digits);
    forall k | 0 <= k < 4 ensures HexValue(s[i + k]) == digits[k].n {
      AtChar(s, i, w, k);
      assert digits[k] in digits;
      HexCharValue(digits[k]);
    }
    assert HexValue(s[i + 0]) == digits[0].n;
  }

  /** No escaped low surrogate stands at j. */
  predicate NoLowAt(s: string, j: nat) {
    !(Is(s, j, '\\') && Is(s, j + 1, 'u') && IsLowSurrogate(Hex4(s, j + 2)))
  }

  lemma {:induction false} CharReads(s: string, i: nat, c: Char)
    requires WellChar(c) && At(s, i, CharSpelled(c)) && (IsHex(c, false) ==> NoLowAt(s, i + 6))
    ensures i < |s| && s[i] != '"' && ParseUnit(s, i) == Unit(CharSays(c), i + |CharSpelled(c)|)
  {
    match c
    case Plain(_) => AtChar(s, i, CharSpelled(c), 0);
    case Short(k) => ShortReads(s, i, k);
    case Hex(digits) => HexCharReads(s, i, digits);
    case Pair(high, low) => PairReads(s, i, high, low);
  }

  lemma {:induction false} ShortReads(s: string, i: nat, k: nat)
    requires k < 8 && At(s, i, CharSpelled(Short(k)))
    ensures i < |s| && s[i] != '"' && ParseUnit(s, i) == Unit(SHORT_CODES[k], i + 2)
  {
    AtChar(s, i, CharSpelled(Short(k)), 0);
    AtChar(s, i, CharSpelled(Short(k)), 1);
    match k {
      case 0 => case 1 => case 2 => case 3 => case 4 => case 5 => case 6 => case _ =>
    }
  }

  /** An escape with four hexadecimal digits. */
  lemma {:induction false} EscapeAt(s: string, i: nat, digits: seq<HexDigit>)
    requires FourDigits(digits) && At(s, i, "\\u" + HexSpelled(digits))
    ensures Is(s, i, '\\') && Is(s, i + 1, 'u') && Hex4(s, i + 2) == CodeOf(digits)
  {
    hide At, Hex4, CodeOf, HexSpelled;
    AtSplit(s, i, "\\u", HexSpelled(digits));
    AtChar(s, i, "\\u", 0);
    AtChar(s, i, "\\u", 1);
    HexReads(s, i + 2, digits);
  }

  lemma {:induction false} HexCharReads(s: string, i: nat, digits: seq<HexDigit>)
    requires FourDigits(digits) && At(s, i, CharSpelled(Hex(digits)))
    requires IsHex(Hex(digits), false) ==> NoLowAt(s, i + 6)
    ensures i < |s| && s[i] != '"' && ParseUnit(s, i) == Unit(CodeOf(digits), i + 6)
  {
    hide At, Hex4;
    EscapeAt(s, i, digits);
  }

  lemma {:induction false} PairReads(s: string, i: nat, high: seq<HexDigit>, low: seq<HexDigit>)
    requires WellChar(Pair(high, low)) && At(s, i, CharSpelled(Pair(high, low)))
    ensures i < |s| && s[i] != '"' && ParseUnit(s, i) == Unit(CharSays(Pair(high, low)), i + 12)
  {
    hide At, Hex4, CodeOf, HexSpelled, ParseUnit, CharSpelled;
    var h, l := "\\u" + HexSpelled(high), "\\u" + HexSpelled(low);
    PairSpelled(high, low);
    AtSplit(s, i, h, l);
    EscapeAt(s, i, high);
    EscapeAt(s, i + 6, low);
    PairOfEscapes(s, i);
  }

  lemma {:induction false} PairSpelled(high: seq<HexDigit>, low: seq<HexDigit>)
    requires WellChar(Pair(high, low))
    ensures CharSpelled(Pair(high, low)) == ("\\u" + HexSpelled(high)) + ("\\u" + HexSpelled(low))
    ensures |"\\u" + HexSpelled(high)| == 6
  {
  }

  lemma {:induction false} PairOfEscapes(s: string, i: nat)
    requires Is(s, i, '\\') && Is(s, i + 1, 'u') && Is(s, i + 6, '\\') && Is(s, i + 7, 'u')
    requires IsHighSurrogate(Hex4(s, i + 2)) && IsLowSurrogate(Hex4(s, i + 8))
    ensures ParseUnit(s, i) == Unit(65536 + (Hex4(s, i + 2) - 55296) * 1024 + (Hex4(s, i + 8) - 56320), i + 12)
  {
    hide Hex4;
  }

  /** Behind a character of a string there is no low surrogate, unless it is the next one. */
  lemma {:induction false} NoLowBehind(s: string, j: nat, chars: seq<Char>)
    requires WellChars(chars) && At(s, j, CharsSpelled(chars) + "\"") && (chars != [] ==> !IsHex(chars[0], true))
    ensures NoLowAt(s, j)
  {
    if chars == [] {
      AtChar(s, j, "\"", 0);
    } else {
      TailWell(chars);
      CharsParts(s, j, chars);
      NoLowAtChar(s, j, chars[0]);
    }
  }

  lemma {:induction false} NoLowAtChar(s: string, j: nat, c: Char)
    requires WellChar(c) && !IsHex(c, true) && At(s, j, CharSpelled(c))
    ensures NoLowAt(s, j)
  {
    hide At, Hex4, HexSpelled;
    match c
    case Plain(_) => AtChar(s, j, CharSpelled(c), 0);
    case Short(k) => NoLowAtShort(s, j, k);
    case Hex(digits) => EscapeAt(s, j, digits);
    case Pair(high, low) =>
      PairSpelled(high, low);
      AtSplit(s, j, "\\u" + HexSpelled(high), "\\u" + HexSpelled(low));
      EscapeAt(s, j, high);
  }

  lemma {:induction false} NoLowAtShort(s: string, j: nat, k: nat)
    requires k < 8 && At(s, j, CharSpelled(Short(k)))
    ensures NoLowAt(s, j)
  {
    AtChar(s, j, CharSpelled(Short(k)), 1);
    match k {
      case 0 => case 1 => case 2 => case 3 => case 4 => case 5 => case 6 => case _ =>
    }
  }

  lemma {:induction false} CharsParts(s: string, i: nat, chars: seq<Char>)
    requires WellChars(chars) && chars != [] && WellChar(chars[0]) && WellChars(chars[1..])
    ensures At(s, i, CharsSpelled(chars) + "\"") <==>
      At(s, i, CharSpelled(chars[0])) && At(s, i + |CharSpelled(chars[0])|, CharsSpelled(chars[1..]) + "\"")
  {
    hide At, CharSpelled, WellChar;
    var first, rest := CharSpelled(chars[0]), CharsSpelled(chars[1..]);
    assert CharsSpelled(chars) + "\"" == first + (rest + "\"");
    AtSplit(s, i, first, rest + "\"");
  }

  lemma {:induction false} CharsUnfold(chars: seq<Char>)
    requires WellChars(chars) && chars != []
    ensures WellChar(chars[0]) && WellChars(chars[1..])
    ensures CharsSpelled(chars) == CharSpelled(chars[0]) + CharsSpelled(chars[1..])
    ensures CharsSay(chars) == [CharSays(chars[0])] + CharsSay(chars[1..])
  {
    TailWell(chars);
  }

  lemma {:induction false} NoLowNext(chars: seq<Char>)
    requires WellChars(chars) && chars != [] && IsHex(chars[0], false)
    ensures chars[1..] != [] ==> !IsHex(chars[1..][0], true)
  {
  }

  lemma {:induction false} HexIsSix(c: Char)
    requires WellChar(c)
    ensures IsHex(c, false) ==> |CharSpelled(c)| == 6
  {
  }

  lemma {:induction false} CharsRead(s: string, i: nat, chars: seq<Char>)
    requires WellChars(chars) && At(s, i, CharsSpelled(chars) + "\"")
    ensures ParseStringBody(s, i) == Parsed(CharsSay(chars), i + |CharsSpelled(chars)| + 1)
    decreases |chars|
  {
    hide At, CharSpelled, CharSays, WellChar, WellChars, ParseUnit, ParseStringBody, IsHex, NoLowAt,
      CharsSpelled, CharsSay;
    if chars == [] {
      NoCharsRead(s, i);
    } else {
      CharsUnfold(chars);
      var w, rest := CharSpelled(chars[0]), chars[1..];
      CharsParts(s, i, chars);
      CharsRead(s, i + |w|, rest);
      if IsHex(chars[0], false) {
        NoLowNext(chars);
        NoLowBehind(s, i + |w|, rest);
      }
      HexIsSix(chars[0]);
      CharReads(s, i, chars[0]);
      OneMoreUnit(s, i);
    }
  }

  lemma {:induction false} NoCharsRead(s: string, i: nat)
    requires At(s, i, CharsSpelled([]) + "\"")
    ensures ParseStringBody(s, i) == Parsed(CharsSay([]), i + |CharsSpelled([])| + 1)
  {
    AtChar(s, i, "\"", 0);
  }

  lemma {:induction false} OneMoreUnit(s: string, i: nat)
    requires i < |s| && s[i] != '"' && ParseUnit(s, i).Unit? && ParseStringBody(s, ParseUnit(s, i).next).Parsed?
    ensures var Parsed(codes, end) := ParseStringBody(s, ParseUnit(s, i).next);
      ParseStringBody(s, i) == Parsed([ParseUnit(s, i).code] + codes, end)
  {
  }

  lemma {:induction false} QuotedReads(s: string, i: nat, chars: seq<Char>)
    requires WellChars(chars) && At(s, i, Quoted(chars))
    ensures Is(s, i, '"') && ParseStringBody(s, i + 1) == Parsed(CharsSay(chars), i + |Quoted(chars)|)
  {
    assert Quoted(chars) == "\"" + (CharsSpelled(chars) + "\"");
    AtSplit(s, i, "\"", CharsSpelled(chars) + "\"");
    AtChar(s, i, "\"", 0);
    CharsRead(s, i + 1, chars);
  }

  /** A number ends here: nothing follows that could go on with it. */
  predicate Stops(s: string, end: nat) {
    end < |s| ==> !DigitChar(s[end]) && s[end] != '.' && s[end] != 'e' && s[end] != 'E'
  }

  lemma {:induction false} WholeReads(s: string, i: nat, w: string)
    requires At(s, i, w) && w != "" && DigitText(w) && (w[0] == '0' ==> w == "0")
    requires i + |w| < |s| ==> !DigitChar(s[i + |w|])
    ensures IntEnd(s, i) == i + |w|
  {
    AtChar(s, i, w, 0);
    DigitsSkipped(s, i, w);
  }

  lemma {:induction false} FractionReads(s: string, i: nat, fraction: string)
    requires At(s, i, FractionSpelled(fraction)) && DigitText(fraction)
    requires var end := i + |FractionSpelled(fraction)|;
      end < |s| ==> !DigitChar(s[end]) && (fraction == "" ==> s[end] != '.')
    ensures FracEnd(s, i) == i + |FractionSpelled(fraction)|
  {
    if fraction != "" {
      AtSplit(s, i, ".", fraction);
      AtChar(s, i, ".", 0);
      AtChar(s, i + 1, fraction, 0);
      DigitsSkipped(s, i + 1, fraction);
    }
  }

  lemma {:induction false} ExponentReads(s: string, i: nat, e: Exponent)
    requires At(s, i, ExponentSpelled(e))
    requires e.Exponent? ==> e.letter in {'e', 'E'} && e.sign in ["", "+", "-"] && e.digits != "" && DigitText(e.digits)
    requires var end := i + |ExponentSpelled(e)|;
      end < |s| ==> !DigitChar(s[end]) && (e.NoExponent? ==> s[end] !in {'e', 'E'})
    ensures ExpEnd(s, i) == i + |ExponentSpelled(e)|
  {
    hide At, SkipDigits;
    AtWithin(s, i, ExponentSpelled(e));
    if e.Exponent? {
      assert [e.letter] + e.sign + e.digits + "" == [e.letter] + e.sign + e.digits;
      AtParts(s, i, [e.letter], e.sign, e.digits, "");
      AtChar(s, i, [e.letter], 0);
      AtChar(s, i + 1 + |e.sign|, e.digits, 0);
      if e.sign != "" {
        AtChar(s, i + 1, e.sign, 0);
      }
      DigitsSkipped(s, i + 1 + |e.sign|, e.digits);
    }
  }

  /** What the parts of a number start with tells them apart. */
  lemma {:induction false} PartStarts(t: Text)
    requires t.NumberText? && WellNumber(t)
    ensures FractionSpelled(t.fraction) == "" <==> t.fraction == ""
    ensures t.fraction != "" ==> FractionSpelled(t.fraction)[0] == '.'
    ensures ExponentSpelled(t.exponent) == "" <==> t.exponent.NoExponent?
    ensures t.exponent.Exponent? ==> ExponentSpelled(t.exponent)[0] in {'e', 'E'}
  {
  }

  lemma {:induction false} NumberReads(s: string, i: nat, t: Text)
    requires t.NumberText? && WellNumber(t) && At(s, i, NumberSpelled(t)) && Stops(s, i + |NumberSpelled(t)|)
    ensures ParseNumber(s, i) == Parsed(Number(NumberSpelled(t)), i + |NumberSpelled(t)|)
    ensures i < |s| && StartsNumber(s[i])
  {
    hide IntEnd, FracEnd, ExpEnd, At, FractionSpelled, ExponentSpelled, NumberSpelled;
    NumberParts(s, i, t);
    PartStarts(t);
    var start := if t.minus then i + 1 else i;
    var j := start + |t.whole|;
    var k := j + |FractionSpelled(t.fraction)|;
    AtChar(s, start, t.whole, 0);
    if t.fraction != "" {
      AtChar(s, j, FractionSpelled(t.fraction), 0);
    }
    if t.exponent.Exponent? {
      AtChar(s, k, ExponentSpelled(t.exponent), 0);
    }
    WholeReads(s, start, t.whole);
    FractionReads(s, j, t.fraction);
    ExponentReads(s, k, t.exponent);
    AtIs(s, i, NumberSpelled(t));
  }

  lemma {:induction false} NumberParts(s: string, i: nat, t: Text)
    requires t.NumberText? && At(s, i, NumberSpelled(t))
    ensures var start := if t.minus then i + 1 else i;
      var j := start + |t.whole|;
      var k := j + |FractionSpelled(t.fraction)|;
      && (t.minus ==> Is(s, i, '-')) && At(s, start, t.whole) && At(s, j, FractionSpelled(t.fraction))
      && At(s, k, ExponentSpelled(t.exponent)) && i + |NumberSpelled(t)| == k + |ExponentSpelled(t.exponent)| <= |s|
  {
    hide At, FractionSpelled, ExponentSpelled;
    var minus := if t.minus then "-" else "";
    AtParts(s, i, minus, t.whole, FractionSpelled(t.fraction), ExponentSpelled(t.exponent));
    if t.minus {
      AtChar(s, i, minus, 0);
    }
  }

  lemma {:induction false} FirstCharacter(t: Text)
    requires Well(t)
    ensures Spelled(t) != "" && (Spelled(t)[0] in {'n', 't', 'f', '"', '[', '{', '-'} || DigitChar(Spelled(t)[0]))
  {
    if t.NumberText? {
      var w := NumberSpelled(t);
      assert w[0] == if t.minus then '-' else t.whole[0];
    }
  }

  lemma {:induction false} WordReads(s: string, i: nat, t: Text)
    requires t.NullText? || t.TrueText? || t.FalseText?
    requires At(s, i, Spelled(t))
    ensures ParseValue(s, i) == Parsed(Says(t), i + |Spelled(t)|)
  {
    AtChar(s, i, Spelled(t), 0);
    WordFirst(s, i, "null");
    WordFirst(s, i, "true");
    WordFirst(s, i, "false");
  }

  /** A text in its place is parsed as what it says; a number only where nothing goes on with it. */
  lemma {:induction false} TextReads(s: string, i: nat, t: Text)
    requires Well(t) && At(s, i, Spelled(t)) && (t.NumberText? ==> Stops(s, i + |Spelled(t)|))
    ensures ParseValue(s, i) == Parsed(Says(t), i + |Spelled(t)|)
    decreases t, 0
  {
    hide At, SkipWs, NumberSpelled, ItemsSpelled, PairsSpelled, Quoted, ParseNumber, ParseElements, ParseMembers;
    match t
    case NumberText(_, _, _, _) =>
      NumberReads(s, i, t);
      WordFirst(s, i, "null");
      WordFirst(s, i, "true");
      WordFirst(s, i, "false");
    case StringText(chars) => QuotedReads(s, i, chars);
    case EmptyArray(blank) => EmptyReads(s, i, blank, '[', ']');
    case ArrayText(items) =>
      AtSplit(s, i, "[", ItemsSpelled(items));
      AtChar(s, i, "[", 0);
      ItemsRead(s, i + 1, items);
    case EmptyObject(blank) => EmptyReads(s, i, blank, '{', '}');
    case ObjectText(pairs) =>
      AtSplit(s, i, "{", PairsSpelled(pairs));
      AtChar(s, i, "{", 0);
      PairsRead(s, i + 1, pairs);
    case _ => WordReads(s, i, t);
  }

  lemma {:induction false} EmptyReads(s: string, i: nat, blank: string, open: char, close: char)
    requires BlankText(blank) && At(s, i, [open] + blank + [close]) && !BlankChar(close)
    ensures Is(s, i, open) && SkipWs(s, i + 1) == i + 1 + |blank| && Is(s, i + 1 + |blank|, close)
  {
    AtSplit(s, i, [open] + blank, [close]);
    AtSplit(s, i, [open], blank);
    AtChar(s, i, [open], 0);
    AtChar(s, i + 1 + |blank|, [close], 0);
    BlankSkipped(s, i + 1, blank);
  }

  /** A value between white space, in front of a delimiter. */
  lemma {:induction false} ValueReads(s: string, i: nat, before: string, t: Text, after: string)
    requires BlankText(before) && Well(t) && BlankText(after)
    requires At(s, i, before) && At(s, i + |before|, Spelled(t)) && At(s, i + |before| + |Spelled(t)|, after)
    requires var k := i + |before| + |Spelled(t)| + |after|; k < |s| && s[k] in {',', ']', '}'}
    ensures var j := i + |before|;
      && SkipWs(s, i) == j && j < |s| && s[j] != ']' && s[j] != '}'
      && ParseValue(s, j) == Parsed(Says(t), j + |Spelled(t)|)
      && SkipWs(s, j + |Spelled(t)|) == j + |Spelled(t)| + |after|
    decreases t, 1
  {
    hide At, Spelled, Says, ParseValue, SkipWs, Well;
    var j := i + |before|;
    FirstCharacter(t);
    AtChar(s, j, Spelled(t), 0);
    if after != "" {
      AtChar(s, j + |Spelled(t)|, after, 0);
    }
    BlankSkipped(s, i, before);
    BlankSkipped(s, j + |Spelled(t)|, after);
    TextReads(s, j, t);
  }

  /** Where the parts of the items lie. */
  lemma {:induction false} ItemsParts(s: string, i: nat, items: Items)
    requires WellItems(items) && At(s, i, ItemsSpelled(items))
    ensures var j := i + |items.before|;
      var e := j + |Spelled(items.value)|;
      var k := e + |items.after|;
      && At(s, i, items.before) && At(s, j, Spelled(items.value)) && At(s, e, items.after)
      && Is(s, k, if items.LastItem? then ']' else ',')
      && (items.Item? ==> At(s, k + 1, ItemsSpelled(items.rest)))
      && i + |ItemsSpelled(items)| == k + 1 + if items.LastItem? then 0 else |ItemsSpelled(items.rest)|
  {
    hide At, Spelled;
    var rest := if items.LastItem? then "]" else "," + ItemsSpelled(items.rest);
    AtParts(s, i, items.before, Spelled(items.value), items.after, rest);
    var k := i + |items.before| + |Spelled(items.value)| + |items.after|;
    AtChar(s, k, rest, 0);
    if items.Item? {
      AtSplit(s, k, ",", ItemsSpelled(items.rest));
    }
  }

  lemma {:induction false} ItemsRead(s: string, i: nat, items: Items)
    requires WellItems(items) && At(s, i, ItemsSpelled(items))
    ensures ParseElements(s, SkipWs(s, i)) == Parsed(ItemsSay(items), i + |ItemsSpelled(items)|)
    ensures !Is(s, SkipWs(s, i), ']')
    decreases items, 2
  {
    hide At, Spelled, Says, ParseValue, SkipWs, ItemsSpelled, Well;
    ItemsParts(s, i, items);
    ValueReads(s, i, items.before, items.value, items.after);
    var e := i + |items.before| + |Spelled(items.value)|;
    if items.Item? {
      ItemsRead(s, e + |items.after| + 1, items.rest);
    }
    assert ParseElements(s, SkipWs(s, i)) == AfterElement(s, Says(items.value), e);
  }

  /** Where the parts of the members lie. */
  lemma {:induction false} PairsParts(s: string, i: nat, pairs: Pairs)
    requires WellPairs(pairs) && At(s, i, PairsSpelled(pairs))
    ensures var c := i + |pairs.before| + |Quoted(pairs.key)| + |pairs.behindKey|;
      var j := c + 1 + |pairs.before'|;
      var e := j + |Spelled(pairs.value)|;
      var k := e + |pairs.after|;
      && At(s, i, pairs.before) && At(s, i + |pairs.before|, Quoted(pairs.key))
      && At(s, i + |pairs.before| + |Quoted(pairs.key)|, pairs.behindKey) && Is(s, c, ':')
      && At(s, c + 1, pairs.before') && At(s, j, Spelled(pairs.value)) && At(s, e, pairs.after)
      && Is(s, k, if pairs.LastPair? then '}' else ',')
      && (pairs.OnePair? ==> At(s, k + 1, PairsSpelled(pairs.rest)))
      && i + |PairsSpelled(pairs)| == k + 1 + if pairs.LastPair? then 0 else |PairsSpelled(pairs.rest)|
  {
    hide At, Spelled, Quoted;
    var rest := if pairs.LastPair? then "}" else "," + PairsSpelled(pairs.rest);
    AtSplit(s, i, KeySpelled(pairs), pairs.before' + Spelled(pairs.value) + pairs.after + rest);
    KeyParts(s, i, pairs);
    var c := i + |KeySpelled(pairs)|;
    AtParts(s, c, pairs.before', Spelled(pairs.value), pairs.after, rest);
    var k := c + |pairs.before'| + |Spelled(pairs.value)| + |pairs.after|;
    AtChar(s, k, rest, 0);
    if pairs.OnePair? {
      AtSplit(s, k, ",", PairsSpelled(pairs.rest));
    }
  }

  lemma {:induction false} KeyParts(s: string, i: nat, pairs: Pairs)
    requires WellChars(pairs.key) && At(s, i, KeySpelled(pairs))
    ensures var c := i + |pairs.before| + |Quoted(pairs.key)| + |pairs.behindKey|;
      && At(s, i, pairs.before) && At(s, i + |pairs.before|, Quoted(pairs.key))
      && At(s, i + |pairs.before| + |Quoted(pairs.key)|, pairs.behindKey)
      && Is(s, c, ':') && i + |KeySpelled(pairs)| == c + 1
  {
    hide At, Quoted;
    AtParts(s, i, pairs.before, Quoted(pairs.key), pairs.behindKey, ":");
    AtChar(s, i + |pairs.before| + |Quoted(pairs.key)| + |pairs.behindKey|, ":", 0);
  }

  lemma {:induction false} PairsRead(s: string, i: nat, pairs: Pairs)
    requires WellPairs(pairs) && At(s, i, PairsSpelled(pairs))
    ensures ParseMembers(s, SkipWs(s, i)) == Parsed(PairsSay(pairs), i + |PairsSpelled(pairs)|)
    ensures !Is(s, SkipWs(s, i), '}')
    decreases pairs, 2
  {
    hide At, Spelled, Says, ParseValue, SkipWs, Quoted, CharsSay, ParseStringBody, PairsSpelled, Well, WellChars;
    PairsParts(s, i, pairs);
    KeyReads(s, i, pairs.before, pairs.key, pairs.behindKey);
    var c := i + |pairs.before| + |Quoted(pairs.key)| + |pairs.behindKey|;
    ValueReads(s, c + 1, pairs.before', pairs.value, pairs.after);
    var e := c + 1 + |pairs.before'| + |Spelled(pairs.value)|;
    if pairs.OnePair? {
      PairsRead(s, e + |pairs.after| + 1, pairs.rest);
    }
    var m := Member(CharsSay(pairs.key), Says(pairs.value));
    assert ParseMember(s, i + |pairs.before|) == Parsed(m, e);
    assert ParseMembers(s, SkipWs(s, i)) == AfterMember(s, m, e);
  }

  /** A key between white space, with its colon. */
  lemma {:induction false} KeyReads(s: string, i: nat, before: string, key: seq<Char>, after: string)
    requires BlankText(before) && WellChars(key) && BlankText(after)
    requires At(s, i, before) && At(s, i + |before|, Quoted(key)) && At(s, i + |before| + |Quoted(key)|, after)
    requires Is(s, i + |before| + |Quoted(key)| + |after|, ':')
    ensures var j := i + |before|;
      && SkipWs(s, i) == j && Is(s, j, '"')
      && ParseStringBody(s, j + 1) == Parsed(CharsSay(key), j + |Quoted(key)|)
      && SkipWs(s, j + |Quoted(key)|) == j + |Quoted(key)| + |after|
  {
    hide At, Quoted, CharsSay, ParseStringBody, SkipWs, WellChars;
    QuotedReads(s, i + |before|, key);
    BlankSkipped(s, i, before);
    BlankSkipped(s, i + |before| + |Quoted(key)|, after);
  }

  lemma {:induction false} DocumentParts(d: Document)
    requires WellDocument(d)
    ensures var s, j, e := DocumentSpelled(d), |d.before|, |d.before| + |Spelled(d.value)|;
      At(s, 0, d.before) && At(s, j, Spelled(d.value)) && At(s, e, d.after) && |s| == e + |d.after|
  {
    hide Spelled;
    var s := DocumentSpelled(d);
    assert At(s, 0, s) && d.before + Spelled(d.value) + d.after + "" == s;
    AtParts(s, 0, d.before, Spelled(d.value), d.after, "");
  }

  /** Main result: whatever value is written in whatever way, the parser returns that value. */
  lemma {:induction false} WrittenIsParsed(d: Document)
    requires WellDocument(d)
    ensures ParseDocument(DocumentSpelled(d)) == Parsed(Says(d.value), |DocumentSpelled(d)|)
  {
    hide Spelled, Says, ParseValue, SkipWs, At, Well;
    var s, j, e := DocumentSpelled(d), |d.before|, |d.before| + |Spelled(d.value)|;
    DocumentParts(d);
    FirstCharacter(d.value);
    AtChar(s, j, Spelled(d.value), 0);
    BlankSkipped(s, 0, d.before);
    if d.after != "" {
      AtChar(s, e, d.after, 0);
    }
    BlankSkipped(s, e, d.after);
    TextReads(s, j, d.value);
  }
}
