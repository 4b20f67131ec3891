/** A parse looks at nothing behind the end of what it has parsed: the converse of the stability lemmas of `Json`. */
module JsonPrefix {
  import opened Json

  lemma {:induction false} SkipWsInPrefix(s: string, n: nat, i: nat)
    requires i <= n <= |s|
    ensures SkipWs(s[..n], i) == if SkipWs(s, i) < n then SkipWs(s, i) else n
    decreases n - i
  {
    if i < n && IsWs(s[i]) {
      SkipWsInPrefix(s, n, i + 1);
    }
  }

  lemma {:induction false} SkipDigitsInPrefix(s: string, n: nat, i: nat)
    requires i <= n <= |s|
    ensures SkipDigits(s[..n], i) == if SkipDigits(s, i) < n then SkipDigits(s, i) else n
    decreases n - i
  {
    if i < n && IsDigit(s[i]) {
      SkipDigitsInPrefix(s, n, i + 1);
    }
  }

  lemma {:induction false} PartsInPrefix(s: string, n: nat, i: nat)
    requires i <= n <= |s|
    ensures IntEnd(s, i) <= n ==> IntEnd(s[..n], i) == IntEnd(s, i)
    ensures FracEnd(s, i) <= n ==> FracEnd(s[..n], i) == FracEnd(s, i)
    ensures ExpEnd(s, i) <= n ==> ExpEnd(s[..n], i) == ExpEnd(s, i)
  {
    SkipDigitsInPrefix(s, n, i);
    if i + 1 < n {
      SkipDigitsInPrefix(s, n, i + 1);
    }
    if i + 2 < n {
      SkipDigitsInPrefix(s, n, i + 2);
    }
  }

  lemma {:induction false} NumberInPrefix(s: string, n: nat, i: nat)
    requires i <= n <= |s| && ParseNumber(s, i).Parsed? && ParseNumber(s, i).end <= n
    ensures ParseNumber(s[..n], i) == ParseNumber(s, i)
  {
    hide IntEnd, FracEnd, ExpEnd;
    var start := if Is(s, i, '-') then i + 1 else i;
    var whole := IntEnd(s, start);
    var frac := FracEnd(s, whole);
    PartsInPrefix(s, n, start);
    PartsInPrefix(s, n, whole);
    PartsInPrefix(s, n, frac);
    assert s[..n][i..ExpEnd(s, frac)] == s[i..ExpEnd(s, frac)];
  }

  lemma {:induction false} UnitInPrefix(s: string, n: nat, i: nat)
    requires i < n <= |s| && ParseUnit(s, i).Unit? && ParseUnit(s, i).next <= n
    ensures ParseUnit(s[..n], i) == ParseUnit(s, i)
  {
  }

  lemma {:induction false} StringBodyInPrefix(s: string, n: nat, i: nat)
    requires i <= n <= |s| && ParseStringBody(s, i).Parsed? && ParseStringBody(s, i).end <= n
    ensures ParseStringBody(s[..n], i) == ParseStringBody(s, i)
    decreases |s| - i
  {
    if s[i] != '"' {
      UnitInPrefix(s, n, i);
      StringBodyInPrefix(s, n, ParseUnit(s, i).next);
    }
  }

  lemma {:induction false} WordInPrefix(s: string, n: nat, i: nat, word: string)
    requires n <= |s|
    ensures HasWord(s[..n], i, word) <==> HasWord(s, i, word) && i + |word| <= n
  {
    if i + |word| <= n {
      assert s[..n][i..i + |word|] == s[i..i + |word|];
    }
  }

  lemma {:induction false} LiteralInPrefix(s: string, n: nat, i: nat)
    requires i < n <= |s| && ParseValue(s, i).Parsed? && ParseValue(s, i).end <= n
    requires s[i] != '"' && s[i] != '{' && s[i] != '['
    ensures ParseValue(s[..n], i) == ParseValue(s, i)
  {
    WordInPrefix(s, n, i, "null");
    WordInPrefix(s, n, i, "true");
    WordInPrefix(s, n, i, "false");
    if ParseValue(s, i) == ParseNumber(s, i) {
      NumberInPrefix(s, n, i);
    }
  }

  lemma {:induction false} ValueInPrefix(s: string, n: nat, i: nat)
    requires i <= n <= |s| && ParseValue(s, i).Parsed? && ParseValue(s, i).end <= n
    ensures ParseValue(s[..n], i) == ParseValue(s, i)
    decreases |s| - i, 0
  {
    if s[i] == '"' {
      StringBodyInPrefix(s, n, i + 1);
    } else if s[i] == '{' {
      SkipWsInPrefix(s, n, i + 1);
      var j := SkipWs(s, i + 1);
      if !Is(s, j, '}') {
        MembersInPrefix(s, n, j);
      }
    } else if s[i] == '[' {
      SkipWsInPrefix(s, n, i + 1);
      var j := SkipWs(s, i + 1);
      if !Is(s, j, ']') {
        ElementsInPrefix(s, n, j);
      }
    } else {
      LiteralInPrefix(s, n, i);
    }
  }

  lemma {:induction false} ElementsInPrefix(s: string, n: nat, i: nat)
    requires i <= n <= |s| && ParseElements(s, i).Parsed? && ParseElements(s, i).end <= n
    ensures ParseElements(s[..n], i) == ParseElements(s, i)
    decreases |s| - i, 1
  {
    var Parsed(v, end) := ParseValue(s, i);
    ValueInPrefix(s, n, i);
    AfterElementInPrefix(s, n, v, end);
  }

  /** A delimiter before n, behind white space. */
  lemma {:induction false} DelimiterInPrefix(s: string, n: nat, i: nat, c: char)
    requires i <= n <= |s| && Is(s, SkipWs(s, i), c) && SkipWs(s, i) < n
    ensures SkipWs(s[..n], i) == SkipWs(s, i) && forall d :: Is(s[..n], SkipWs(s, i), d) <==> d == c
  {
    SkipWsInPrefix(s, n, i);
  }

  lemma {:induction false} AfterElementInPrefix(s: string, n: nat, v: Value, end: nat)
    requires end <= n <= |s| && AfterElement(s, v, end).Parsed? && AfterElement(s, v, end).end <= n
    ensures AfterElement(s[..n], v, end) == AfterElement(s, v, end)
    decreases |s| - end, 2
  {
    if Is(s, SkipWs(s, end), ']') {
      DelimiterInPrefix(s, n, end, ']');
    } else {
      MoreElementsInPrefix(s, n, v, end);
    }
  }

  lemma {:induction false} MoreElementsInPrefix(s: string, n: nat, v: Value, end: nat)
    requires end <= n <= |s| && AfterElement(s, v, end).Parsed? && AfterElement(s, v, end).end <= n
    requires Is(s, SkipWs(s, end), ',')
    ensures AfterElement(s[..n], v, end) == AfterElement(s, v, end)
    decreases |s| - end, 1
  {
    var j := SkipWs(s, end);
    DelimiterInPrefix(s, n, end, ',');
    var k := SkipWs(s, j + 1);
    ElementsInPrefix(s, n, k);
    SkipWsInPrefix(s, n, j + 1);
    assert AfterElement(s, v, end) == Parsed([v] + ParseElements(s, k).value, ParseElements(s, k).end);
  }

  lemma {:induction false} MemberInPrefix(s: string, n: nat, i: nat)
    requires i <= n <= |s| && ParseMember(s, i).Parsed? && ParseMember(s, i).end <= n
    ensures ParseMember(s[..n], i) == ParseMember(s, i)
    decreases |s| - i, 1
  {
    var Parsed(key, end) := ParseStringBody(s, i + 1);
    StringBodyInPrefix(s, n, i + 1);
    AfterKeyInPrefix(s, n, key, end);
  }

  lemma {:induction false} AfterKeyInPrefix(s: string, n: nat, key: seq<int>, end: nat)
    requires end <= n <= |s| && AfterKey(s, key, end).Parsed? && AfterKey(s, key, end).end <= n
    ensures AfterKey(s[..n], key, end) == AfterKey(s, key, end)
    decreases |s| - end, 1
  {
    var j := SkipWs(s, end);
    DelimiterInPrefix(s, n, end, ':');
    SkipWsInPrefix(s, n, j + 1);
    ValueInPrefix(s, n, SkipWs(s, j + 1));
  }

  lemma {:induction false} MembersInPrefix(s: string, n: nat, i: nat)
    requires i <= n <= |s| && ParseMembers(s, i).Parsed? && ParseMembers(s, i).end <= n
    ensures ParseMembers(s[..n], i) == ParseMembers(s, i)
    decreases |s| - i, 2
  {
    var Parsed(m, end) := ParseMember(s, i);
    MemberInPrefix(s, n, i);
    AfterMemberInPrefix(s, n, m, end);
  }

  lemma {:induction false} AfterMemberInPrefix(s: string, n: nat, m: Member, end: nat)
    requires end <= n <= |s| && AfterMember(s, m, end).Parsed? && AfterMember(s, m, end).end <= n
    ensures AfterMember(s[..n], m, end) == AfterMember(s, m, end)
    decreases |s| - end, 3
  {
    if Is(s, SkipWs(s, end), '}') {
      DelimiterInPrefix(s, n, end, '}');
    } else {
      var j := SkipWs(s, end);
      DelimiterInPrefix(s, n, end, ',');
      SkipWsInPrefix(s, n, j + 1);
      MembersInPrefix(s, n, SkipWs(s, j + 1));
    }
  }
}
