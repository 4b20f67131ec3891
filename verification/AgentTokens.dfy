/** Agent token hashes: unpadded base64url fields joined by dollar signs. Models backend/app/core/agent_tokens.py;
    the alphabet and the padding are those of sections 3.2 and 5 of RFC 4648. */
module AgentTokens {
  import opened Models

  type Byte = b: int | 0 <= b < 256
  type Sextet = v: int | 0 <= v < 64

  // ---------------------------------------------------------------------------
  // base64url with padding
  // ---------------------------------------------------------------------------

  function Letter(v: Sextet): char {
    if v < 26 then 'A' + v as char
    else if v < 52 then 'a' + (v - 26) as char
    else if v < 62 then '0' + (v - 52) as char
    else if v == 62 then '-'
    else '_'
  }

  function ValueOf(c: char): Option<Sextet> {
    if 'A' <= c <= 'Z' then Some((c - 'A') as int)
    else if 'a' <= c <= 'z' then Some((c - 'a') as int + 26)
    else if '0' <= c <= '9' then Some((c - '0') as int + 52)
    else if c == '-' then Some(62)
    else if c == '_' then Some(63)
    else None
  }

  /** Three bytes as four letters. */
  function Group(a: Byte, b: Byte, c: Byte): (s: string)
    ensures |s| == 4
  {
    [Letter(a / 4), Letter(a % 4 * 16 + b / 16), Letter(b % 16 * 4 + c / 64), Letter(c % 64)]
  }

  /** `base64.urlsafe_b64encode`. */
  function EncodePadded(bytes: seq<Byte>): string {
    if bytes == [] then ""
    else
      var a := bytes[0];
      if |bytes| == 1 then [Letter(a / 4), Letter(a % 4 * 16), '=', '=']
      else
        var b := bytes[1];
        if |bytes| == 2 then [Letter(a / 4), Letter(a % 4 * 16 + b / 16), Letter(b % 16 * 4), '=']
        else Group(a, b, bytes[2]) + EncodePadded(bytes[3..])
  }

  /** `base64.urlsafe_b64decode`, on text of the alphabet; only the last group may be padded. */
  function DecodePadded(s: string): Option<seq<Byte>> {
    if s == "" then Some([])
    else if |s| < 4 || ValueOf(s[0]).None? || ValueOf(s[1]).None? then None
    else
      var v0, v1 := ValueOf(s[0]).value, ValueOf(s[1]).value;
      var a := v0 * 4 + v1 / 16;
      if |s| == 4 && s[2] == '=' && s[3] == '=' then Some([a])
      else if ValueOf(s[2]).None? then None
      else
        var v2 := ValueOf(s[2]).value;
        var b := v1 % 16 * 16 + v2 / 4;
        if |s| == 4 && s[3] == '=' then Some([a, b])
        else if ValueOf(s[3]).None? then None
        else
          match DecodePadded(s[4..])
          case None => None
          case Some(rest) => Some([a, b, v2 % 4 * 64 + ValueOf(s[3]).value] + rest)
  }

  /** `rstrip("=")`. */
  function StripPadding(s: string): string {
    if s != "" && s[|s| - 1] == '=' then StripPadding(s[..|s| - 1]) else s
  }

  function Repeat(c: char, n: nat): string { if n == 0 then "" else [c] + Repeat(c, n - 1) }

  /** `_b64encode`. */
  function B64Encode(bytes: seq<Byte>): string { StripPadding(EncodePadded(bytes)) }

  /** `_b64decode`: as much padding as the negative length leaves modulo 4. */
  function B64Decode(s: string): Option<seq<Byte>> { DecodePadded(s + Repeat('=', -|s| % 4)) }

  // ---------------------------------------------------------------------------
  // The codec round-trips
  // ---------------------------------------------------------------------------

  const UPPER := "ABCDEFGHIJKLMNOPQRSTUVWXYZ"
  const LOWER := "abcdefghijklmnopqrstuvwxyz"
  const DECIMAL := "0123456789"
  const ALPHABET := UPPER + LOWER + DECIMAL + "-_"

  /** The letters are those of the alphabet in its order, and no other character is one. */
  lemma {:induction false} LettersAreTheAlphabet(v: Sextet, c: char)
    ensures |ALPHABET| == 64 && Letter(v) == ALPHABET[v]
    ensures ValueOf(c) == Some(v) <==> c == ALPHABET[v]
    ensures ValueOf(c).None? ==> c !in ALPHABET
  {
    LetterAt(v);
    LetterValue(v);
    if ValueOf(c).Some? {
      LetterAt(ValueOf(c).value);
      ValueLetter(c);
    }
    forall i | 0 <= i < 64 && ALPHABET[i] == c ensures ValueOf(c) == Some(i) {
      LetterAt(i);
      LetterValue(i);
    }
  }

  lemma {:induction false} ValueLetter(c: char)
    requires ValueOf(c).Some?
    ensures Letter(ValueOf(c).value) == c
  {
  }

  lemma {:induction false} LetterAt(v: Sextet)
    ensures |ALPHABET| == 64 && Letter(v) == ALPHABET[v]
  {
    if v < 26 {
      UpperAt(v);
    } else if v < 52 {
      LowerAt(v - 26);
    } else if v < 62 {
      DecimalAt(v - 52);
    }
  }

  lemma {:induction false} UpperAt(v: int)
    requires 0 <= v < 26
    ensures UPPER[v] == 'A' + v as char
  {
    match v
    case 0 => case 1 => case 2 => case 3 => case 4 => case 5 => case 6 => case 7 => case 8 =>
    case 9 => case 10 => case 11 => case 12 => case 13 => case 14 => case 15 => case 16 => case 17 =>
    case 18 => case 19 => case 20 => case 21 => case 22 => case 23 => case 24 => case _ =>
  }

  lemma {:induction false} LowerAt(v: int)
    requires 0 <= v < 26
    ensures LOWER[v] == 'a' + v as char
  {
    match v
    case 0 => case 1 => case 2 => case 3 => case 4 => case 5 => case 6 => case 7 => case 8 =>
    case 9 => case 10 => case 11 => case 12 => case 13 => case 14 => case 15 => case 16 => case 17 =>
    case 18 => case 19 => case 20 => case 21 => case 22 => case 23 => case 24 => case _ =>
  }

  lemma {:induction false} DecimalAt(v: int)
    requires 0 <= v < 10
    ensures DECIMAL[v] == '0' + v as char
  {
    match v
    case 0 => case 1 => case 2 => case 3 => case 4 => case 5 => case 6 => case 7 => case 8 => case _ =>
  }

  lemma {:induction false} LetterValue(v: Sextet)
    ensures ValueOf(Letter(v)) == Some(v)
    ensures Letter(v) != '=' && Letter(v) != '$'
  {
  }

  /** The bits of three bytes in four sextets, and back. */
  lemma {:induction false} Regroup(a: Byte, b: Byte, c: Byte)
    ensures a / 4 * 4 + (a % 4 * 16 + b / 16) / 16 == a && a / 4 * 4 + (a % 4 * 16) / 16 == a
    ensures (a % 4 * 16 + b / 16) % 16 * 16 + (b % 16 * 4 + c / 64) / 4 == b
    ensures (a % 4 * 16 + b / 16) % 16 * 16 + (b % 16 * 4) / 4 == b
    ensures (b % 16 * 4 + c / 64) % 4 * 64 + c % 64 == c
  {
  }

  lemma {:induction false} DecodeGroup(s: string, v0: Sextet, v1: Sextet, v2: Sextet, v3: Sextet)
    requires |s| >= 4 && s[0] == Letter(v0) && s[1] == Letter(v1) && s[2] == Letter(v2) && s[3] == Letter(v3)
    requires DecodePadded(s[4..]).Some?
    ensures DecodePadded(s) ==
      Some([v0 * 4 + v1 / 16, v1 % 16 * 16 + v2 / 4, v2 % 4 * 64 + v3] + DecodePadded(s[4..]).value)
  {
    LetterValue(v0);
    LetterValue(v1);
    LetterValue(v2);
    LetterValue(v3);
  }

  lemma {:induction false} PaddedRoundTrip(bytes: seq<Byte>)
    ensures DecodePadded(EncodePadded(bytes)) == Some(bytes)
    decreases |bytes|
  {
    if |bytes| == 1 {
      LastByte(bytes[0]);
      assert bytes == [bytes[0]];
    } else if |bytes| == 2 {
      LastTwoBytes(bytes[0], bytes[1]);
      assert bytes == [bytes[0], bytes[1]];
    } else if |bytes| > 2 {
      PaddedRoundTrip(bytes[3..]);
      GroupComesBack(bytes[0], bytes[1], bytes[2], EncodePadded(bytes[3..]));
      assert bytes == [bytes[0], bytes[1], bytes[2]] + bytes[3..];
    }
  }

  lemma {:induction false} GroupComesBack(a: Byte, b: Byte, c: Byte, rest: string)
    requires DecodePadded(rest).Some?
    ensures DecodePadded(Group(a, b, c) + rest) == Some([a, b, c] + DecodePadded(rest).value)
  {
    var s := Group(a, b, c) + rest;
    assert s[4..] == rest;
    DecodeGroup(s, a / 4, a % 4 * 16 + b / 16, b % 16 * 4 + c / 64, c % 64);
    Regroup(a, b, c);
  }

  lemma {:induction false} LastByte(a: Byte)
    ensures DecodePadded([Letter(a / 4), Letter(a % 4 * 16), '=', '=']) == Some([a])
  {
    LetterValue(a / 4);
    LetterValue(a % 4 * 16);
    Regroup(a, 0, 0);
  }

  lemma {:induction false} LastTwoBytes(a: Byte, b: Byte)
    ensures DecodePadded([Letter(a / 4), Letter(a % 4 * 16 + b / 16), Letter(b % 16 * 4), '=']) == Some([a, b])
  {
    LetterValue(a / 4);
    LetterValue(a % 4 * 16 + b / 16);
    LetterValue(b % 16 * 4);
    Regroup(a, b, 0);
  }

  /** A byte of the text, with zeros behind its end. */
  function ByteAt(bytes: seq<Byte>, i: nat): Byte { if i < |bytes| then bytes[i] else 0 }

  /** The value of a character; padding counts as zero. */
  function BitsAt(s: string, i: nat): Sextet {
    if i < |s| && ValueOf(s[i]).Some? then ValueOf(s[i]).value else 0
  }

  /** From j on, four sextets are the number that three bytes are; signs of padding stand for the sextets that hold no
      bits of the first n bytes. */
  ghost predicate Spells(s: string, j: nat, a: Byte, b: Byte, c: Byte, n: nat) {
    && j + 4 <= |s|
    && BitsAt(s, j) * 262_144 + BitsAt(s, j + 1) * 4096 + BitsAt(s, j + 2) * 64 + BitsAt(s, j + 3)
       == a * 65_536 + b * 256 + c
    && s[j] != '=' && s[j + 1] != '=' && (s[j + 2] == '=' <==> n < 2) && (s[j + 3] == '=' <==> n < 3)
  }

  /** The encoding is, group by group, the number that the bytes are, with zeros behind the last. */
  lemma {:induction false} GroupsAreNumbers(bytes: seq<Byte>, k: nat)
    requires 3 * k < |bytes|
    ensures Spells(EncodePadded(bytes), 4 * k,
      ByteAt(bytes, 3 * k), ByteAt(bytes, 3 * k + 1), ByteAt(bytes, 3 * k + 2), |bytes| - 3 * k)
    decreases k
  {
    hide Spells, EncodePadded;
    if k > 0 {
      var a, b, c := ByteAt(bytes, 3 * k), ByteAt(bytes, 3 * k + 1), ByteAt(bytes, 3 * k + 2);
      GroupsAreNumbers(bytes[3..], k - 1);
      FirstGroup(bytes);
      SpellsBehind(
        Group(bytes[0], bytes[1], bytes[2]), EncodePadded(bytes[3..]), 4 * (k - 1), a, b, c, |bytes| - 3 * k);
    } else {
      FirstSpelled(bytes);
    }
  }

  lemma {:induction false} FirstGroup(bytes: seq<Byte>)
    requires |bytes| > 2
    ensures EncodePadded(bytes) == Group(bytes[0], bytes[1], bytes[2]) + EncodePadded(bytes[3..])
  {
  }

  lemma {:induction false} FirstSpelled(bytes: seq<Byte>)
    requires bytes != []
    ensures Spells(EncodePadded(bytes), 0, bytes[0], ByteAt(bytes, 1), ByteAt(bytes, 2), |bytes|)
  {
    hide Spells;
    if |bytes| == 1 {
      OneByteSpelled(bytes[0]);
    } else if |bytes| == 2 {
      TwoBytesSpelled(bytes[0], bytes[1]);
    } else {
      GroupSpelled(bytes[0], bytes[1], bytes[2], EncodePadded(bytes[3..]), |bytes|);
    }
  }

  lemma {:induction false} EncodedLength(bytes: seq<Byte>)
    ensures |EncodePadded(bytes)| == (|bytes| + 2) / 3 * 4
    decreases |bytes|
  {
    if |bytes| > 2 {
      EncodedLength(bytes[3..]);
    }
  }

  lemma {:induction false} SpellsBehind(front: string, rest: string, j: nat, a: Byte, b: Byte, c: Byte, n: nat)
    requires |front| == 4 && Spells(rest, j, a, b, c, n)
    ensures Spells(front + rest, j + 4, a, b, c, n)
  {
  }

  lemma {:induction false} GroupSpelled(a: Byte, b: Byte, c: Byte, rest: string, n: nat)
    requires n >= 3
    ensures Spells(Group(a, b, c) + rest, 0, a, b, c, n)
  {
    LetterValue(a / 4);
    LetterValue(a % 4 * 16 + b / 16);
    LetterValue(b % 16 * 4 + c / 64);
    LetterValue(c % 64);
    GroupNumber(a, b, c);
  }

  lemma {:induction false} OneByteSpelled(a: Byte)
    ensures Spells([Letter(a / 4), Letter(a % 4 * 16), '=', '='], 0, a, 0, 0, 1)
  {
    LetterValue(a / 4);
    LetterValue(a % 4 * 16);
    GroupNumber(a, 0, 0);
  }

  lemma {:induction false} TwoBytesSpelled(a: Byte, b: Byte)
    ensures Spells([Letter(a / 4), Letter(a % 4 * 16 + b / 16), Letter(b % 16 * 4), '='], 0, a, b, 0, 2)
  {
    LetterValue(a / 4);
    LetterValue(a % 4 * 16 + b / 16);
    LetterValue(b % 16 * 4);
    GroupNumber(a, b, 0);
  }

  lemma {:induction false} GroupNumber(a: Byte, b: Byte, c: Byte)
    ensures a / 4 * 262_144 + (a % 4 * 16 + b / 16) * 4096 + (b % 16 * 4 + c / 64) * 64 + c % 64
      == a * 65_536 + b * 256 + c
  {
  }

  /** An encoding is letters, then at most two signs of padding up to a multiple of four. */
  lemma {:induction false} EncodingShape(bytes: seq<Byte>)
    ensures exists n: nat | n <= |EncodePadded(bytes)| :: Shaped(EncodePadded(bytes), n)
    decreases |bytes|
  {
    var s := EncodePadded(bytes);
    if |bytes| >= 3 {
      EncodingShape(bytes[3..]);
      var rest := EncodePadded(bytes[3..]);
      var n: nat :| n <= |rest| && Shaped(rest, n);
      FourMoreLetters(s, rest, n);
    } else if bytes != [] {
      assert Shaped(s, |bytes| + 1);
    } else {
      assert Shaped(s, 0);
    }
  }

  predicate Plain(c: char) { c != '=' && c != '$' }

  ghost predicate Shaped(s: string, n: nat)
    requires n <= |s|
  {
    && |s| % 4 == 0 && |s| - n < 3
    && (forall i :: 0 <= i < n ==> Plain(s[i]))
    && (forall i :: n <= i < |s| ==> s[i] == '=')
  }

  lemma {:induction false} FourMoreLetters(s: string, rest: string, n: nat)
    requires n <= |rest| && Shaped(rest, n) && |s| == |rest| + 4 && s[4..] == rest
    requires Plain(s[0]) && Plain(s[1]) && Plain(s[2]) && Plain(s[3])
    ensures Shaped(s, n + 4)
  {
    assert forall i :: 4 <= i < |s| ==> s[i] == rest[i - 4];
  }

  lemma {:induction false} StripExactly(s: string, n: nat)
    requires n <= |s| && (forall i :: n <= i < |s| ==> s[i] == '=') && (n > 0 ==> s[n - 1] != '=')
    ensures StripPadding(s) == s[..n]
    decreases |s|
  {
    if n < |s| {
      StripExactly(s[..|s| - 1], n);
      assert s[..|s| - 1][..n] == s[..n];
    } else {
      assert s[..n] == s;
    }
  }

  lemma {:induction false} RepeatIs(s: string, n: nat)
    requires n <= |s| && forall i :: n <= i < |s| ==> s[i] == '='
    ensures s == s[..n] + Repeat('=', |s| - n)
    decreases |s| - n
  {
    if n < |s| {
      RepeatIs(s, n + 1);
      assert s[..n + 1] == s[..n] + ['='];
    }
  }

  /** What was stripped is what the decoder puts back. */
  lemma {:induction false} PaddingComesBack(bytes: seq<Byte>)
    ensures var s := B64Encode(bytes); s + Repeat('=', -|s| % 4) == EncodePadded(bytes)
    ensures forall c | c in B64Encode(bytes) :: Plain(c)
  {
    EncodingShape(bytes);
    var full := EncodePadded(bytes);
    var n: nat :| n <= |full| && Shaped(full, n);
    StripExactly(full, n);
    RepeatIs(full, n);
    PaddingLength(|full|, n);
  }

  lemma {:induction false} PaddingLength(full: int, n: int)
    requires full % 4 == 0 && 0 <= full - n < 3
    ensures -n % 4 == full - n
  {
  }

  /** Main result: decoding an encoding gives the bytes back, whatever they are. */
  lemma {:induction false} RoundTrip(bytes: seq<Byte>)
    ensures B64Decode(B64Encode(bytes)) == Some(bytes)
  {
    PaddingComesBack(bytes);
    PaddedRoundTrip(bytes);
  }

  // ---------------------------------------------------------------------------
  // Fields and numbers
  // ---------------------------------------------------------------------------

  /** `split("$")`. */
  function Split(s: string): (parts: seq<string>)
    ensures |parts| >= 1
  {
    if s == "" then [""]
    else
      var rest := Split(s[1..]);
      if s[0] == '$' then [""] + rest else [[s[0]] + rest[0]] + rest[1..]
  }

  lemma {:induction false} SplitField(field: string, s: string)
    requires '$' !in field
    ensures Split(field + "$" + s) == [field] + Split(s)
    decreases |field|
  {
    var whole := field + "$" + s;
    if field == "" {
      assert whole[1..] == s;
    } else {
      SplitField(field[1..], s);
      assert whole[1..] == field[1..] + "$" + s;
      assert [field[0]] + field[1..] == field;
    }
  }

  lemma {:induction false} SplitLast(field: string)
    requires '$' !in field
    ensures Split(field) == [field]
    decreases |field|
  {
    if field != "" {
      SplitLast(field[1..]);
      assert [field[0]] + field[1..] == field;
    }
  }

  function Show(n: nat): string {
    if n < 10 then ['0' + n as char] else Show(n / 10) + ['0' + (n % 10) as char]
  }

  /** `int()` on plain digits. */
  function ParseInt(s: string): Option<nat>
    decreases |s|
  {
    if s == "" || !('0' <= s[|s| - 1] <= '9') then None
    else
      var digit := (s[|s| - 1] - '0') as int;
      if |s| == 1 then Some(digit)
      else match ParseInt(s[..|s| - 1])
        case None => None
        case Some(n) => Some(n * 10 + digit)
  }

  lemma {:induction false} ParseShown(n: nat)
    ensures ParseInt(Show(n)) == Some(n)
    ensures '$' !in Show(n) && Show(n) != ""
    decreases n
  {
    if n >= 10 {
      ParseShown(n / 10);
      var s := Show(n);
      assert s[..|s| - 1] == Show(n / 10);
    }
  }

  ghost predicate AllDigits(s: string) { s != "" && forall i :: 0 <= i < |s| ==> '0' <= s[i] <= '9' }

  /** Exactly the plain decimal numbers are parsed; leading zeros do not count. */
  lemma {:induction false} ParsesExactly(s: string)
    ensures ParseInt(s).Some? <==> AllDigits(s)
    ensures AllDigits(s) ==> ParseInt("0" + s) == ParseInt(s)
    decreases |s|
  {
    if |s| > 1 {
      var front := s[..|s| - 1];
      ParsesExactly(front);
      assert ("0" + s)[..|s|] == "0" + front;
      assert s == front + [s[|s| - 1]];
    } else if |s| == 1 {
      assert ("0" + s)[..1] == "0";
    }
  }

  /** There is one field more than dollar signs. */
  lemma {:induction false} FieldCount(s: string)
    ensures |Split(s)| == multiset(s)['$'] + 1
    decreases |s|
  {
    if s != "" {
      FieldCount(s[1..]);
      assert s == [s[0]] + s[1..];
    }
  }

  // ---------------------------------------------------------------------------
  // Hashing and verifying
  // ---------------------------------------------------------------------------

  /** `hashlib.pbkdf2_hmac("sha256", ...)`: any function of the token, the salt and the iterations. */
  type Kdf = (string, seq<Byte>, nat) -> seq<Byte>

  const ALGORITHM := "pbkdf2_sha256"
  const ITERATIONS: nat := 200_000

  /** `hash_agent_token`, for a drawn salt. */
  function HashAgentToken(kdf: Kdf, token: string, salt: seq<Byte>): string {
    ALGORITHM + "$" + (Show(ITERATIONS) + "$" + (B64Encode(salt) + "$" + B64Encode(kdf(token, salt, ITERATIONS))))
  }

  /** `Raised`: a field that is no base64, or an iteration count that the key derivation refuses. */
  datatype Verdict = Verified | Refused | Raised

  /** `verify_agent_token`. */
  function VerifyAgentToken(kdf: Kdf, token: string, stored: string): Verdict {
    var parts := Split(stored);
    if |parts| != 4 || parts[0] != ALGORITHM then Refused
    else match ParseInt(parts[1])
      case None => Refused
      case Some(iterations) =>
        match (B64Decode(parts[2]), B64Decode(parts[3]))
        case (Some(salt), Some(expected)) =>
          if iterations == 0 then Raised
          else if kdf(token, salt, iterations) == expected then Verified
          else Refused
        case _ => Raised
  }

  /** Main result: which stored texts verify, which are refused, and which raise. */
  lemma {:induction false} VerdictOnFields(
    kdf: Kdf, token: string, algorithm: string, iterations: string, salt: string, digest: string)
    requires '$' !in algorithm && '$' !in iterations && '$' !in salt && '$' !in digest
    ensures var verdict :=
        VerifyAgentToken(kdf, token, algorithm + "$" + (iterations + "$" + (salt + "$" + digest)));
      var known := algorithm == "pbkdf2_sha256" && ParseInt(iterations).Some?;
      var raises := B64Decode(salt).None? || B64Decode(digest).None? || ParseInt(iterations) == Some(0);
      && (verdict == Raised <==> known && raises)
      && (verdict == Verified <==>
            known && !raises
            && B64Decode(digest) == Some(kdf(token, B64Decode(salt).value, ParseInt(iterations).value)))
  {
    SplitLast(digest);
    SplitField(salt, digest);
    SplitField(iterations, salt + "$" + digest);
    SplitField(algorithm, iterations + "$" + (salt + "$" + digest));
  }

  /** A text with more or fewer than three dollar signs is refused. */
  lemma {:induction false} OtherTextsAreRefused(kdf: Kdf, token: string, stored: string)
    requires multiset(stored)['$'] != 3
    ensures VerifyAgentToken(kdf, token, stored) == Refused
  {
    FieldCount(stored);
  }

  lemma {:induction false} ShownIterations()
    ensures Show(ITERATIONS) == "200000" && '$' !in Show(ITERATIONS)
  {
    assert Show(2) == "2" && Show(20) == "20" && Show(200) == "200";
    assert Show(2000) == "2000" && Show(20000) == "20000";
  }

  lemma {:induction false} HashSplits(kdf: Kdf, token: string, salt: seq<Byte>)
    ensures Split(HashAgentToken(kdf, token, salt)) ==
      ["pbkdf2_sha256", "200000", B64Encode(salt), B64Encode(kdf(token, salt, 200_000))]
  {
    var digest := B64Encode(kdf(token, salt, ITERATIONS));
    ShownIterations();
    PaddingComesBack(salt);
    PaddingComesBack(kdf(token, salt, ITERATIONS));
    SplitLast(digest);
    SplitField(B64Encode(salt), digest);
    SplitField(Show(ITERATIONS), B64Encode(salt) + "$" + digest);
    SplitField(ALGORITHM, Show(ITERATIONS) + "$" + (B64Encode(salt) + "$" + digest));
  }

  /** Main result: a hash verifies exactly the tokens that the key derivation does not tell from the hashed one; it
      never raises. */
  lemma {:induction false} VerifyExactly(kdf: Kdf, token: string, other: string, salt: seq<Byte>)
    ensures VerifyAgentToken(kdf, other, HashAgentToken(kdf, token, salt)) ==
      if kdf(other, salt, ITERATIONS) == kdf(token, salt, ITERATIONS) then Verified else Refused
  {
    HashSplits(kdf, token, salt);
    ShownIterations();
    ParseShown(ITERATIONS);
    RoundTrip(salt);
    RoundTrip(kdf(token, salt, ITERATIONS));
  }

  /** So every token verifies against its own hash. */
  lemma {:induction false} OwnHashVerifies(kdf: Kdf, token: string, salt: seq<Byte>)
    ensures VerifyAgentToken(kdf, token, HashAgentToken(kdf, token, salt)) == Verified
  {
    VerifyExactly(kdf, token, token, salt);
  }
}
