/** The reader as an object: `_StreamingJSONReader` of backend/app/api/skills_marketplace.py, method by method, each
    proved to do to its fields what the functions of `StreamingJson` do to a reader state. */
module StreamingReader {
  import opened Models
  import opened Json
  import opened SkillsIndex
  import opened StreamingJson

  class StreamingJsonReader {
    /** The open file: its content, how its reads cut it, and how many have been made. */
    const file: File
    var fetched: nat
    var buffer: string
    var position: nat
    var eof: bool

    ghost predicate Valid()
      reads this
    {
      && Ok(file, State())
      && buffer == Buffer(file, State())
      && eof == Eof(file, State())
    }

    ghost function State(): Reader
      reads this
    {
      Reader(position, fetched)
    }

    constructor (file: File)
      ensures Valid() && this.file == file && State() == START
    {
      this.file := file;
      fetched, buffer, position, eof := 0, "", 0, false;
    }

    /** What the file object returns to one read. */
    method ReadChunk() returns (chunk: string)
      requires fetched < |file.ends|
      modifies this`fetched
      ensures fetched == old(fetched) + 1
      ensures file.text[..Loaded(file, old(fetched))] + chunk == file.text[..Loaded(file, fetched)]
      ensures chunk == "" <==> fetched == |file.ends|
    {
      LoadedGrows(file, fetched);
      chunk := file.text[Loaded(file, fetched)..Loaded(file, fetched + 1)];
      fetched := fetched + 1;
    }

    method FillBuffer()
      requires Valid()
      modifies this
      ensures Valid() && State() == Fill(file, old(State()))
    {
      if eof {
        return;
      }
      var chunk := ReadChunk();
      if chunk == "" {
        eof := true;
        return;
      }
      buffer := buffer + chunk;
    }

    /** The inner loop of `_skip_whitespace`. */
    method SkipLoaded()
      requires Valid()
      modifies this`position
      ensures Valid() && position == SkipSpace(buffer, old(position))
    {
      while position < |buffer| && IsSpace(buffer[position])
        invariant position <= |buffer| && SkipSpace(buffer, position) == SkipSpace(buffer, old(position))
      {
        position := position + 1;
      }
    }

    /** Its outer loop never takes a second round: a read returns at least one character or ends the file. */
    method SkipWhitespace()
      requires Valid()
      modifies this
      ensures Valid() && State() == Skip(file, old(State()))
    {
      SkipLoaded();
      if position < |buffer| {
        return;
      }
      FillBuffer();
    }

    method Peek() returns (current: Option<char>)
      requires Valid()
      modifies this
      ensures Valid() && State() == Skip(file, old(State()))
      ensures current == Current(file, State())
      ensures current.None? ==> eof
    {
      SkipWhitespace();
      if position >= |buffer| {
        return None;
      }
      return Some(buffer[position]);
    }

    method DecodeValue() returns (value: Option<Value>)
      requires Valid()
      modifies this
      ensures Valid()
      ensures Returned(value, Decode(file, old(State())), State())
    {
      SkipWhitespace();
      while true
        invariant Valid() && DecodeLoop(file, State()) == Decode(file, old(State()))
        decreases |file.ends| - fetched
      {
        match ParseValue(buffer, position)
        case Parsed(v, end) =>
          position := end;
          return Some(v);
        case Invalid =>
          if eof {
            return None;
          }
          FillBuffer();
          SkipWhitespace();
          if position >= |buffer| && eof {
            return None;
          }
      }
    }

    method ConsumeChar(expected: char) returns (ok: bool)
      requires Valid()
      modifies this
      ensures Valid()
      ensures ok <==> StreamingJson.ConsumeChar(file, old(State()), expected).Got?
      ensures ok ==> State() == StreamingJson.ConsumeChar(file, old(State()), expected).reader
    {
      SkipWhitespace();
      if position >= |buffer| {
        FillBuffer();
        SkipWhitespace();
      }
      if position >= |buffer| || buffer[position] != expected {
        return false;
      }
      position := position + 1;
      return true;
    }

    /** A skip and a peek. */
    method Look() returns (current: Option<char>)
      requires Valid()
      modifies this
      ensures Valid() && State() == LookAhead(file, old(State()))
      ensures current == Current(file, State())
      ensures current.Some? ==> position < |buffer|
    {
      SkipWhitespace();
      current := Peek();
    }

    /** The position moves over the character under it. */
    method Advance()
      requires Valid() && position < |buffer|
      modifies this`position
      ensures Valid() && State() == Bump(file, old(State()))
    {
      position := position + 1;
    }

    /** The generator run to its end: the entries it yields, or nothing if it raises. */
    method ReadArrayValues() returns (entries: Option<seq<Value>>)
      requires Valid()
      modifies this
      ensures Valid() && Returned(entries, ArrayFrom(file, old(State())), State())
    {
      var found := [];
      PrefixedNone(ArrayFrom(file, State()));
      while true
        invariant Valid()
        invariant Prefixed(found, ArrayFrom(file, State())) == ArrayFrom(file, old(State()))
        decreases |file.text| - position
      {
        var current := Look();
        if current.None? {
          return None;
        }
        if current.value == ']' {
          Advance();
          assert found + [] == found;
          return Some(found);
        }
        if current.value == ',' {
          Advance();
          continue;
        }
        var entry := DecodeValue();
        if entry.None? || !entry.value.Object? {
          return None;
        }
        PrefixedTwice(found, [entry.value], ArrayFrom(file, State()));
        found := found + [entry.value];
      }
    }

    method ReadKey() returns (key: Option<seq<int>>)
      requires Valid()
      modifies this
      ensures Valid()
      ensures Returned(key, KeyFrom(file, old(State())), State())
    {
      var value := DecodeValue();
      if value.None? || !value.value.String? {
        return None;
      }
      ghost var d := State();
      assert KeyFrom(file, old(State())) ==
        if ColonFrom(file, d).Failed? then Failed else Got(value.value.codes, ColonFrom(file, d).reader);
      var current := Look();
      if current == Some(':') {
        Advance();
      } else {
        var ok := ConsumeChar(':');
        if !ok {
          return None;
        }
      }
      return Some(value.value.codes);
    }

    /** The value of a `skills` member. */
    method ReadSkillsValue() returns (outcome: Outcome)
      requires Valid()
      modifies this
      ensures Valid() && (!outcome.Raised? ==> position > old(position))
      ensures LeadsTo(file, SkillsFrom(file, old(State())), outcome, State())
    {
      var current := Look();
      ghost var a := State();
      assert SkillsFrom(file, old(State())) == SkillsAt(file, a);
      if current.None? {
        return Raised;
      }
      if current.value != '[' {
        var value := DecodeValue();
        if value.None? || (value.value.Array? && !AllObjects(value.value.elements)) {
          return Raised;
        }
        return NextKey(if value.value.Array? then value.value.elements else []);
      }
      Advance();
      var values := ReadArrayValues();
      if values.None? {
        return Raised;
      }
      assert SkillsAt(file, a) == Prefixed(values.value, AfterValueFrom(file, State()));
      return NextComma(values.value);
    }

    /** The value of any other member. */
    method ReadOtherValue() returns (outcome: Outcome)
      requires Valid()
      modifies this
      ensures Valid() && (!outcome.Raised? ==> position > old(position))
      ensures LeadsTo(file, OtherFrom(file, old(State())), outcome, State())
    {
      var value := DecodeValue();
      if value.None? {
        return Raised;
      }
      PrefixedNone(AfterValueFrom(file, State()));
      return NextComma([]);
    }

    /** A key, its colon and its value. */
    method ReadMember() returns (outcome: Outcome)
      requires Valid() && position < |buffer| && buffer[position] != '}'
      modifies this
      ensures Valid() && (!outcome.Raised? ==> position > old(position))
      ensures LeadsTo(file, ObjectAt(file, old(State())), outcome, State())
    {
      var key := ReadKey();
      if key.None? {
        return Raised;
      }
      if key.value == SKILLS {
        outcome := ReadSkillsValue();
      } else {
        outcome := ReadOtherValue();
      }
    }

    /** A comma, the closing brace, or neither. */
    method ReadComma() returns (closed: bool)
      requires Valid()
      modifies this
      ensures Valid() && position >= old(position)
      ensures AfterValueFrom(file, old(State())) == if closed then Got([], State()) else ObjectFrom(file, State())
    {
      var current := Look();
      if current == Some(',') {
        Advance();
        return false;
      }
      if current == Some('}') {
        Advance();
        return true;
      }
      return false;
    }

    /** The generator run to its end: the entries it yields, or nothing if it raises. */
    method ReadSkillsFromObject() returns (entries: Option<seq<Value>>)
      requires Valid()
      modifies this
      ensures Valid() && Returned(entries, ObjectFrom(file, old(State())), State())
    {
      var found := [];
      PrefixedNone(ObjectFrom(file, State()));
      while true
        invariant Valid()
        invariant Prefixed(found, ObjectFrom(file, State())) == ObjectFrom(file, old(State()))
        decreases |file.text| - position
      {
        var current := Look();
        if current.None? {
          return None;
        }
        if current.value == '}' {
          Advance();
          assert found + [] == found;
          return Some(found);
        }
        var outcome := ReadMember();
        if outcome.Raised? {
          return None;
        }
        if outcome.NextKey? {
          PrefixedTwice(found, outcome.entries, ObjectFrom(file, State()));
          found := found + outcome.entries;
          continue;
        }
        PrefixedTwice(found, outcome.entries, AfterValueFrom(file, State()));
        found := found + outcome.entries;
        var closed := ReadComma();
        if closed {
          assert found + [] == found;
          return Some(found);
        }
      }
    }

    method ReadTopLevelEntries() returns (entries: Option<seq<Value>>)
      requires Valid() && State() == START
      modifies this
      ensures Valid()
      ensures entries == if TopLevelFrom(file).Got? then Some(TopLevelFrom(file).value) else None
    {
      FillBuffer();
      var first := Look();
      if first.None? {
        return None;
      }
      if first.value == '[' {
        Advance();
        entries := ReadArrayValues();
      } else if first.value == '{' {
        Advance();
        entries := ReadSkillsFromObject();
      } else {
        entries := None;
      }
    }
  }

  /** Where reading a member leaves the loop: raised, back to the next key, or looking for a comma. */
  datatype Outcome = Raised | NextKey(entries: seq<Value>) | NextComma(entries: seq<Value>)

  ghost predicate Returned<T>(result: Option<T>, read: Read<T>, state: Reader) {
    if result.None? then read.Failed? else read == Got(result.value, state)
  }

  /** What is left to read after a member, and the entries found in it. */
  predicate LeadsTo(f: File, read: Read<seq<Value>>, outcome: Outcome, state: Reader)
    requires Ok(f, state)
  {
    match outcome
    case Raised => read.Failed?
    case NextKey(es) => read == Prefixed(es, ObjectFrom(f, state))
    case NextComma(es) => read == Prefixed(es, AfterValueFrom(f, state))
  }

  lemma {:induction false} PrefixedNone<T>(read: Read<seq<T>>)
    ensures Prefixed([], read) == read
  {
    if read.Got? {
      assert [] + read.value == read.value;
    }
  }

  lemma {:induction false} PrefixedTwice<T>(first: seq<T>, second: seq<T>, read: Read<seq<T>>)
    ensures Prefixed(first, Prefixed(second, read)) == Prefixed(first + second, read)
  {
    if read.Got? {
      assert first + (second + read.value) == first + second + read.value;
    }
  }
}
