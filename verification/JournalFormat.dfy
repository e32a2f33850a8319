/** One journal line, and the texts made of lines. */
module JournalFormat {
  import opened Json
  import opened JournalCatalogue

  datatype Observation = Observation(phase: string, elapsedMs: nat)

  const MAX_SAFE: nat := 0x1F_FFFF_FFFF_FFFF

  predicate ValidObservation(o: Observation) { IsPhase(o.phase) && o.elapsedMs <= MAX_SAFE }

  const HEAD: string := "{\"schemaVersion\":1,\"phase\":\""
  const MIDDLE: string := "\",\"elapsedMs\":"

  /** `JSON.stringify` of the record, whose strings need no escapes. */
  function Text(o: Observation): string {
    HEAD + o.phase + MIDDLE + Decimal(o.elapsedMs) + "}"
  }

  function Line(o: Observation): string { Text(o) + "\n" }

  function Lines(entries: seq<Observation>): string {
    if entries == [] then "" else Line(entries[0]) + Lines(entries[1..])
  }

  predicate NoBreak(s: string) { forall i :: 0 <= i < |s| ==> s[i] != '\n' }

  /** `text.split('\n')`. */
  function Split(s: string): (lines: seq<string>)
    ensures lines != []
  {
    if s == [] then [""]
    else
      var rest := Split(s[1..]);
      if s[0] == '\n' then [""] + rest else [[s[0]] + rest[0]] + rest[1..]
  }

  const KEY_VERSION: string := "schemaVersion"
  const KEY_PHASE: string := "phase"
  const KEY_ELAPSED: string := "elapsedMs"

  /** The value of a key, and whether it is there at all: the last of repeated members wins. */
  function Lookup(members: seq<(string, Json)>, key: string): Document {
    if members == [] then Malformed
    else
      var last := members[|members| - 1];
      if last.0 == key then Parses(last.1) else Lookup(members[..|members| - 1], key)
  }

  predicate OnlyKnownKeys(members: seq<(string, Json)>) {
    forall m <- members :: m.0 == KEY_VERSION || m.0 == KEY_PHASE || m.0 == KEY_ELAPSED
  }

  datatype LineResult = BadLine | GoodLine(observation: Observation)

  /** The checks of one parsed line that do not depend on the lines before it. */
  function ReadLine(line: string): (r: LineResult)
    ensures r.GoodLine? ==> ValidObservation(r.observation)
  {
    match Parse(line)
    case Malformed => BadLine
    case Parses(json) =>
      if !json.JObject? || !OnlyKnownKeys(json.members) then BadLine
      else
        var version, phase, elapsed :=
          Lookup(json.members, KEY_VERSION), Lookup(json.members, KEY_PHASE), Lookup(json.members, KEY_ELAPSED);
        if version != Parses(JNumber(1.0)) then BadLine
        else if !phase.Parses? || !phase.json.JString? || !IsPhase(phase.json.text) then BadLine
        else if !elapsed.Parses? || !elapsed.json.JNumber? then BadLine
        else
          var ms := elapsed.json.value;
          // A negative number is below every earlier reading, which starts at zero.
          if ms < 0.0 || ms != ms.Floor as real || MAX_SAFE < ms.Floor then BadLine
          else GoodLine(Observation(phase.json.text, ms.Floor))
  }

  lemma {:induction false} DecimalIsPlain(n: nat)
    ensures AllPlain(Decimal(n))
  {
  }

  lemma TextHasNoBreak(o: Observation)
    requires ValidObservation(o)
    ensures NoBreak(Text(o))
  {
    PhasesAreShort(o.phase);
    DecimalIsPlain(o.elapsedMs);
  }

  lemma MaxSafeBelowPower()
    ensures (MAX_SAFE as real) < PowerOfTen(16)
  {
    assert PowerOfTen(4) == 10000.0;
    assert PowerOfTen(8) == 100000000.0;
    assert PowerOfTen(12) == 1000000000000.0;
    assert PowerOfTen(16) == 10000000000000000.0;
  }

  /** No line is longer than a hundred characters, all of them one byte wide. */
  lemma LineIsShort(o: Observation)
    requires ValidObservation(o)
    ensures |Line(o)| <= 100
  {
    PhasesAreShort(o.phase);
    MaxSafeBelowPower();
    DecimalLength(o.elapsedMs, 16);
    assert |HEAD| == 28 && |MIDDLE| == 14;
    assert |Text(o)| == |HEAD| + |o.phase| + |MIDDLE| + |Decimal(o.elapsedMs)| + 1;
  }

  lemma DigitStartsNumber(s: string)
    requires s != [] && IsDigit(s[0])
    ensures ParseValue(s) == ParseNumber(s)
  {
    hide ParseNumber, ParseMembers, ParseItems, ParseString, ParseWord;
    assert SkipSpace(s) == s;
  }

  lemma NumberValueReadsBack(n: nat, rest: string)
    requires rest != [] ==> !IsDigit(rest[0]) && rest[0] != '.' && rest[0] != 'e' && rest[0] != 'E'
    ensures ParseValue(Decimal(n) + rest) == Read(JNumber(n as real), rest)
  {
    hide ParseNumber, ParseValue;
    NumberReadsBack(n, rest);
    DigitStartsNumber(Decimal(n) + rest);
  }

  lemma StringValueReadsBack(p: string, rest: string)
    requires AllPlain(p)
    ensures ParseValue("\"" + p + "\"" + rest) == Read(JString(p), rest)
  {
    var s := "\"" + p + "\"" + rest;
    StringReadsBack(p, rest);
    assert s[0] == '"' && s[1..] == p + "\"" + rest && SkipSpace(s) == s;
  }

  function MemberText(key: string, value: string, rest: string): string { "\"" + key + "\":" + value + rest }

  /** One member, whose key and value have been read, and what follows it. */
  lemma MemberThenRest(s: string, key: string, tail: string, value: Json, rest: string)
    requires s != [] && s[0] == '"' && ParseString(s[1..]) == Read(key, tail)
    requires tail != [] && tail[0] == ':' && ParseValue(tail[1..]) == Read(value, rest)
    requires rest != [] && (rest[0] == '}' || rest[0] == ',')
    ensures var r := ParseMembers(s);
            if rest[0] == '}' then r == Read([(key, value)], rest[1..])
            else
              var more := ParseMembers(rest[1..]);
              more.Read? ==> r == Read([(key, value)] + more.value, more.rest)
  {
    hide ParseString, ParseValue;
    assert SkipSpace(s) == s && SkipSpace(tail) == tail && SkipSpace(rest) == rest;
  }

  lemma MemberTextShape(key: string, text: string, rest: string)
    ensures var s := MemberText(key, text, rest);
            s[0] == '"' && s[1..] == key + "\"" + (":" + (text + rest)) && (":" + (text + rest))[1..] == text + rest
  {
    var tail := ":" + (text + rest);
    var s := MemberText(key, text, rest);
    assert "\":" == "\"" + ":";
    assert s == "\"" + (key + "\"" + tail);
  }

  /** One printed member followed by a closing brace, or by a comma and more members. */
  lemma MemberReadsBack(key: string, text: string, value: Json, rest: string)
    requires AllPlain(key) && ParseValue(text + rest) == Read(value, rest)
    requires rest != [] && (rest[0] == '}' || rest[0] == ',')
    ensures var r := ParseMembers(MemberText(key, text, rest));
            if rest[0] == '}' then r == Read([(key, value)], rest[1..])
            else
              var more := ParseMembers(rest[1..]);
              more.Read? ==> r == Read([(key, value)] + more.value, more.rest)
  {
    var s := MemberText(key, text, rest);
    var tail := ":" + (text + rest);
    MemberTextShape(key, text, rest);
    StringReadsBack(key, tail);
    hide ParseString, ParseValue, ParseMembers, MemberText, AllPlain;
    MemberThenRest(s, key, tail, value, rest);
  }

  function Members(o: Observation): seq<(string, Json)> {
    [(KEY_VERSION, JNumber(1.0)), (KEY_PHASE, JString(o.phase)), (KEY_ELAPSED, JNumber(o.elapsedMs as real))]
  }

  lemma HeadSplits()
    ensures HEAD == "{" + ("\"" + KEY_VERSION + "\":" + Decimal(1) + ("," + ("\"" + KEY_PHASE + "\":" + "\"")))
  {
  }

  lemma MiddleSplits()
    ensures MIDDLE == "\"" + ("," + ("\"" + KEY_ELAPSED + "\":"))
  {
  }

  lemma TextSplits(o: Observation)
    ensures var third := MemberText(KEY_ELAPSED, Decimal(o.elapsedMs), "}");
            var second := MemberText(KEY_PHASE, "\"" + o.phase + "\"", "," + third);
            Text(o) == "{" + MemberText(KEY_VERSION, Decimal(1), "," + second)
  {
    HeadSplits();
    MiddleSplits();
    hide HEAD, MIDDLE, KEY_VERSION, KEY_PHASE, KEY_ELAPSED, Decimal;
  }

  /** The three printed members, read as a list. */
  lemma MembersReadBack(o: Observation)
    requires ValidObservation(o)
    ensures var third := MemberText(KEY_ELAPSED, Decimal(o.elapsedMs), "}");
            var second := MemberText(KEY_PHASE, "\"" + o.phase + "\"", "," + third);
            ParseMembers(MemberText(KEY_VERSION, Decimal(1), "," + second)) == Read(Members(o), [])
  {
    hide ParseMembers, ParseValue;
    PhasesAreShort(o.phase);
    var third := MemberText(KEY_ELAPSED, Decimal(o.elapsedMs), "}");
    var second := MemberText(KEY_PHASE, "\"" + o.phase + "\"", "," + third);
    NumberValueReadsBack(o.elapsedMs, "}");
    MemberReadsBack(KEY_ELAPSED, Decimal(o.elapsedMs), JNumber(o.elapsedMs as real), "}");
    StringValueReadsBack(o.phase, "," + third);
    MemberReadsBack(KEY_PHASE, "\"" + o.phase + "\"", JString(o.phase), "," + third);
    NumberValueReadsBack(1, "," + second);
    MemberReadsBack(KEY_VERSION, Decimal(1), JNumber(1.0), "," + second);
    hide MemberText;
    assert ("," + third)[1..] == third && ("," + second)[1..] == second && "}"[1..] == [];
    var m := Members(o);
    assert ParseMembers(third) == Read([m[2]], []);
    assert ParseMembers(second) == Read([m[1]] + [m[2]], []);
    assert [m[0]] + ([m[1]] + [m[2]]) == m;
  }

  lemma TextParses(o: Observation)
    requires ValidObservation(o)
    ensures Parse(Text(o)) == Parses(JObject(Members(o)))
  {
    TextSplits(o);
    MembersReadBack(o);
    var third := MemberText(KEY_ELAPSED, Decimal(o.elapsedMs), "}");
    var second := MemberText(KEY_PHASE, "\"" + o.phase + "\"", "," + third);
    var first := MemberText(KEY_VERSION, Decimal(1), "," + second);
    assert first[0] == '"';
    hide ParseMembers, MemberText, ParseString, ParseNumber, ParseItems, ParseWord, Text;
    assert Text(o)[0] == '{' && Text(o)[1..] == first;
    assert SkipSpace(Text(o)) == Text(o) && SkipSpace(first) == first;
  }

  /** What the writer prints, the parser's line check reads back. */
  lemma LineReadsBack(o: Observation)
    requires ValidObservation(o)
    ensures ReadLine(Text(o)) == GoodLine(o)
  {
    TextParses(o);
    var m := Members(o);
    assert m[..2] == [m[0], m[1]] && m[..2][..1] == [m[0]];
    assert Lookup(m, KEY_ELAPSED) == Parses(m[2].1);
    assert Lookup(m, KEY_PHASE) == Lookup(m[..2], KEY_PHASE) == Parses(m[1].1);
    assert Lookup(m, KEY_VERSION) == Lookup(m[..2], KEY_VERSION) == Lookup(m[..2][..1], KEY_VERSION) == Parses(m[0].1);
  }

  // Which lines are accepted.

  /** The last member of that name has this value. */
  ghost predicate LastIs(members: seq<(string, Json)>, key: string, value: Json) {
    exists i :: 0 <= i < |members| && members[i] == (key, value) && forall j :: i < j < |members| ==> members[j].0 != key
  }

  lemma {:induction false} LookupIsLast(members: seq<(string, Json)>, key: string, value: Json)
    ensures Lookup(members, key) == Parses(value) <==> LastIs(members, key, value)
  {
    if members != [] {
      var before, last := members[..|members| - 1], members[|members| - 1];
      assert members == before + [last];
      LookupIsLast(before, key, value);
      LastIsBefore(before, last, key, value);
      hide LastIs;
    }
  }

  lemma LastIsBefore(before: seq<(string, Json)>, last: (string, Json), key: string, value: Json)
    ensures LastIs(before + [last], key, value) <==> if last.0 == key then last.1 == value else LastIs(before, key, value)
  {
    var members := before + [last];
    assert members[|before|] == last && forall j :: 0 <= j < |before| ==> members[j] == before[j];
    if last.0 == key {
      if last.1 == value { assert members[|before|] == (key, value); }
    } else {
      if LastIs(before, key, value) {
        var i :| 0 <= i < |before| && before[i] == (key, value) && forall j :: i < j < |before| ==> before[j].0 != key;
        assert members[i] == (key, value);
      }
      if LastIs(members, key, value) {
        var i :| 0 <= i < |members| && members[i] == (key, value) && forall j :: i < j < |members| ==> members[j].0 != key;
        assert before[i] == (key, value);
      }
    }
  }

  /** An object of the three members only, whose last values are version 1, this phase and this time. */
  ghost predicate Describes(members: seq<(string, Json)>, o: Observation) {
    && (forall i :: 0 <= i < |members| ==>
          members[i].0 == "schemaVersion" || members[i].0 == "phase" || members[i].0 == "elapsedMs")
    && LastIs(members, "schemaVersion", JNumber(1.0))
    && LastIs(members, "phase", JString(o.phase)) && IsPhase(o.phase)
    && LastIs(members, "elapsedMs", JNumber(o.elapsedMs as real)) && o.elapsedMs <= 0x1F_FFFF_FFFF_FFFF
  }

  /** A line is accepted as an observation if and only if it is the text of such an object. */
  lemma ReadLineExactly(line: string, o: Observation)
    ensures ReadLine(line) == GoodLine(o) <==>
            exists members :: Parse(line) == Parses(JObject(members)) && Describes(members, o)
  {
    hide Parse, IsPhase;
    if Parse(line).Parses? && Parse(line).json.JObject? {
      var members := Parse(line).json.members;
      LookupIsLast(members, KEY_VERSION, JNumber(1.0));
      LookupIsLast(members, KEY_PHASE, JString(o.phase));
      LookupIsLast(members, KEY_ELAPSED, JNumber(o.elapsedMs as real));
      KnownKeys(members);
      hide LastIs, Lookup, OnlyKnownKeys;
      assert ReadLine(line) == GoodLine(o) <==> Describes(members, o);
    }
  }

  lemma KnownKeys(members: seq<(string, Json)>)
    ensures OnlyKnownKeys(members) <==>
            forall i :: 0 <= i < |members| ==>
              members[i].0 == "schemaVersion" || members[i].0 == "phase" || members[i].0 == "elapsedMs"
  {
    assert forall i :: 0 <= i < |members| ==> members[i] in members;
  }
}
