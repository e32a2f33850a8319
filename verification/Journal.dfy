/** The bounded writer of the first-start journal, its strict parser, and what survives a crash. */
module Journal {
  import opened JournalCatalogue
  import opened JournalFormat

  const MAX_OBSERVATIONS: nat := 128
  const MAX_BYTES: nat := 16384

  // The parser.

  datatype Capture = TooLarge | Invalid | Captured(partial: bool, observations: seq<Observation>, truncated: bool)

  datatype Accepted = Refused | Accepts(observations: seq<Observation>) {
    function After(earlier: seq<Observation>): Accepted {
      if Refused? then Refused else Accepts(earlier + observations)
    }
  }

  function Utf8Width(c: char): nat {
    if (c as int) < 0x80 then 1 else if (c as int) < 0x800 then 2 else if (c as int) < 0x10000 then 3 else 4
  }

  function Utf8Length(s: string): nat {
    if s == [] then 0 else Utf8Width(s[0]) + Utf8Length(s[1..])
  }

  /** Accept lines in order: time never runs back, and nothing follows the truncation marker. */
  function AcceptLines(lines: seq<string>, elapsedMs: nat, truncated: bool): Accepted {
    if lines == [] then Accepts([])
    else if truncated then Refused
    else match ReadLine(lines[0])
      case BadLine => Refused
      case GoodLine(o) =>
        if o.elapsedMs < elapsedMs then Refused
        else AcceptLines(lines[1..], o.elapsedMs, o.phase == TRUNCATED).After([o])
  }

  function ParseText(text: string): Capture {
    if MAX_BYTES < Utf8Length(text) then TooLarge
    else
      var pieces := Split(text);
      var lines, trailing := pieces[..|pieces| - 1], pieces[|pieces| - 1];
      if lines == [] || MAX_OBSERVATIONS < |lines| then Invalid
      else match AcceptLines(lines, 0, false)
        case Refused => Invalid
        case Accepts(os) => Captured(trailing != "", os, os != [] && os[|os| - 1].phase == TRUNCATED)
  }

  predicate Chronicle(os: seq<Observation>) {
    && (forall i, j :: 0 <= i < j < |os| ==> os[i].elapsedMs <= os[j].elapsedMs)
    && (forall i :: 0 <= i < |os| - 1 ==> os[i].phase != TRUNCATED)
  }

  predicate ReadsAs(lines: seq<string>, os: seq<Observation>) {
    |lines| == |os| && forall i :: 0 <= i < |os| ==> ReadLine(lines[i]) == GoodLine(os[i])
  }

  /** The running checks accept exactly the chronicles that the lines read as. */
  lemma {:induction false} AcceptsExactly(lines: seq<string>, elapsedMs: nat, os: seq<Observation>)
    ensures AcceptLines(lines, elapsedMs, false) == Accepts(os) <==>
            ReadsAs(lines, os) && Chronicle(os) && (os != [] ==> elapsedMs <= os[0].elapsedMs)
  {
    if lines != [] && ReadLine(lines[0]).GoodLine? {
      var o := ReadLine(lines[0]).observation;
      if os != [] && os[0] == o {
        assert os == [o] + os[1..];
        AcceptsExactly(lines[1..], o.elapsedMs, os[1..]);
        AcceptStep(lines, os);
      }
    }
  }

  lemma AcceptStep(lines: seq<string>, os: seq<Observation>)
    requires lines != [] && os != [] && ReadLine(lines[0]) == GoodLine(os[0])
    ensures ReadsAs(lines, os) <==> ReadsAs(lines[1..], os[1..])
    ensures Chronicle(os) <==>
            Chronicle(os[1..]) && (1 < |os| ==> os[0].elapsedMs <= os[1].elapsedMs && os[0].phase != TRUNCATED)
  {
    if ReadsAs(lines[1..], os[1..]) {
      forall i | 0 <= i < |os| ensures ReadLine(lines[i]) == GoodLine(os[i]) {
        if 0 < i { assert ReadLine(lines[1..][i - 1]) == GoodLine(os[1..][i - 1]); }
      }
    }
    if Chronicle(os[1..]) && (1 < |os| ==> os[0].elapsedMs <= os[1].elapsedMs && os[0].phase != TRUNCATED) {
      forall i, j | 0 <= i < j < |os| ensures os[i].elapsedMs <= os[j].elapsedMs {
        if 1 < j { assert os[1..][0].elapsedMs <= os[1..][j - 1].elapsedMs; }
        if 0 < i { assert os[1..][i - 1].elapsedMs <= os[1..][j - 1].elapsedMs; }
      }
      forall i | 0 <= i < |os| - 1 ensures os[i].phase != TRUNCATED {
        if 0 < i { assert os[1..][i - 1].phase != TRUNCATED; }
      }
    }
  }

  function Joined(pieces: seq<string>): string
    requires pieces != []
  {
    if |pieces| == 1 then pieces[0] else pieces[0] + "\n" + Joined(pieces[1..])
  }

  /** Splitting cuts at every line break and loses nothing. */
  lemma {:induction false} SplitJoins(s: string)
    ensures Joined(Split(s)) == s && forall i :: 0 <= i < |Split(s)| ==> NoBreak(Split(s)[i])
  {
    if s != [] {
      SplitJoins(s[1..]);
      var rest := Split(s[1..]);
      if s[0] == '\n' {
        assert ([""] + rest)[1..] == rest;
      } else {
        assert ([[s[0]] + rest[0]] + rest[1..])[1..] == rest[1..];
        assert NoBreak(rest[0]);
      }
      assert [s[0]] + s[1..] == s;
    }
  }

  /** A text is captured as `os` if and only if its complete lines read as that chronicle, within both caps. */
  lemma CapturedExactly(text: string, partial: bool, os: seq<Observation>, truncated: bool)
    ensures ParseText(text) == Captured(partial, os, truncated) <==>
            && Utf8Length(text) <= MAX_BYTES && 0 < |os| <= MAX_OBSERVATIONS && Chronicle(os)
            && (truncated <==> os[|os| - 1].phase == TRUNCATED)
            && (exists lines, trailing :: Split(text) == lines + [trailing] && ReadsAs(lines, os) && (partial <==> trailing != ""))
  {
    hide ReadLine, Chronicle;
    var pieces := Split(text);
    var lines, trailing := pieces[..|pieces| - 1], pieces[|pieces| - 1];
    assert pieces == lines + [trailing];
    AcceptsExactly(lines, 0, os);
  }

  lemma AfterIsAssociative(a: Accepted, middle: seq<Observation>, first: seq<Observation>)
    ensures a.After(middle).After(first) == a.After(first + middle)
  {
    if a.Accepts? {
      assert first + (middle + a.observations) == first + middle + a.observations;
    }
  }

  /** The parser's loop. */
  method ParseObservations(text: string) returns (r: Capture)
    ensures r == ParseText(text)
  {
    hide ReadLine, Split, Utf8Length;
    if MAX_BYTES < Utf8Length(text) { return TooLarge; }
    var pieces := Split(text);
    var lines, trailing := pieces[..|pieces| - 1], pieces[|pieces| - 1];
    if |lines| == 0 || MAX_OBSERVATIONS < |lines| { return Invalid; }
    var observations: seq<Observation> := [];
    var elapsedMs, truncated := 0, false;
    for i := 0 to |lines|
      invariant |observations| == i
      invariant truncated <==> 0 < i && observations[i - 1].phase == TRUNCATED
      invariant AcceptLines(lines, 0, false) == AcceptLines(lines[i..], elapsedMs, truncated).After(observations)
    {
      if truncated { return Invalid; }
      match ReadLine(lines[i]) {
        case BadLine => return Invalid;
        case GoodLine(o) =>
          if o.elapsedMs < elapsedMs { return Invalid; }
          assert lines[i..][1..] == lines[i + 1..];
          AfterIsAssociative(AcceptLines(lines[i + 1..], o.elapsedMs, o.phase == TRUNCATED), [o], observations);
          elapsedMs, truncated := o.elapsedMs, o.phase == TRUNCATED;
          observations := observations + [o];
      }
    }
    assert lines[|lines|..] == [] && observations + [] == observations;
    r := Captured(trailing != "", observations, truncated);
  }
}
