/** The journal writer, and what any crash prefix of its file parses to. */
module JournalWriter {
  import opened Json
  import opened JournalCatalogue
  import opened JournalFormat
  import opened Journal

  /** The floored time since the start, or a clock that threw or gave no finite number. */
  datatype Reading = Elapsed(ms: int) | Unreadable

  /** A write call: it reports, or throws after, having put `reached` bytes of the line in the file. */
  datatype Write = Wrote(reached: nat) | WriteThrew(reached: nat)

  datatype Event = Record(phase: string, reading: Reading, write: Write) | Close

  /** One byte a character. */
  predicate Narrow(s: string) { forall i :: 0 <= i < |s| ==> (s[i] as int) < 0x80 }

  /** `journal` is the file; `entries`, the complete lines in it, is history. */
  datatype Writer = Writer(
    open: bool, elapsedMs: nat, count: nat, bytes: nat, journal: string, entries: seq<Observation>)
  {
    function AtMost(a: nat, b: nat): nat { if a <= b then a else b }

    function Latest(ms: int): nat { if ms <= elapsedMs then elapsedMs else ms }

    function NextEntry(phase: string, elapsed: nat): Observation {
      Observation(if count == MAX_OBSERVATIONS - 1 then TRUNCATED else phase, elapsed)
    }

    function OnRecord(phase: string, reading: Reading, write: Write): Writer {
      if !open then this
      else if !IsPhase(phase) || phase == TRUNCATED || reading.Unreadable? then this.(open := false)
      else
        var elapsed := Latest(reading.ms);
        var timed := this.(elapsedMs := elapsed);
        if MAX_SAFE < elapsed then timed.(open := false)
        else
          var o := NextEntry(phase, elapsed);
          var line := Line(o);
          if MAX_BYTES < bytes + |line| then timed.(open := false)
          else
            var reached := AtMost(write.reached, |line|);
            var whole := reached == |line|;
            var written := timed.(journal := journal + line[..reached], entries := if whole then entries + [o] else entries);
            if write.WriteThrew? || !whole then written.(open := false)
            else written.(bytes := bytes + |line|, count := count + 1, open := count != MAX_OBSERVATIONS - 1)
    }

    function Step(e: Event): Writer {
      match e
      case Record(phase, reading, write) => OnRecord(phase, reading, write)
      case Close => this.(open := false)
    }

    /** The unfinished last line. */
    function Tail(): string
      requires |Lines(entries)| <= |journal|
    {
      journal[|Lines(entries)|..]
    }

    ghost predicate Valid() {
      && Lines(entries) <= journal && Narrow(journal) && NoBreak(Tail())
      && |entries| <= MAX_OBSERVATIONS && Chronicle(entries)
      && (forall i :: 0 <= i < |entries| ==> ValidObservation(entries[i]))
      && (Tail() == "" || (|entries| < MAX_OBSERVATIONS && |Tail()| <= 100))
      && (open ==>
            && |entries| == count < MAX_OBSERVATIONS && Tail() == "" && bytes == |journal| && elapsedMs <= MAX_SAFE
            && (forall i :: 0 <= i < |entries| ==> entries[i].elapsedMs <= elapsedMs && entries[i].phase != TRUNCATED))
    }
  }

  /** Opening the file may fail, and then nothing is ever written. */
  function Init(opens: bool): Writer { Writer(opens, 0, 0, 0, "", []) }

  function Run(w: Writer, events: seq<Event>): Writer
    decreases |events|
  {
    if events == [] then w else Run(w.Step(events[0]), events[1..])
  }

  lemma {:induction false} LinesAppend(a: seq<Observation>, b: seq<Observation>)
    ensures Lines(a + b) == Lines(a) + Lines(b)
  {
    if a == [] {
      assert a + b == b;
    } else {
      assert (a + b)[1..] == a[1..] + b;
      LinesAppend(a[1..], b);
      assert Line(a[0]) + (Lines(a[1..]) + Lines(b)) == Line(a[0]) + Lines(a[1..]) + Lines(b);
    }
  }

  lemma {:induction false} LinesAreShort(entries: seq<Observation>)
    requires forall i :: 0 <= i < |entries| ==> ValidObservation(entries[i])
    ensures |Lines(entries)| <= 100 * |entries|
  {
    if entries != [] {
      assert ValidObservation(entries[0]);
      LineIsShort(entries[0]);
      LinesAreShort(entries[1..]);
    }
  }

  lemma NextEntryValid(w: Writer, phase: string, elapsed: nat)
    requires IsPhase(phase) && elapsed <= MAX_SAFE
    ensures ValidObservation(w.NextEntry(phase, elapsed))
  {
  }

  /** The branch for a full file is dead: the count cap always closes the journal first. */
  lemma ByteCapUnreachable(w: Writer, phase: string, elapsed: nat)
    requires w.Valid() && w.open && IsPhase(phase) && elapsed <= MAX_SAFE
    ensures w.bytes + |Line(w.NextEntry(phase, elapsed))| <= 100 * MAX_OBSERVATIONS < MAX_BYTES
  {
    NextEntryValid(w, phase, elapsed);
    LineIsShort(w.NextEntry(phase, elapsed));
    LinesAreShort(w.entries);
  }

  /** A line of which only a part reached the file leaves an unfinished tail. */
  lemma PartOfLine(w: Writer, o: Observation, reached: nat)
    requires w.Valid() && w.open && ValidObservation(o) && reached <= |Line(o)|
    ensures reached < |Line(o)| ==> NoBreak(Line(o)[..reached]) && reached <= 100
    ensures w.journal == Lines(w.entries)
    ensures reached == |Line(o)| ==> w.journal + Line(o)[..reached] == Lines(w.entries + [o])
  {
    TextHasNoBreak(o);
    LineIsShort(o);
    LinesAppend(w.entries, [o]);
    assert Lines([o]) == Line(o) + Lines([]);
    assert Line(o)[..|Line(o)|] == Line(o);
  }

  /** The record in hand of an open journal: what may go next. */
  ghost predicate Extends(entries: seq<Observation>, o: Observation) {
    && ValidObservation(o) && Chronicle(entries)
    && (forall i :: 0 <= i < |entries| ==>
          ValidObservation(entries[i]) && entries[i].elapsedMs <= o.elapsedMs && entries[i].phase != TRUNCATED)
  }

  lemma ChronicleGrows(entries: seq<Observation>, o: Observation)
    requires Extends(entries, o)
    ensures Chronicle(entries + [o])
    ensures forall i :: 0 <= i <= |entries| ==> ValidObservation((entries + [o])[i])
  {
  }

  lemma LineIsNarrow(o: Observation)
    requires ValidObservation(o)
    ensures Narrow(Line(o))
  {
    PhasesAreShort(o.phase);
    hide IsPhase;
    DecimalIsPlain(o.elapsedMs);
    PlainIsNarrow(o.phase);
    PlainIsNarrow(Decimal(o.elapsedMs));
    PunctuationIsNarrow();
    hide Narrow, HEAD, MIDDLE, Decimal;
    NarrowJoins(HEAD, o.phase);
    NarrowJoins(HEAD + o.phase, MIDDLE);
    NarrowJoins(HEAD + o.phase + MIDDLE, Decimal(o.elapsedMs));
    NarrowJoins(HEAD + o.phase + MIDDLE + Decimal(o.elapsedMs), "}");
    NarrowJoins(Text(o), "\n");
  }

  lemma NarrowPart(s: string, n: nat)
    requires Narrow(s) && n <= |s|
    ensures Narrow(s[..n])
  {
  }

  lemma PlainIsNarrow(s: string)
    requires AllPlain(s)
    ensures Narrow(s)
  {
  }

  lemma PunctuationIsNarrow()
    ensures Narrow(HEAD) && Narrow(MIDDLE) && Narrow("}") && Narrow("\n")
  {
  }

  lemma NarrowJoins(a: string, b: string)
    requires Narrow(a) && Narrow(b)
    ensures Narrow(a + b)
  {
  }

  /** The state right after the write call. */
  function Written(w: Writer, o: Observation, reached: nat, closes: bool): Writer
    requires reached <= |Line(o)|
  {
    var whole := reached == |Line(o)|;
    var d := w.(
      elapsedMs := o.elapsedMs,
      journal := w.journal + Line(o)[..reached],
      entries := if whole then w.entries + [o] else w.entries);
    if closes || !whole then d.(open := false)
    else d.(bytes := w.bytes + |Line(o)|, count := w.count + 1, open := w.count != MAX_OBSERVATIONS - 1)
  }

  lemma WrittenKeepsValid(w: Writer, o: Observation, reached: nat, closes: bool)
    requires w.Valid() && w.open && Extends(w.entries, o) && reached <= |Line(o)|
    requires w.count < MAX_OBSERVATIONS - 1 ==> o.phase != TRUNCATED
    ensures Written(w, o, reached, closes).Valid()
  {
    PartOfLine(w, o, reached);
    ChronicleGrows(w.entries, o);
    LineIsNarrow(o);
    var d := Written(w, o, reached, closes);
    hide IsPhase, Line, Lines, Chronicle, NoBreak;
    NarrowPart(Line(o), reached);
    NarrowJoins(w.journal, Line(o)[..reached]);
    hide Narrow;
    if reached < |Line(o)| {
      assert d.Tail() == Line(o)[..reached];
    } else {
      assert d.journal == Lines(d.entries) && d.Tail() == "";
    }
  }

  lemma RecordKeepsValid(w: Writer, phase: string, reading: Reading, write: Write)
    requires w.Valid()
    ensures w.OnRecord(phase, reading, write).Valid()
  {
    if w.open && IsPhase(phase) && phase != TRUNCATED && reading.Elapsed? && w.Latest(reading.ms) <= MAX_SAFE {
      var elapsed := w.Latest(reading.ms);
      var o := w.NextEntry(phase, elapsed);
      NextEntryValid(w, phase, elapsed);
      ByteCapUnreachable(w, phase, elapsed);
      assert Extends(w.entries, o);
      var reached := w.AtMost(write.reached, |Line(o)|);
      WrittenKeepsValid(w, o, reached, write.WriteThrew?);
      hide IsPhase, Line, Lines, Chronicle, Writer.Valid;
      assert w.OnRecord(phase, reading, write) == Written(w, o, reached, write.WriteThrew?);
    }
  }

  lemma StepKeepsValid(w: Writer, e: Event)
    requires w.Valid()
    ensures w.Step(e).Valid()
  {
    if e.Record? { RecordKeepsValid(w, e.phase, e.reading, e.write); }
  }

  lemma {:induction false} RunKeepsValid(w: Writer, events: seq<Event>)
    requires w.Valid()
    ensures Run(w, events).Valid()
    decreases |events|
  {
    if events != [] {
      StepKeepsValid(w, events[0]);
      hide Writer.Step, Writer.Valid;
      RunKeepsValid(w.Step(events[0]), events[1..]);
    }
  }

  // Recovery.

  /** How many of the lines lie wholly within the first `n` bytes. */
  function CompleteLines(entries: seq<Observation>, n: nat): (c: nat)
    ensures c <= |entries|
  {
    if entries == [] || n < |Line(entries[0])| then 0 else 1 + CompleteLines(entries[1..], n - |Line(entries[0])|)
  }

  lemma PrefixOfJoin(a: string, b: string, n: nat)
    requires |a| <= n <= |a| + |b|
    ensures (a + b)[..n] == a + b[..n - |a|]
  {
  }

  lemma LinesTake(entries: seq<Observation>, c: nat)
    requires c < |entries|
    ensures Lines(entries[..c + 1]) == Line(entries[0]) + Lines(entries[1..][..c])
  {
    hide Line;
    assert entries[..c + 1][0] == entries[0] && entries[..c + 1][1..] == entries[1..][..c];
  }

  lemma PrefixWithinLine(first: string, rest: string, n: nat)
    requires 0 < |first| && NoBreak(first[..|first| - 1]) && n < |first|
    ensures (first + rest)[..n] == first[..n] && NoBreak(first[..n])
  {
  }

  lemma LineHasOneBreak(o: Observation)
    requires ValidObservation(o)
    ensures 0 < |Line(o)| && NoBreak(Line(o)[..|Line(o)| - 1])
  {
    TextHasNoBreak(o);
    assert Line(o)[..|Line(o)| - 1] == Text(o);
  }

  lemma PartHasNoBreak(s: string, n: nat)
    requires NoBreak(s) && n <= |s|
    ensures NoBreak(s[..n])
  {
  }

  lemma JoinIsAssociative(a: string, b: string, c: string)
    ensures a + (b + c) == (a + b) + c
  {
  }

  /** A prefix is its complete lines and a part without a line break. */
  lemma {:induction false} PrefixSplits(entries: seq<Observation>, tail: string, n: nat) returns (part: string)
    requires forall i :: 0 <= i < |entries| ==> ValidObservation(entries[i])
    requires NoBreak(tail) && n <= |Lines(entries) + tail|
    ensures NoBreak(part)
    ensures (Lines(entries) + tail)[..n] == Lines(entries[..CompleteLines(entries, n)]) + part
  {
    hide Line, NoBreak;
    if entries == [] {
      part := tail[..n];
      PartHasNoBreak(tail, n);
      assert Lines(entries) + tail == tail && entries[..0] == [] && [] + part == part;
    } else {
      var first, rest := Line(entries[0]), Lines(entries[1..]) + tail;
      JoinIsAssociative(first, Lines(entries[1..]), tail);
      LineHasOneBreak(entries[0]);
      if n < |first| {
        PrefixWithinLine(first, rest, n);
        part := first[..n];
        assert entries[..0] == [] && [] + part == part;
      } else {
        part := PrefixSplits(entries[1..], tail, n - |first|);
        var c := CompleteLines(entries[1..], n - |first|);
        LinesTake(entries, c);
        PrefixOfJoin(first, rest, n);
        JoinIsAssociative(first, Lines(entries[1..][..c]), part);
      }
    }
  }

  function Texts(entries: seq<Observation>): (ts: seq<string>)
    ensures |ts| == |entries| && forall i :: 0 <= i < |ts| ==> ts[i] == Text(entries[i])
  {
    if entries == [] then [] else [Text(entries[0])] + Texts(entries[1..])
  }

  lemma {:induction false} SplitFirst(first: string, rest: string)
    requires NoBreak(first)
    ensures Split(first + "\n" + rest) == [first] + Split(rest)
  {
    var s := first + "\n" + rest;
    if first == [] {
      assert s[1..] == rest;
    } else {
      assert s[1..] == first[1..] + "\n" + rest;
      SplitFirst(first[1..], rest);
      assert [first[0]] + first[1..] == first;
    }
  }

  lemma {:induction false} SplitNone(s: string)
    requires NoBreak(s)
    ensures Split(s) == [s]
  {
    if s != [] {
      SplitNone(s[1..]);
      assert [s[0]] + s[1..] == s;
    }
  }

  lemma {:induction false} SplitLines(entries: seq<Observation>, part: string)
    requires forall i :: 0 <= i < |entries| ==> ValidObservation(entries[i])
    requires NoBreak(part)
    ensures Split(Lines(entries) + part) == Texts(entries) + [part]
  {
    if entries == [] {
      assert Lines(entries) + part == part;
      SplitNone(part);
    } else {
      TextHasNoBreak(entries[0]);
      var rest := Lines(entries[1..]) + part;
      assert Lines(entries) + part == Text(entries[0]) + "\n" + rest;
      SplitFirst(Text(entries[0]), rest);
      SplitLines(entries[1..], part);
    }
  }

  lemma {:induction false} NarrowIsOneByteEach(s: string)
    requires forall i :: 0 <= i < |s| ==> (s[i] as int) < 0x80
    ensures Utf8Length(s) == |s|
  {
    if s != [] { NarrowIsOneByteEach(s[1..]); }
  }

  lemma TextsReadBack(entries: seq<Observation>)
    requires forall i :: 0 <= i < |entries| ==> ValidObservation(entries[i])
    ensures ReadsAs(Texts(entries), entries)
  {
    hide ReadLine, Text, IsPhase;
    forall i | 0 <= i < |entries| ensures ReadLine(Texts(entries)[i]) == GoodLine(entries[i]) {
      LineReadsBack(entries[i]);
    }
  }

  /** The lines that `n` bytes hold, followed by part of one, parse to exactly those lines. */
  lemma LinesParse(entries: seq<Observation>, part: string)
    requires forall i :: 0 <= i < |entries| ==> ValidObservation(entries[i])
    requires 0 < |entries| <= MAX_OBSERVATIONS && Chronicle(entries) && NoBreak(part)
    requires Narrow(Lines(entries) + part) && |Lines(entries) + part| <= MAX_BYTES
    ensures ParseText(Lines(entries) + part) ==
            Captured(part != "", entries, entries[|entries| - 1].phase == TRUNCATED)
  {
    NarrowIsOneByteEach(Lines(entries) + part);
    SplitLines(entries, part);
    TextsReadBack(entries);
    AcceptsExactly(Texts(entries), 0, entries);
    hide ReadLine, Text, IsPhase, Narrow, NoBreak, Lines, Split, AcceptLines, Utf8Length, Chronicle, ParseText, ReadsAs;
    PiecesParse(Lines(entries) + part, Texts(entries), part, entries);
  }

  lemma PiecesParse(text: string, lines: seq<string>, trailing: string, os: seq<Observation>)
    requires Utf8Length(text) <= MAX_BYTES && Split(text) == lines + [trailing]
    requires |lines| == |os| && 0 < |os| <= MAX_OBSERVATIONS && AcceptLines(lines, 0, false) == Accepts(os)
    ensures ParseText(text) == Captured(trailing != "", os, os[|os| - 1].phase == TRUNCATED)
  {
    hide Utf8Length, Split, AcceptLines;
    assert Split(text)[..|lines|] == lines;
  }

  lemma {:induction false} JournalIsShort(w: Writer)
    requires w.Valid()
    ensures |w.journal| <= 100 * MAX_OBSERVATIONS
  {
    LinesAreShort(w.entries);
  }

  lemma {:induction false} CompleteLinesFit(entries: seq<Observation>, n: nat)
    ensures |Lines(entries[..CompleteLines(entries, n)])| <= n
    ensures CompleteLines(entries, n) < |entries| ==> n < |Lines(entries[..CompleteLines(entries, n) + 1])|
  {
    hide Line;
    if entries != [] {
      if n < |Line(entries[0])| {
        assert entries[..0] == [];
        LinesTake(entries, 0);
      } else {
        var c := CompleteLines(entries[1..], n - |Line(entries[0])|);
        CompleteLinesFit(entries[1..], n - |Line(entries[0])|);
        LinesTake(entries, c);
        if c + 1 < |entries| { LinesTake(entries, c + 1); }
      }
    }
  }

  lemma {:induction false} LinesEndInBreak(entries: seq<Observation>)
    requires entries != []
    ensures Lines(entries) != "" && Lines(entries)[|Lines(entries)| - 1] == '\n'
  {
    hide Text;
    if 1 < |entries| { LinesEndInBreak(entries[1..]); }
  }

  lemma PartDecidesEnd(lines: string, part: string)
    requires lines != "" && lines[|lines| - 1] == '\n' && NoBreak(part)
    ensures part != "" <==> (lines + part)[|lines + part| - 1] != '\n'
  {
    if part != "" { assert (lines + part)[|lines + part| - 1] == part[|part| - 1]; }
  }

  lemma NothingWholeIsInvalid(part: string)
    requires Narrow(part) && NoBreak(part) && |part| <= MAX_BYTES
    ensures ParseText(part) == Invalid
  {
    NarrowIsOneByteEach(part);
    SplitNone(part);
  }

  /** The part of a valid file that `n` bytes hold. */
  lemma PrefixOfValid(w: Writer, n: nat) returns (part: string)
    requires w.Valid() && n <= |w.journal|
    ensures var kept := w.entries[..CompleteLines(w.entries, n)];
            && NoBreak(part) && w.journal[..n] == Lines(kept) + part
            && Narrow(w.journal[..n]) && n <= MAX_BYTES && |kept| <= MAX_OBSERVATIONS && Chronicle(kept)
            && (forall i :: 0 <= i < |kept| ==> ValidObservation(kept[i]))
  {
    JournalIsShort(w);
    hide Line, NoBreak;
    assert w.journal == Lines(w.entries) + w.Tail();
    hide Lines;
    part := PrefixSplits(w.entries, w.Tail(), n);
  }

  /** What a crash leaves of a file: its first `n` bytes. */
  lemma PrefixOfValidRecovers(w: Writer, n: nat)
    requires w.Valid() && n <= |w.journal|
    ensures var c := CompleteLines(w.entries, n);
            ParseText(w.journal[..n]) ==
              if c == 0 then Invalid
              else Captured(w.journal[n - 1] != '\n', w.entries[..c], w.entries[c - 1].phase == TRUNCATED)
  {
    hide IsPhase, Line, Chronicle, Narrow, NoBreak, ParseText, Writer.Valid, CompleteLines;
    var c := CompleteLines(w.entries, n);
    var kept := w.entries[..c];
    var part := PrefixOfValid(w, n);
    if c == 0 {
      assert Lines(kept) + part == part;
      NothingWholeIsInvalid(part);
    } else {
      LinesParse(kept, part);
      LinesEndInBreak(kept);
      PartDecidesEnd(Lines(kept), part);
      assert w.journal[..n][n - 1] == w.journal[n - 1];
    }
  }

  /** The first `n` bytes hold exactly the first lines that fit in them, and parse to their observations. */
  ghost predicate Recovers(w: Writer, n: nat)
    requires n <= |w.journal|
  {
    var c := CompleteLines(w.entries, n);
    && |Lines(w.entries[..c])| <= n
    && (c < |w.entries| ==> n < |Lines(w.entries[..c + 1])|)
    && ParseText(w.journal[..n]) ==
         if c == 0 then Invalid
         else Captured(w.journal[n - 1] != '\n', w.entries[..c], w.entries[c - 1].phase == TRUNCATED)
  }

  /** Every crash prefix of every run's file parses to the observations of its complete lines. */
  lemma PrefixRecovers(opens: bool, events: seq<Event>, n: nat)
    requires n <= |Run(Init(opens), events).journal|
    ensures Recovers(Run(Init(opens), events), n)
  {
    InitIsValid(opens);
    RunKeepsValid(Init(opens), events);
    hide Run, ParseText;
    var w := Run(Init(opens), events);
    CompleteLinesFit(w.entries, n);
    PrefixOfValidRecovers(w, n);
  }

  lemma InitIsValid(opens: bool)
    ensures Init(opens).Valid()
  {
  }

  /** The file is append-only, its entries with it, and a closed writer leaves it alone. */
  lemma {:induction false} JournalOnlyGrows(w: Writer, events: seq<Event>)
    ensures w.journal <= Run(w, events).journal && w.entries <= Run(w, events).entries
    ensures !w.open ==> Run(w, events).journal == w.journal && !Run(w, events).open
    decreases |events|
  {
    hide IsPhase, Line;
    if events != [] { JournalOnlyGrows(w.Step(events[0]), events[1..]); }
  }

  /** The writer as the program holds it; the file and its entries are history. */
  class Observer {
    var descriptor: bool
    var elapsedMs: nat
    var count: nat
    var bytes: nat
    ghost var journal: string
    ghost var entries: seq<Observation>

    ghost function State(): Writer
      reads this
    {
      Writer(descriptor, elapsedMs, count, bytes, journal, entries)
    }

    constructor (opens: bool)
      ensures State() == Init(opens)
    {
      descriptor, elapsedMs, count, bytes, journal, entries := opens, 0, 0, 0, "", [];
    }

    method Close()
      modifies this
      ensures State() == old(State()).Step(Event.Close)
    {
      descriptor := false;
    }

    method Record(phase: string, reading: Reading, write: Write)
      modifies this
      ensures State() == old(State()).Step(Event.Record(phase, reading, write))
    {
      hide IsPhase, Line;
      if !descriptor { return; }
      if !IsPhase(phase) || phase == TRUNCATED || reading.Unreadable? {
        Close();
        return;
      }
      elapsedMs := if elapsedMs < reading.ms then reading.ms else elapsedMs;
      if MAX_SAFE < elapsedMs {
        Close();
        return;
      }
      var capped := count == MAX_OBSERVATIONS - 1;
      var entry := Observation(if capped then TRUNCATED else phase, elapsedMs);
      var line := Line(entry);
      if MAX_BYTES < bytes + |line| {
        Close();
        return;
      }
      ghost var reached := if write.reached <= |line| then write.reached else |line|;
      journal := journal + line[..reached];
      if reached == |line| { entries := entries + [entry]; }
      if write.WriteThrew? || write.reached < |line| {
        Close();
        return;
      }
      bytes, count := bytes + |line|, count + 1;
      if capped { Close(); }
    }
  }
}
