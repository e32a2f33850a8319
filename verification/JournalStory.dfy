/** What the journal file holds, told from the calls of `record` alone. */
module JournalStory {
  import opened JournalCatalogue
  import opened JournalFormat
  import opened Journal
  import opened JournalWriter

  /** The calls of `record` before the first `close`. */
  function RecordsOf(events: seq<Event>): (records: seq<Event>)
    ensures forall r <- records :: r.Record?
  {
    if events == [] || events[0].Close? then [] else [events[0]] + RecordsOf(events[1..])
  }

  predicate Closes(events: seq<Event>) { exists k :: 0 <= k < |events| && events[k].Close? }

  predicate AllRecords(records: seq<Event>) { forall i :: 0 <= i < |records| ==> records[i].Record? }

  /** The latest clock reading, and none before zero. */
  function LatestOf(records: seq<Event>): nat
    requires AllRecords(records)
  {
    if records == [] then 0
    else
      var (before, reading) := (LatestOf(records[..|records| - 1]), records[|records| - 1].reading);
      if reading.Elapsed? && before < reading.ms then reading.ms else before
  }

  /** The observation that the `i`-th call asks for: its own phase, or the marker when it is the last one there is room for. */
  function Told(records: seq<Event>, i: nat): Observation
    requires AllRecords(records) && i < |records|
  {
    Observation(if i == 127 then TRUNCATED else records[i].phase, LatestOf(records[..i + 1]))
  }

  function ToldAll(records: seq<Event>, n: nat): (os: seq<Observation>)
    requires AllRecords(records) && n <= |records|
    ensures |os| == n && forall i :: 0 <= i < n ==> os[i] == Told(records, i)
  {
    if n == 0 then [] else ToldAll(records, n - 1) + [Told(records, n - 1)]
  }

  /** The call names a catalogued phase other than the marker, and the clock gave a safe reading. */
  predicate Sound(records: seq<Event>, i: nat)
    requires AllRecords(records) && i < |records|
  {
    && IsPhase(records[i].phase) && records[i].phase != TRUNCATED
    && records[i].reading.Elapsed? && LatestOf(records[..i + 1]) <= MAX_SAFE
  }

  /** Its whole line reaches the file. */
  predicate Lands(records: seq<Event>, i: nat)
    requires AllRecords(records) && i < |records|
  {
    Sound(records, i) && |Line(Told(records, i))| <= records[i].write.reached
  }

  predicate Passes(records: seq<Event>, i: nat)
    requires AllRecords(records) && i < |records|
  {
    Lands(records, i) && records[i].write.Wrote?
  }

  /** The writer is still at work after the first `n` calls. */
  predicate GoesOn(records: seq<Event>, n: nat)
    requires AllRecords(records) && n <= |records|
  {
    n < MAX_OBSERVATIONS && forall i :: 0 <= i < n ==> Passes(records, i)
  }

  /** How much of the line after `n` whole ones is in the file. */
  function PartOf(records: seq<Event>, n: nat): string
    requires AllRecords(records) && n <= |records|
  {
    if n < |records| && GoesOn(records, n) && Sound(records, n) && !Lands(records, n)
    then Line(Told(records, n))[..records[n].write.reached] else ""
  }

  /** `n` lines: one for each call up to one whose line did not land, or did but threw, or is the last. */
  ghost predicate Writes(records: seq<Event>, n: nat)
    requires AllRecords(records) && n <= |records|
  {
    && n <= MAX_OBSERVATIONS
    && (forall i :: 0 <= i < n ==> Lands(records, i))
    && (forall i :: 0 <= i < n - 1 ==> Passes(records, i))
    && (n == |records| || !GoesOn(records, n) || !Lands(records, n))
  }

  /** The file and its entries, when the file could be opened. */
  ghost predicate Tells(w: Writer, records: seq<Event>) {
    && AllRecords(records)
    && var n := |w.entries|;
    && n <= |records| && Writes(records, n)
    && w.entries == ToldAll(records, n)
    && w.journal == Lines(ToldAll(records, n)) + PartOf(records, n)
  }

  /** The state in between: still open with every call passed, or shut for good. */
  ghost predicate Stands(w: Writer, records: seq<Event>, closed: bool) {
    && Tells(w, records)
    && (w.open ==> !closed && |w.entries| == |records| == w.count && GoesOn(records, |records|) && w.elapsedMs == LatestOf(records))
    && (!w.open && !closed ==> |w.entries| < |records| || !GoesOn(records, |w.entries|))
  }

  lemma {:induction false} RecordsAppend(events: seq<Event>, e: Event)
    ensures RecordsOf(events + [e]) == RecordsOf(events) + (if Closes(events) || e.Close? then [] else [e])
  {
    if events == [] {
      assert events + [e] == [e] && [e][1..] == [];
    } else {
      assert (events + [e])[1..] == events[1..] + [e];
      RecordsAppend(events[1..], e);
      assert Closes(events) <==> events[0].Close? || Closes(events[1..]) by {
        if Closes(events) && !events[0].Close? {
          var k :| 0 <= k < |events| && events[k].Close?;
          assert events[1..][k - 1].Close?;
        }
      }
    }
  }

  /** One more call changes nothing about those before it. */
  lemma OneMore(records: seq<Event>, r: Event, i: nat)
    requires AllRecords(records) && r.Record? && i < |records|
    ensures AllRecords(records + [r])
    ensures Told(records + [r], i) == Told(records, i)
    ensures Sound(records + [r], i) == Sound(records, i) && Lands(records + [r], i) == Lands(records, i)
    ensures Passes(records + [r], i) == Passes(records, i)
  {
    assert (records + [r])[..i + 1] == records[..i + 1];
    hide IsPhase, Line;
  }

  lemma MoreRecords(records: seq<Event>, r: Event, n: nat)
    requires AllRecords(records) && r.Record? && n <= |records|
    ensures AllRecords(records + [r])
    ensures ToldAll(records + [r], n) == ToldAll(records, n)
    ensures GoesOn(records + [r], n) == GoesOn(records, n)
    ensures n < |records| || !GoesOn(records, n) ==> PartOf(records + [r], n) == PartOf(records, n)
    ensures (n < |records| || !GoesOn(records, n)) && Writes(records, n) ==> Writes(records + [r], n)
  {
    hide Told, Sound, Lands, Passes, Line;
    forall i | 0 <= i < |records|
      ensures Told(records + [r], i) == Told(records, i) && Sound(records + [r], i) == Sound(records, i)
      ensures Lands(records + [r], i) == Lands(records, i) && Passes(records + [r], i) == Passes(records, i)
      ensures (records + [r])[i] == records[i]
    {
      OneMore(records, r, i);
    }
  }

  lemma NewestTold(w: Writer, records: seq<Event>, r: Event)
    requires Stands(w, records, false) && w.open && r.Record? && r.reading.Elapsed?
    ensures var more := records + [r];
            && AllRecords(more) && LatestOf(more[..|records| + 1]) == w.Latest(r.reading.ms)
            && Told(more, |records|) == w.NextEntry(r.phase, w.Latest(r.reading.ms))
  {
    var more := records + [r];
    assert more[..|records| + 1] == more && more[..|more| - 1] == records;
  }

  /** A call that is refused, or whose line fails to land whole, shuts the writer for good. */
  lemma CallShuts(w: Writer, records: seq<Event>, r: Event, t: Writer)
    requires Stands(w, records, false) && w.open && r.Record?
    requires !t.open && t.entries == w.entries && !Lands(records + [r], |records|)
    requires t.journal == w.journal + PartOf(records + [r], |records|)
    ensures Stands(t, records + [r], false)
  {
    MoreRecords(records, r, |records|);
    hide Told, Sound, Lands, Line, Lines;
    assert forall i :: 0 <= i < |records| ==> Passes(records, i);
    forall i | 0 <= i < |records| ensures Passes(records + [r], i) && Lands(records + [r], i) { OneMore(records, r, i); }
    assert PartOf(records, |records|) == "" && w.journal + [] == w.journal;
    assert Lines(w.entries) + [] == Lines(w.entries);
  }

  /** With every call passed, the file is the lines of all of them. */
  lemma AllPassed(records: seq<Event>)
    requires AllRecords(records) && |records| <= MAX_OBSERVATIONS
    requires forall i :: 0 <= i < |records| ==> Lands(records, i)
    requires forall i :: 0 <= i < |records| - 1 ==> Passes(records, i)
    ensures Writes(records, |records|) && PartOf(records, |records|) == ""
  {
  }

  /** The newest call lands, after all before it passed. */
  lemma NewestLands(records: seq<Event>, r: Event)
    requires AllRecords(records) && r.Record? && GoesOn(records, |records|)
    requires AllRecords(records + [r]) && Lands(records + [r], |records|)
    ensures Writes(records + [r], |records| + 1) && PartOf(records + [r], |records| + 1) == ""
    ensures GoesOn(records + [r], |records| + 1) <==> r.write.Wrote? && |records| + 1 < MAX_OBSERVATIONS
  {
    var more := records + [r];
    forall i | 0 <= i < |records| ensures Passes(more, i) && Lands(more, i) {
      assert Passes(records, i);
      OneMore(records, r, i);
    }
    hide Told, Sound, Lands, Line;
    assert more[|records|] == r;
    AllPassed(more);
    assert Passes(more, |records|) <==> r.write.Wrote?;
  }

  lemma ToldGrows(records: seq<Event>, r: Event)
    requires AllRecords(records) && r.Record? && AllRecords(records + [r])
    ensures ToldAll(records + [r], |records| + 1) == ToldAll(records, |records|) + [Told(records + [r], |records|)]
  {
    MoreRecords(records, r, |records|);
    hide Told, GoesOn, Writes, PartOf;
  }

  /** A call whose line lands is told, and the writer goes on unless the write threw or the room is used up. */
  lemma CallLands(w: Writer, records: seq<Event>, r: Event, t: Writer)
    requires Stands(w, records, false) && w.open && r.Record? && Lands(records + [r], |records|)
    requires t.entries == w.entries + [Told(records + [r], |records|)]
    requires t.journal == w.journal + Line(Told(records + [r], |records|))
    requires t.open <==> r.write.Wrote? && |records| + 1 < MAX_OBSERVATIONS
    requires t.open ==> t.count == |records| + 1 && t.elapsedMs == LatestOf(records + [r])
    ensures Stands(t, records + [r], false)
  {
    hide Stands, Lands, LatestOf, Told, ToldAll, PartOf, Writes, GoesOn, AllRecords, Line, Lines;
    OpenStands(w, records);
    AreRecords(records, r);
    var o := Told(records + [r], |records|);
    NewestLands(records, r);
    ToldGrows(records, r);
    LinesAppend(w.entries, [o]);
    OneLine(o);
    LandingStands(t, records + [r]);
  }

  lemma OpenStands(w: Writer, records: seq<Event>)
    requires Stands(w, records, false) && w.open
    ensures AllRecords(records) && GoesOn(records, |records|)
    ensures w.entries == ToldAll(records, |records|) && w.journal == Lines(w.entries)
    ensures |w.entries| == |records| == w.count && w.elapsedMs == LatestOf(records)
  {
    NoPart(records);
    hide GoesOn, ToldAll, Lines, Writes, PartOf, LatestOf;
    assert Lines(w.entries) + "" == Lines(w.entries);
  }

  lemma LandingStands(t: Writer, more: seq<Event>)
    requires AllRecords(more) && t.entries == ToldAll(more, |more|) && t.journal == Lines(t.entries)
    requires Writes(more, |more|) && PartOf(more, |more|) == "" && (t.open <==> GoesOn(more, |more|))
    requires t.open ==> t.count == |more| && t.elapsedMs == LatestOf(more)
    ensures Stands(t, more, false)
  {
    hide GoesOn, Lines, Writes, PartOf, LatestOf;
    assert Lines(t.entries) + "" == Lines(t.entries);
  }

  lemma AreRecords(records: seq<Event>, r: Event)
    requires AllRecords(records) && r.Record?
    ensures AllRecords(records + [r])
  {
  }

  lemma NoPart(records: seq<Event>)
    requires AllRecords(records)
    ensures PartOf(records, |records|) == ""
  {
  }

  lemma OneLine(o: Observation)
    ensures Lines([o]) == Line(o)
  {
    assert Lines([o]) == Line(o) + Lines([]);
  }

  /** What the writer does of a sound call: it writes this line, as far as the write goes. */
  lemma SoundCallWrites(w: Writer, r: Event, o: Observation)
    requires w.Valid() && w.open && r.Record? && IsPhase(r.phase) && r.phase != TRUNCATED && r.reading.Elapsed?
    requires w.Latest(r.reading.ms) <= MAX_SAFE && o == w.NextEntry(r.phase, w.Latest(r.reading.ms))
    ensures var t := w.Step(r);
            if |Line(o)| <= r.write.reached then
              && t.entries == w.entries + [o] && t.journal == w.journal + Line(o)
              && (t.open <==> r.write.Wrote? && w.count != MAX_OBSERVATIONS - 1)
              && (t.open ==> t.count == w.count + 1 && t.elapsedMs == w.Latest(r.reading.ms))
            else !t.open && t.entries == w.entries && t.journal == w.journal + Line(o)[..r.write.reached]
  {
    ByteCapUnreachable(w, r.phase, w.Latest(r.reading.ms));
    assert Line(o)[..|Line(o)|] == Line(o);
    hide IsPhase, Line, Lines, Writer.Valid;
  }

  lemma SoundCall(w: Writer, records: seq<Event>, r: Event)
    requires w.Valid() && Stands(w, records, false) && w.open && r.Record? && AllRecords(records + [r])
    requires Sound(records + [r], |records|)
    ensures var t, o := w.Step(r), Told(records + [r], |records|);
            if Lands(records + [r], |records|) then
              && t.entries == w.entries + [o] && t.journal == w.journal + Line(o)
              && (t.open <==> r.write.Wrote? && |records| + 1 < MAX_OBSERVATIONS)
              && (t.open ==> t.count == |records| + 1 && t.elapsedMs == LatestOf(records + [r]))
            else !t.open && t.entries == w.entries && t.journal == w.journal + Line(o)[..r.write.reached]
  {
    NewestTold(w, records, r);
    NewestSound(records, r);
    OpenStands(w, records);
    RoomLeft(records);
    hide Stands, GoesOn, Writer.Valid, Writer.Step, IsPhase, Line, Lines, Told, LatestOf, AllRecords, ToldAll, Sound;
    SoundCallWrites(w, r, Told(records + [r], |records|));
    LandsMeans(records, r);
  }

  lemma RoomLeft(records: seq<Event>)
    requires AllRecords(records) && GoesOn(records, |records|)
    ensures |records| < MAX_OBSERVATIONS
  {
  }

  lemma NewestSound(records: seq<Event>, r: Event)
    requires r.Record? && AllRecords(records + [r]) && Sound(records + [r], |records|)
    ensures IsPhase(r.phase) && r.phase != TRUNCATED && r.reading.Elapsed?
    ensures LatestOf((records + [r])[..|records| + 1]) <= MAX_SAFE && LatestOf(records + [r]) <= MAX_SAFE
    ensures LatestOf((records + [r])[..|records| + 1]) == LatestOf(records + [r])
  {
    hide IsPhase, LatestOf, AllRecords;
    AppendIs(records, r);
  }

  lemma AppendIs<T>(s: seq<T>, x: T)
    ensures (s + [x])[|s|] == x && (s + [x])[..|s| + 1] == s + [x] && (s + [x])[..|s|] == s
  {
  }

  lemma LandsMeans(records: seq<Event>, r: Event)
    requires r.Record? && AllRecords(records + [r]) && Sound(records + [r], |records|)
    ensures Lands(records + [r], |records|) <==> |Line(Told(records + [r], |records|))| <= r.write.reached
  {
    assert (records + [r])[|records|] == r;
    hide Sound, Line, Told;
  }

  lemma CallTells(w: Writer, records: seq<Event>, r: Event)
    requires w.Valid() && Stands(w, records, false) && w.open && r.Record?
    ensures Stands(w.Step(r), records + [r], false)
  {
    var more, n := records + [r], |records|;
    assert more[n] == r;
    if Sound(more, n) {
      SoundCall(w, records, r);
      if !Lands(more, n) { PartOfNewest(records, r); }
      hide Stands, Sound, Lands, Line, Told, Writer.Valid, Writer.Step, LatestOf, PartOf;
      if Lands(more, n) { CallLands(w, records, r, w.Step(r)); } else { CallShuts(w, records, r, w.Step(r)); }
    } else {
      if r.reading.Elapsed? { NewestTold(w, records, r); }
      assert w.journal + "" == w.journal && !Lands(more, n) && PartOf(more, n) == "";
      hide IsPhase, Line, Lines, Told, Writer.Valid, LatestOf, ToldAll, Writes, PartOf;
      CallShuts(w, records, r, w.Step(r));
    }
  }

  lemma PartOfNewest(records: seq<Event>, r: Event)
    requires AllRecords(records + [r]) && AllRecords(records) && GoesOn(records, |records|)
    requires Sound(records + [r], |records|) && !Lands(records + [r], |records|)
    ensures PartOf(records + [r], |records|) == Line(Told(records + [r], |records|))[..r.write.reached]
  {
    MoreRecords(records, r, |records|);
    assert (records + [r])[|records|] == r;
  }

  lemma StepTells(w: Writer, done: seq<Event>, e: Event)
    requires w.Valid() && Stands(w, RecordsOf(done), Closes(done))
    ensures Stands(w.Step(e), RecordsOf(done + [e]), Closes(done + [e]))
  {
    RecordsAppend(done, e);
    ClosesAppend(done, e);
    var records := RecordsOf(done);
    if e.Record? && !Closes(done) {
      if w.open {
        CallTells(w, records, e);
      } else {
        MoreRecords(records, e, |w.entries|);
        hide ToldAll, Writes, PartOf, Lines, GoesOn;
        assert w.Step(e) == w;
      }
    } else {
      assert records + [] == records;
      hide ToldAll, Writes, PartOf, Lines, GoesOn;
    }
  }

  lemma ClosesAppend(done: seq<Event>, e: Event)
    ensures Closes(done + [e]) <==> Closes(done) || e.Close?
  {
    if Closes(done) {
      var k :| 0 <= k < |done| && done[k].Close?;
      assert (done + [e])[k].Close?;
    }
    if e.Close? { assert (done + [e])[|done|].Close?; }
  }

  lemma {:induction false} RunTells(w: Writer, done: seq<Event>, events: seq<Event>)
    requires w.Valid() && Stands(w, RecordsOf(done), Closes(done))
    ensures Stands(Run(w, events), RecordsOf(done + events), Closes(done + events))
    decreases |events|
  {
    hide Stands, Writer.Valid, Writer.Step, Closes, RecordsOf;
    if events == [] {
      assert done + events == done;
    } else {
      StepTells(w, done, events[0]);
      StepKeepsValid(w, events[0]);
      RunTells(w.Step(events[0]), done + [events[0]], events[1..]);
      assert done + [events[0]] + events[1..] == done + events;
    }
  }

  /**
   * The file holds exactly what the calls of `record` before the first `close` tell: a line for each,
   * with its own phase and the latest clock reading, in order, up to the first call that is refused,
   * falls short or throws, or the marker in the last place there is room for; and of a line that
   * fell short, just the part that was written.
   */
  lemma FileIsExact(events: seq<Event>)
    ensures Tells(Run(Init(true), events), RecordsOf(events))
    ensures Run(Init(false), events).journal == ""
  {
    InitIsValid(true);
    assert Stands(Init(true), RecordsOf([]), Closes([])) by { assert Lines([]) + "" == ""; }
    RunTells(Init(true), [], events);
    assert [] + events == events;
    JournalOnlyGrows(Init(false), events);
  }

  /** The first `n` bytes hold `c` whole lines of what the calls tell, and capture exactly these. */
  ghost predicate Recovered(journal: string, n: nat, records: seq<Event>, c: nat)
    requires n <= |journal| && AllRecords(records) && c <= |records|
  {
    && |Lines(ToldAll(records, c))| <= n && Lines(ToldAll(records, c)) <= journal
    && (forall i :: 0 <= i < c ==> Lands(records, i))
    && ParseText(journal[..n]) ==
         if c == 0 then Invalid
         else Captured(journal[n - 1] != '\n', ToldAll(records, c), c == MAX_OBSERVATIONS)
  }

  ghost predicate RecoversSome(journal: string, n: nat, records: seq<Event>)
    requires n <= |journal|
  {
    AllRecords(records) && exists c: nat :: c <= |records| && Recovered(journal, n, records, c)
  }

  lemma CutLines(entries: seq<Observation>, c: nat)
    requires c <= |entries|
    ensures Lines(entries[..c]) <= Lines(entries)
  {
    hide Lines;
    assert entries == entries[..c] + entries[c..];
    LinesAppend(entries[..c], entries[c..]);
  }

  lemma FirstLinesTold(w: Writer, records: seq<Event>, c: nat)
    requires Tells(w, records) && c <= |w.entries|
    ensures w.entries[..c] == ToldAll(records, c) && Lines(ToldAll(records, c)) <= w.journal
    ensures forall i :: 0 <= i < c ==> Lands(records, i)
    ensures 0 < c ==> (w.entries[c - 1].phase == TRUNCATED <==> c == MAX_OBSERVATIONS)
  {
    hide IsPhase, Line, Lines, LatestOf, PartOf;
    ToldPrefix(records, |w.entries|, c);
    CutLines(w.entries, c);
    if 0 < c { assert Lands(records, c - 1) && w.entries[c - 1] == Told(records, c - 1); }
  }

  /** What any first `n` bytes of the file parse to, told from the calls alone. */
  lemma RecoversTheStory(events: seq<Event>, n: nat)
    requires n <= |Run(Init(true), events).journal|
    ensures var records, w := RecordsOf(events), Run(Init(true), events);
            RecoversSome(w.journal, n, records)
  {
    hide Run, ParseText, Lines, Line, Tells;
    var records, w := RecordsOf(events), Run(Init(true), events);
    FileIsExact(events);
    PrefixRecovers(true, events, n);
    var c := CompleteLines(w.entries, n);
    assert AllRecords(records) && |w.entries| <= |records| by { EntriesAreCalls(w, records); }
    FirstLinesTold(w, records, c);
    hide ToldAll, CompleteLines, Lands;
    assert Recovered(w.journal, n, records, c);
  }

  lemma EntriesAreCalls(w: Writer, records: seq<Event>)
    requires Tells(w, records)
    ensures AllRecords(records) && |w.entries| <= |records|
  {
  }

  lemma {:induction false} ToldPrefix(records: seq<Event>, n: nat, c: nat)
    requires AllRecords(records) && c <= n <= |records|
    ensures ToldAll(records, n)[..c] == ToldAll(records, c)
  {
  }
}
