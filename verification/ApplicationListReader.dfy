/**
 * Reading a list of applications through a provider that may be slow, throw, or lose its
 * admission at any moment.  The list is a snapshot: each read of an item either throws or tells
 * what the item is.
 */
module ApplicationListReader {
  import opened Common

  /** The limit of one text. */
  const MAXIMUM_TEXT: nat := 1024

  datatype Item = Item(owned: bool, isListItem: bool, name: Option<string>)

  datatype Stage =
    | Admission | CreateAutomation | DisableAutoFocus | ElementFromHandle | ListProcessId | ListControlType
    | RawWalker | FirstChild | ItemProcessId | ItemControlType | ItemName | NextSibling
    | ConnectionTimeout | TransactionTimeout

  datatype Reason = OutputLimit | AdmissionLost | BudgetExpired | PropertyMismatch | ProviderException

  datatype Report = Report(stage: Stage, reason: Reason)

  /** What the `k`-th question to the surroundings brings. */
  datatype Surroundings = Surroundings(admitted: nat -> bool, remaining: nat -> int, throws: nat -> bool)

  ghost predicate Benign(s: Surroundings) {
    forall k: nat :: s.admitted(k) && 0 < s.remaining(k) && !s.throws(k)
  }

  function Smaller(a: nat, b: nat): nat { if a <= b then a else b }

  predicate Readable(item: Item) { item.owned && item.isListItem && item.name.Some? }

  /** What the limits let through of one name. */
  function Clipped(name: string, characters: nat): string {
    name[..Smaller(|name|, Smaller(MAXIMUM_TEXT, characters))]
  }

  predicate Spent(items: nat, characters: nat, text: string) { items <= 1 || characters <= |text| }

  /** All that the limits let through of a list. */
  function Texts(list: seq<Item>, items: nat, characters: nat): (r: seq<string>) {
    if list == [] || !Readable(list[0]) then []
    else
      var text := Clipped(list[0].name.value, characters);
      [text] + (if Spent(items, characters, text) then [] else Texts(list[1..], items - 1, characters - |text|))
  }

  /** The first reason the list itself gives not to be read whole. */
  function Verdict(list: seq<Item>, items: nat, characters: nat): Option<Reason> {
    if list == [] then None
    else if !Readable(list[0]) then Some(PropertyMismatch)
    else
      var name := list[0].name.value;
      if Smaller(MAXIMUM_TEXT, characters) < |name| || Spent(items, characters, name) then Some(OutputLimit)
      else Verdict(list[1..], items - 1, characters - |name|)
  }

  function Total(texts: seq<string>): nat {
    if texts == [] then 0 else |texts[0]| + Total(texts[1..])
  }

  predicate AllNamed(list: seq<Item>) { forall i :: 0 <= i < |list| ==> list[i].name.Some? }

  predicate AllReadable(list: seq<Item>) { forall i :: 0 <= i < |list| ==> Readable(list[i]) }

  function Names(list: seq<Item>): (names: seq<string>)
    requires AllNamed(list)
    ensures |names| == |list| && forall i :: 0 <= i < |list| ==> names[i] == list[i].name.value
  {
    if list == [] then [] else [list[0].name.value] + Names(list[1..])
  }

  /** Each text is a prefix of the name of the item at its place, and all limits are kept. */
  lemma {:induction false} TextsAreBounded(list: seq<Item>, items: nat, characters: nat)
    requires 0 < items
    ensures var r := Texts(list, items, characters);
            && |r| <= items && |r| <= |list| && Total(r) <= characters
            && forall i :: 0 <= i < |r| ==>
                 |r[i]| <= MAXIMUM_TEXT && list[i].name.Some? && r[i] <= list[i].name.value
  {
    if list != [] && Readable(list[0]) {
      var text := Clipped(list[0].name.value, characters);
      if Spent(items, characters, text) {
        assert [text][1..] == [];
      } else {
        var rest := Texts(list[1..], items - 1, characters - |text|);
        TextsAreBounded(list[1..], items - 1, characters - |text|);
        hide Texts, Readable;
        assert ([text] + rest)[1..] == rest && ([text] + rest)[0] == text;
        forall i | 0 <= i < |rest| ensures list[i + 1].name.Some? && rest[i] <= list[i + 1].name.value {
          assert list[1..][i] == list[i + 1];
        }
      }
    }
  }

  predicate Fits(list: seq<Item>, items: nat, characters: nat) {
    && AllReadable(list) && (forall i :: 0 <= i < |list| ==> |list[i].name.value| <= MAXIMUM_TEXT)
    && (list != [] ==> |list| < items && Total(Names(list)) < characters)
  }

  lemma FitsUnfolds(list: seq<Item>, items: nat, characters: nat)
    requires list != [] && Readable(list[0]) && 1 < items && |list[0].name.value| < characters
    ensures Fits(list, items, characters) <==>
            |list[0].name.value| <= MAXIMUM_TEXT && Fits(list[1..], items - 1, characters - |list[0].name.value|)
  {
    var name, rest := list[0].name.value, list[1..];
    assert forall i :: 0 < i < |list| ==> list[i] == rest[i - 1];
    assert AllReadable(list) <==> AllReadable(rest);
    if AllReadable(list) {
      assert Names(list) == [name] + Names(rest);
      assert Names(list)[0] == name && Names(list)[1..] == Names(rest);
      assert Total(Names(list)) == |name| + Total(Names(rest));
    }
  }

  /**
   * The list gives no reason if and only if it is readable and stays strictly below both caps (a
   * list that uses one up cannot be told from a longer one), and then its texts are its names.
   */
  lemma {:induction false} VerdictIsExact(list: seq<Item>, items: nat, characters: nat)
    ensures Verdict(list, items, characters) == None <==> Fits(list, items, characters)
    ensures Fits(list, items, characters) ==> Texts(list, items, characters) == Names(list)
  {
    if list != [] && Readable(list[0]) {
      var name := list[0].name.value;
      if 1 < items && |name| < characters {
        FitsUnfolds(list, items, characters);
        if |name| <= MAXIMUM_TEXT {
          VerdictIsExact(list[1..], items - 1, characters - |name|);
          assert Clipped(name, characters) == name;
          if Fits(list, items, characters) { assert Names(list) == [name] + Names(list[1..]); }
        }
      } else if AllReadable(list) {
        assert Names(list)[0] == name;
      }
    }
  }

  /** A list that just uses up a cap is reported as cut short, though its texts are all there. */
  lemma FullListReadsAsCut()
    ensures var list := [Item(true, true, Some("a"))];
            && Texts(list, 1, 10) == Names(list) && Verdict(list, 1, 10) == Some(OutputLimit)
            && Texts(list, 10, 1) == Names(list) && Verdict(list, 10, 1) == Some(OutputLimit)
  {
    assert Clipped("a", 10) == "a" && Clipped("a", 1) == "a";
  }

  // The reader.

  /** What was asked of the surroundings, in order, with the answer. */
  datatype Question =
    AdmissionAsked(yes: bool) | BudgetAsked(left: int) | Created(threw: bool) | TimeoutSet(threw: bool) | Accessed(threw: bool, stage: Stage)

  predicate Raised(q: Question) { (q.Created? || q.TimeoutSet? || q.Accessed?) && q.threw }

  predicate Good(q: Question) {
    match q
    case AdmissionAsked(yes) => yes
    case BudgetAsked(left) => 0 < left
    case _ => !q.threw
  }

  ghost predicate Answered(env: Surroundings, log: seq<Question>) {
    forall k :: 0 <= k < |log| ==>
      match log[k]
      case AdmissionAsked(yes) => yes == env.admitted(k)
      case BudgetAsked(left) => left == env.remaining(k)
      case _ => log[k].threw == env.throws(k)
  }

  /** Right before it: budget left, admission, both time-outs set, and admission again. */
  ghost predicate Cleared(log: seq<Question>, k: nat)
    requires k <= |log|
  {
    && 5 <= k && log[k - 5].BudgetAsked? && log[k - 4] == AdmissionAsked(true) && log[k - 3] == log[k - 2] == TimeoutSet(false)
    && log[k - 1] == AdmissionAsked(true) && 0 < log[k - 5].left
  }

  /** The list is accessed only when cleared. */
  ghost predicate Guarded(log: seq<Question>) { forall k :: 0 <= k < |log| && log[k].Accessed? ==> Cleared(log, k) }

  ghost predicate AllGood(log: seq<Question>) { forall k :: 0 <= k < |log| ==> Good(log[k]) }

  ghost predicate Quiet(log: seq<Question>) { forall k :: 0 <= k < |log| ==> !Raised(log[k]) }

  /** How one stretch of work leaves the log: guarded, quiet unless it raised with its last question, good if it went well. */
  ghost predicate Goes(before: seq<Question>, after: seq<Question>, well: bool, raised: bool) {
    && before <= after && (Guarded(before) ==> Guarded(after))
    && (AllGood(before) && well ==> AllGood(after))
    && (Quiet(before) ==> if raised then after != [] && Quiet(after[..|after| - 1]) else Quiet(after))
  }

  /** Between these two points the list was accessed for this, and did not throw. */
  ghost predicate Accesses(log: seq<Question>, from: nat, to: nat, stage: Stage) {
    exists k :: from <= k < to && k < |log| && log[k] == Accessed(false, stage)
  }

  /** Admission is granted, right before the budget for an access is asked for. */
  ghost predicate Admits(log: seq<Question>, from: nat, to: nat) {
    exists k :: from <= k && k + 1 < to && k + 1 < |log| && log[k] == AdmissionAsked(true) && log[k + 1].BudgetAsked?
  }

  /** One item, from an admission of its own: its process, kind and name, and admission once more for the name. */
  ghost predicate ItemRead(log: seq<Question>, from: nat, to: nat) {
    && Admits(log, from, to) && 0 < to <= |log| && log[to - 1] == AdmissionAsked(true)
    && Accesses(log, from, to, ItemProcessId) && Accesses(log, from, to, ItemControlType) && Accesses(log, from, to, ItemName)
  }

  /** What is read of an item after that first admission. */
  ghost predicate NameRead(log: seq<Question>, from: nat) {
    && from < |log| && log[from].BudgetAsked? && log[|log| - 1] == AdmissionAsked(true)
    && Accesses(log, from, |log|, ItemProcessId) && Accesses(log, from, |log|, ItemControlType)
    && Accesses(log, from, |log|, ItemName)
  }

  lemma ItemIsRead(log: seq<Question>, from: nat)
    requires 0 < from && NameRead(log, from) && log[from - 1] == AdmissionAsked(true)
    ensures ItemRead(log, from - 1, |log|)
  {
    ReadFrom(log, from - 1, from, ItemProcessId);
    ReadFrom(log, from - 1, from, ItemControlType);
    ReadFrom(log, from - 1, from, ItemName);
    assert log[from - 1] == AdmissionAsked(true) && log[from - 1 + 1].BudgetAsked?;
    hide Accesses;
  }

  /** The root with its process and kind, and the way to its first item. */
  ghost predicate RootRead(log: seq<Question>) {
    && Accesses(log, 0, |log|, ElementFromHandle) && Accesses(log, 0, |log|, ListProcessId) && Accesses(log, 0, |log|, ListControlType)
    && Accesses(log, 0, |log|, RawWalker) && Accesses(log, 0, |log|, FirstChild)
  }

  lemma ReadLasts(log: seq<Question>, more: seq<Question>, from: nat, to: nat, stage: Stage)
    requires log <= more && Accesses(log, from, to, stage)
    ensures Accesses(more, from, to, stage) && forall later: nat :: to <= later ==> Accesses(more, from, later, stage)
  {
    var k :| from <= k < to && k < |log| && log[k] == Accessed(false, stage);
    assert more[k] == Accessed(false, stage);
  }

  lemma RootReadLasts(log: seq<Question>, more: seq<Question>)
    requires log <= more && RootRead(log)
    ensures RootRead(more)
  {
    ReadLasts(log, more, 0, |log|, ElementFromHandle);
    ReadLasts(log, more, 0, |log|, ListProcessId);
    ReadLasts(log, more, 0, |log|, ListControlType);
    ReadLasts(log, more, 0, |log|, RawWalker);
    ReadLasts(log, more, 0, |log|, FirstChild);
    hide Accesses;
  }

  /** The items read, one after the other: each between its mark and the next, and after the first by way of its sibling. */
  ghost predicate Marked(log: seq<Question>, marks: seq<nat>) {
    && marks != [] && (forall j :: 0 <= j < |marks| ==> marks[j] <= |log|)
    && forall j :: 0 <= j < |marks| - 1 ==>
         marks[j] <= marks[j + 1] && ItemRead(log, marks[j], marks[j + 1])
         && (0 < j ==> Accesses(log, marks[j], marks[j + 1], NextSibling))
  }

  /** After the last item, if there was one, its sibling was asked for. */
  ghost predicate SiblingRead(log: seq<Question>, marks: seq<nat>)
    requires marks != []
  {
    1 < |marks| ==> Accesses(log, marks[|marks| - 1], |log|, NextSibling)
  }

  lemma SiblingReadLasts(log: seq<Question>, more: seq<Question>, marks: seq<nat>)
    requires log <= more && marks != [] && SiblingRead(log, marks)
    ensures SiblingRead(more, marks)
  {
    if 1 < |marks| { ReadLasts(log, more, marks[|marks| - 1], |log|, NextSibling); }
  }

  lemma ItemReadLasts(log: seq<Question>, more: seq<Question>, from: nat, to: nat)
    requires log <= more && ItemRead(log, from, to)
    ensures ItemRead(more, from, to)
  {
    ReadLasts(log, more, from, to, ItemProcessId);
    ReadLasts(log, more, from, to, ItemControlType);
    ReadLasts(log, more, from, to, ItemName);
    var k :| from <= k && k + 1 < to && k + 1 < |log| && log[k] == AdmissionAsked(true) && log[k + 1].BudgetAsked?;
    assert more[k] == AdmissionAsked(true) && more[k + 1].BudgetAsked?;
    hide Accesses;
  }

  lemma MarkedLasts(log: seq<Question>, more: seq<Question>, marks: seq<nat>)
    requires log <= more && Marked(log, marks)
    ensures Marked(more, marks)
  {
    hide ItemRead, Accesses;
    forall j | 0 <= j < |marks| - 1
      ensures ItemRead(more, marks[j], marks[j + 1]) && (0 < j ==> Accesses(more, marks[j], marks[j + 1], NextSibling))
    {
      ItemReadLasts(log, more, marks[j], marks[j + 1]);
      if 0 < j { ReadLasts(log, more, marks[j], marks[j + 1], NextSibling); }
    }
  }

  /** One item more: it was read since this point, which is past the last mark. */
  lemma MarkedGrows(log: seq<Question>, marks: seq<nat>, from: nat)
    requires Marked(log, marks) && marks[|marks| - 1] <= from && ItemRead(log, from, |log|) && SiblingRead(log, marks)
    ensures Marked(log, marks + [|log|])
  {
    var last := marks[|marks| - 1];
    ItemReadFrom(log, last, from);
    hide ItemRead, Accesses;
    var more := marks + [|log|];
    forall j | 0 <= j < |more| - 1
      ensures more[j] <= more[j + 1] && ItemRead(log, more[j], more[j + 1])
      ensures 0 < j ==> Accesses(log, more[j], more[j + 1], NextSibling)
    {
      if j < |marks| - 1 { assert more[j + 1] == marks[j + 1]; }
    }
  }

  lemma ItemReadFrom(log: seq<Question>, earlier: nat, from: nat)
    requires earlier <= from && ItemRead(log, from, |log|)
    ensures ItemRead(log, earlier, |log|)
  {
    ReadFrom(log, earlier, from, ItemProcessId);
    ReadFrom(log, earlier, from, ItemControlType);
    ReadFrom(log, earlier, from, ItemName);
    var k :| from <= k && k + 1 < |log| && log[k] == AdmissionAsked(true) && log[k + 1].BudgetAsked?;
    hide Accesses;
  }

  lemma ReadFrom(log: seq<Question>, earlier: nat, from: nat, stage: Stage)
    requires earlier <= from && Accesses(log, from, |log|, stage)
    ensures Accesses(log, earlier, |log|, stage)
  {
    var k :| from <= k < |log| && log[k] == Accessed(false, stage);
  }

  lemma GoesGrows(a: seq<Question>, b: seq<Question>, well: bool, raised: bool)
    requires Goes(a, b, well, raised)
    ensures a <= b
  {
  }

  lemma GoesOn(a: seq<Question>, b: seq<Question>, c: seq<Question>, well: bool, raised: bool)
    requires Goes(a, b, true, false) && Goes(b, c, well, raised)
    ensures Goes(a, c, well, raised)
  {
  }

  lemma StaysGood(a: seq<Question>, b: seq<Question>)
    requires Goes(a, b, true, false)
    ensures Goes(a, b, false, false)
  {
  }

  lemma NothingAsked(log: seq<Question>)
    ensures Goes(log, log, true, false)
  {
  }

  lemma AskGoes(log: seq<Question>, q: Question)
    requires q.AdmissionAsked? || q.BudgetAsked? || q.TimeoutSet? || q.Created?
    ensures Goes(log, log + [q], Good(q), Raised(q))
  {
    assert (log + [q])[..|log|] == log;
  }

  lemma AccessGoes(log: seq<Question>, q: Question)
    requires q.Accessed? && Cleared(log, |log|)
    ensures Goes(log, log + [q], Good(q), Raised(q))
  {
    assert (log + [q])[..|log|] == log;
  }

  /** One reading: the variables its local functions share, and the count of questions asked so far. */
  class Reading {
    const env: Surroundings
    var stage: Stage
    var reported: Option<Report>
    var asked: nat
    ghost var log: seq<Question>

    ghost predicate Logged()
      reads this
    {
      asked == |log| && Answered(env, log)
    }

    constructor (env: Surroundings)
      ensures this.env == env && reported == None && stage == Admission && log == [] && Logged()
    {
      this.env := env;
      stage, reported, asked, log := Admission, None, 0, [];
    }

    method Admitted() returns (admitted: bool)
      requires Logged()
      modifies this`asked, this`log
      ensures Logged() && log == old(log) + [AdmissionAsked(admitted)] && Goes(old(log), log, admitted, false)
      ensures Benign(env) ==> admitted
    {
      admitted := env.admitted(asked);
      asked := asked + 1;
      AskGoes(log, AdmissionAsked(admitted));
      log := log + [AdmissionAsked(admitted)];
    }

    method RemainingMilliseconds() returns (remaining: int)
      requires Logged()
      modifies this`asked, this`log
      ensures Logged() && log == old(log) + [BudgetAsked(remaining)] && Goes(old(log), log, 0 < remaining, false)
      ensures Benign(env) ==> 0 < remaining
    {
      remaining := env.remaining(asked);
      asked := asked + 1;
      AskGoes(log, BudgetAsked(remaining));
      log := log + [BudgetAsked(remaining)];
    }

    /** The provider is created and set up. */
    method Create() returns (raised: bool)
      requires Logged()
      modifies this`asked, this`log
      ensures Logged() && log == old(log) + [Created(raised)] && Goes(old(log), log, !raised, raised)
      ensures Benign(env) ==> !raised
    {
      raised := env.throws(asked);
      asked := asked + 1;
      AskGoes(log, Created(raised));
      log := log + [Created(raised)];
    }

    method SetTimeout() returns (raised: bool)
      requires Logged()
      modifies this`asked, this`log
      ensures Logged() && log == old(log) + [TimeoutSet(raised)] && Goes(old(log), log, !raised, raised)
      ensures Benign(env) ==> !raised
    {
      raised := env.throws(asked);
      asked := asked + 1;
      AskGoes(log, TimeoutSet(raised));
      log := log + [TimeoutSet(raised)];
    }

    /** The list is accessed, which needs clearance and may throw. */
    method Access(next: Stage) returns (raised: bool)
      requires Logged() && Cleared(log, |log|)
      modifies this`asked, this`log
      ensures Logged() && log == old(log) + [Accessed(raised, next)] && Goes(old(log), log, !raised, raised)
      ensures Benign(env) ==> !raised
    {
      hide Goes, Cleared;
      raised := env.throws(asked);
      asked := asked + 1;
      AccessGoes(log, Accessed(raised, next));
      log := log + [Accessed(raised, next)];
    }

    /** Only the first report counts. */
    method Tell(reason: Reason)
      modifies this`reported
      ensures reported == if old(reported).Some? then old(reported) else Some(Report(stage, reason))
    {
      if reported.Some? { return; }
      reported := Some(Report(stage, reason));
    }

    /** Budget and admission, and the provider's time-outs in between; a refusal has been reported. */
    method Ready() returns (ready: bool, raised: bool)
      requires Logged()
      modifies this
      ensures old(reported).Some? ==> reported == old(reported)
      ensures old(reported) == None && (ready || raised) ==> reported == None
      ensures !ready && !raised ==> reported.Some?
      ensures Benign(env) ==> ready && !raised && reported == old(reported)
      ensures ready ==> !raised && stage == old(stage) && Cleared(log, |log|)
      ensures old(log) <= log && |old(log)| < |log| && log[|old(log)|].BudgetAsked?
      ensures Logged() && Goes(old(log), log, ready, raised)
    {
      hide Goes, Answered, Benign;
      ghost var l0 := log;
      var remaining := RemainingMilliseconds();
      if remaining <= 0 {
        Tell(BudgetExpired);
        return false, false;
      }
      ghost var l1 := log;
      var admitted := Admitted();
      GoesOn(l0, l1, log, admitted, false);
      if !admitted {
        Tell(AdmissionLost);
        return false, false;
      }
      ghost var l2 := log;
      var operation := stage;
      stage := ConnectionTimeout;
      raised := SetTimeout();
      GoesOn(l0, l2, log, !raised, raised);
      if raised { return false, true; }
      ghost var l3 := log;
      stage := TransactionTimeout;
      raised := SetTimeout();
      GoesOn(l0, l3, log, !raised, raised);
      if raised { return false, true; }
      ghost var l4 := log;
      stage := operation;
      admitted := Admitted();
      GoesOn(l0, l4, log, admitted, false);
      if admitted { return true, false; }
      Tell(AdmissionLost);
      return false, false;
    }

    /** `Ready` and then one call, at a stage of its own. */
    method ReadyCall(next: Stage) returns (ready: bool, raised: bool)
      requires Logged()
      modifies this
      ensures old(reported).Some? ==> reported == old(reported)
      ensures old(reported) == None && (ready || raised) ==> reported == None
      ensures !ready && !raised ==> reported.Some?
      ensures Benign(env) ==> ready && !raised && reported == old(reported)
      ensures ready ==> !raised && Accesses(log, |old(log)|, |log|, next)
      ensures Logged() && Goes(old(log), log, ready, raised)
      ensures old(log) <= log && |old(log)| < |log| && log[|old(log)|].BudgetAsked?
    {
      hide Goes, Answered, Benign;
      stage := next;
      ready, raised := Ready();
      if ready {
        ghost var cleared := log;
        raised := Access(next);
        GoesOn(old(log), cleared, log, !raised, raised);
        GoesGrows(old(log), cleared, true, false);
        ready := !raised;
        assert log[|log| - 1] == Accessed(raised, next);
      } else {
        GoesGrows(old(log), log, false, raised);
      }
    }

    /** Everything up to the first item of the list. */
    method Open(rootOwned: bool, rootIsList: bool) returns (open: bool, raised: bool)
      requires reported == None && Logged()
      modifies this
      ensures open ==> !raised && rootOwned && rootIsList && reported == None
      ensures !open && !raised ==> reported.Some?
      ensures Benign(env) ==> !raised && (open <==> rootOwned && rootIsList)
      ensures Logged() && Goes(old(log), log, open, raised)
      ensures open ==> RootRead(log)
    {
      hide Goes, Answered, Benign, Accesses;
      var ready: bool;
      stage := CreateAutomation;
      raised := Create();
      if raised { return false, true; }
      ghost var l := log;
      stage := DisableAutoFocus;
      raised := Create();
      GoesOn(old(log), l, log, !raised, raised);
      if raised { return false, true; }
      l := log;
      ready, raised := ReadyCall(ElementFromHandle);
      GoesOn(old(log), l, log, ready, raised);
      ghost var e1, from1 := log, |l|;
      if !ready { return false, raised; }
      l := log;
      ready, raised := ReadyCall(ListProcessId);
      GoesOn(old(log), l, log, ready, raised);
      ghost var e2, from2 := log, |l|;
      if raised { return false, true; }
      if !ready || !rootOwned {
        if ready { StaysGood(old(log), log); }
        Tell(PropertyMismatch);
        return false, false;
      }
      l := log;
      ready, raised := ReadyCall(ListControlType);
      GoesOn(old(log), l, log, ready, raised);
      ghost var e3, from3 := log, |l|;
      if raised { return false, true; }
      if !ready || !rootIsList {
        if ready { StaysGood(old(log), log); }
        Tell(PropertyMismatch);
        return false, false;
      }
      l := log;
      ready, raised := ReadyCall(RawWalker);
      GoesOn(old(log), l, log, ready, raised);
      ghost var e4, from4 := log, |l|;
      if !ready { return false, raised; }
      l := log;
      ready, raised := ReadyCall(FirstChild);
      GoesOn(old(log), l, log, ready, raised);
      ghost var e5, from5 := log, |l|;
      open := ready;
      if open {
        ReadsRoot(from1, e1, ElementFromHandle, log);
        ReadsRoot(from2, e2, ListProcessId, log);
        ReadsRoot(from3, e3, ListControlType, log);
        ReadsRoot(from4, e4, RawWalker, log);
        ReadsRoot(from5, e5, FirstChild, log);
      }
    }

    static lemma ReadsRoot(from: nat, past: seq<Question>, stage: Stage, log: seq<Question>)
      requires Accesses(past, from, |past|, stage) && past <= log
      ensures Accesses(log, 0, |log|, stage)
    {
      ReadLasts(past, log, from, |past|, stage);
      ReadFrom(log, 0, from, stage);
    }

    /** The checks of one item, up to its name. */
    method ReadName(item: Item) returns (name: Option<string>, raised: bool)
      requires Logged()
      modifies this
      ensures old(reported).Some? ==> reported == old(reported)
      ensures old(reported) == None && (name.Some? || raised) ==> reported == None
      ensures name == None && !raised ==> reported.Some?
      ensures name.Some? ==> Readable(item) && name == item.name && !raised
      ensures Benign(env) ==> !raised && (name.Some? <==> Readable(item))
      ensures Benign(env) && old(reported) == None && !Readable(item) ==> reported.value.reason == PropertyMismatch
      ensures Logged() && Goes(old(log), log, name.Some?, raised)
      ensures name.Some? ==> NameRead(log, |old(log)|)
    {
      hide Goes, Answered, Benign, Accesses;
      ghost var start := |log|;
      var ready: bool;
      ready, raised := ReadyCall(ItemProcessId);
      ghost var e1 := log;
      if raised { return None, true; }
      if !ready || !item.owned {
        if ready { StaysGood(old(log), log); }
        Tell(PropertyMismatch);
        return None, false;
      }
      ghost var l := log;
      ready, raised := ReadyCall(ItemControlType);
      ghost var from2, e2 := |l|, log;
      GoesOn(old(log), l, log, ready, raised);
      if raised { return None, true; }
      if !ready || !item.isListItem {
        if ready { StaysGood(old(log), log); }
        Tell(PropertyMismatch);
        return None, false;
      }
      l := log;
      ready, raised := ReadyCall(ItemName);
      ghost var from3, e3 := |l|, log;
      GoesOn(old(log), l, log, ready, raised);
      if !ready { return None, raised; }
      l := log;
      var admitted := Admitted();
      GoesOn(old(log), l, log, admitted, false);
      if !admitted {
        Tell(AdmissionLost);
        return None, false;
      }
      if item.name == None {
        StaysGood(old(log), log);
        Tell(PropertyMismatch);
      }
      ReadsSince(start, start, e1, ItemProcessId, log);
      ReadsSince(start, from2, e2, ItemControlType, log);
      ReadsSince(start, from3, e3, ItemName, log);
      return item.name, false;
    }

    /** The head of the loop: admission, and then the item up to its name. */
    method ReadItem(item: Item) returns (name: Option<string>, raised: bool)
      requires Logged()
      modifies this
      ensures old(reported).Some? ==> reported == old(reported)
      ensures old(reported) == None && (name.Some? || raised) ==> reported == None
      ensures name == None && !raised ==> reported.Some?
      ensures name.Some? ==> Readable(item) && name == item.name && !raised
      ensures Benign(env) ==> !raised && (name.Some? <==> Readable(item))
      ensures Benign(env) && old(reported) == None && !Readable(item) ==> reported.value.reason == PropertyMismatch
      ensures Logged() && Goes(old(log), log, name.Some?, raised)
      ensures name.Some? ==> ItemRead(log, |old(log)|, |log|)
    {
      hide Goes, Answered, Benign, Accesses, NameRead, ItemRead;
      var admitted := Admitted();
      if !admitted {
        Tell(AdmissionLost);
        return None, false;
      }
      ghost var l := log;
      name, raised := ReadName(item);
      GoesOn(old(log), l, log, name.Some?, raised);
      GoesGrows(l, log, name.Some?, raised);
      if name.Some? { ItemIsRead(log, |l|); }
    }

    static lemma ReadsSince(start: nat, from: nat, past: seq<Question>, stage: Stage, log: seq<Question>)
      requires start <= from && Accesses(past, from, |past|, stage) && past <= log
      ensures Accesses(log, start, |log|, stage)
    {
      ReadLasts(past, log, from, |past|, stage);
      ReadFrom(log, start, from, stage);
    }

    /** One item's share of the list's texts and of its verdict. */
    static lemma TakeOne(list: seq<Item>, i: nat, items: nat, characters: nat)
      requires i < |list|
      ensures var texts, verdict := Texts(list[i..], items, characters), Verdict(list[i..], items, characters);
              if !Readable(list[i]) then texts == [] && verdict == Some(PropertyMismatch)
              else
                var name := list[i].name.value;
                var text := Clipped(name, characters);
                && texts == [text] + (if Spent(items, characters, text) then [] else Texts(list[i + 1..], items - 1, characters - |text|))
                && verdict == if text != name || Spent(items, characters, text) then Some(OutputLimit)
                              else Verdict(list[i + 1..], items - 1, characters - |text|)
    {
      assert list[i..][0] == list[i] && list[i..][1..] == list[i + 1..];
    }

    static lemma TakeNone(list: seq<Item>, items: nat, characters: nat)
      ensures Texts(list[|list|..], items, characters) == [] && Verdict(list[|list|..], items, characters) == None
    {
    }

    static lemma Regroup(a: seq<string>, text: string, b: seq<string>)
      ensures a + ([text] + b) == a + [text] + b
      ensures a + [] == a
    {
    }

    static lemma SiblingIsRead(l: seq<Question>, log: seq<Question>, marks: seq<nat>)
      requires marks != [] && marks[|marks| - 1] == |l| && Accesses(log, |l|, |log|, NextSibling)
      ensures SiblingRead(log, marks)
    {
    }

    static lemma StartsMarked(log: seq<Question>)
      ensures Marked(log, [|log|]) && SiblingRead(log, [|log|])
    {
    }

    static lemma Weakens(a: seq<Question>, b: seq<Question>)
      ensures Goes(a, b, true, false) ==> Goes(a, b, false, false)
    {
    }

    /** What the first report says of a list, when the surroundings give none themselves. */
    ghost predicate Explains(list: seq<Item>, items: nat, characters: nat)
      reads this
    {
      Verdict(list, items, characters) == if reported.Some? then Some(reported.value.reason) else None
    }

    /**
     * The loop over the siblings.  Below the caps at its head, as the invariant says, it needs no
     * check of them there.
     */
    method Walk(list: seq<Item>, maximumItems: nat, maximumCharacters: nat)
      returns (result: seq<string>, partial: bool, raised: bool, ghost marks: seq<nat>)
      requires reported == None && 0 < maximumItems && 0 < maximumCharacters && Logged()
      modifies this
      ensures Logged() && Goes(old(log), log, !partial && !raised, raised)
      ensures Marked(log, marks) && |marks| == |result| + 1 && (!partial && !raised ==> SiblingRead(log, marks))
      ensures !raised ==> result <= Texts(list, maximumItems, maximumCharacters)
      ensures !raised ==> (partial <==> reported.Some?)
      ensures !raised && !partial ==>
                Verdict(list, maximumItems, maximumCharacters) == None && result == Texts(list, maximumItems, maximumCharacters)
      ensures Benign(env) ==>
                !raised && result == Texts(list, maximumItems, maximumCharacters) && Explains(list, maximumItems, maximumCharacters)
    {
      hide Texts, Verdict, Benign, Goes, Answered, Marked, ItemRead, Accesses, SiblingRead;
      assert list[0..] == list;
      marks := [|log|];
      StartsMarked(log);
      NothingAsked(log);
      result, partial, raised := [], false, false;
      var i, remaining: nat := 0, maximumCharacters;
      while i < |list|
        invariant i == |result| <= |list| && !raised
        invariant i < |list| ==> |result| < maximumItems && 0 < remaining
        invariant |result| <= maximumItems
        invariant Texts(list, maximumItems, maximumCharacters) == result + Texts(list[i..], maximumItems - i, remaining)
        invariant partial <==> reported.Some?
        invariant Logged() && Goes(old(log), log, true, false)
        invariant Marked(log, marks) && |marks| == |result| + 1 && marks[|marks| - 1] <= |log| && SiblingRead(log, marks)
        invariant reported == None ==>
                    Verdict(list, maximumItems, maximumCharacters) == Verdict(list[i..], maximumItems - i, remaining)
        invariant Benign(env) && reported.Some? ==> Explains(list, maximumItems, maximumCharacters)
      {
        var item := list[i];
        TakeOne(list, i, maximumItems - i, remaining);
        ghost var l := log;
        var name;
        name, raised := ReadItem(item);
        GoesOn(old(log), l, log, name.Some?, raised);
        GoesGrows(l, log, name.Some?, raised);
        MarkedLasts(l, log, marks);
        SiblingReadLasts(l, log, marks);
        if raised { return; }
        if name == None {
          partial := true;
          break;
        }
        var length := Smaller(MAXIMUM_TEXT, remaining);
        var text := name.value;
        if length < |text| {
          Tell(OutputLimit);
          text := text[..length];
          partial := true;
        }
        assert text == Clipped(name.value, remaining);
        ghost var spent := Spent(maximumItems - i, remaining, text);
        Regroup(result, text, if spent then [] else Texts(list[i + 1..], maximumItems - i - 1, remaining - |text|));
        result := result + [text];
        MarkedGrows(log, marks, |l|);
        marks := marks + [|log|];
        i := i + 1;
        remaining := remaining - |text|;
        if maximumItems <= |result| || remaining <= 0 {
          Tell(OutputLimit);
          partial := true;
          break;
        }
        var ready;
        l := log;
        ready, raised := ReadyCall(NextSibling);
        GoesOn(old(log), l, log, ready, raised);
        MarkedLasts(l, log, marks);
        if ready { SiblingIsRead(l, log, marks); }
        if raised { return; }
        if !ready {
          partial := true;
          break;
        }
      }
      TakeNone(list, maximumItems - i, remaining);
      if partial { Weakens(old(log), log); }
    }
  }

  /**
   * The whole reading.  Whatever happens, the texts are the first ones of those that the limits let
   * through, and `partial` is honest: it is set exactly when a failure was reported, and unless it
   * is set the texts are all the names.  When the surroundings do no harm, the list alone decides.
   */
  method Read(env: Surroundings, rootOwned: bool, rootIsList: bool, list: seq<Item>, maximumItems: int, maximumCharacters: int)
    returns (result: seq<string>, partial: bool, failure: Option<Report>, ghost log: seq<Question>, ghost marks: seq<nat>)
    ensures Answered(env, log) && Guarded(log)
    ensures !partial ==> AllGood(log)
    ensures result != [] || !partial ==> RootRead(log)
    ensures result != [] ==> Marked(log, marks) && |marks| == |result| + 1 && (!partial ==> SiblingRead(log, marks))
    ensures result != [] ==> Quiet(log) && log != [] && log[|log| - 1] == AdmissionAsked(true)
    ensures partial <==> failure.Some?
    ensures 0 < maximumItems && 0 < maximumCharacters ==> result <= Texts(list, maximumItems, maximumCharacters)
    ensures maximumItems <= 0 || maximumCharacters <= 0 ==> result == [] && failure == Some(Report(Admission, OutputLimit))
    ensures !partial ==>
              && 0 < maximumItems && 0 < maximumCharacters && rootOwned && rootIsList
              && Fits(list, maximumItems, maximumCharacters) && result == Names(list)
    ensures Benign(env) && 0 < maximumItems && 0 < maximumCharacters && rootOwned && rootIsList ==>
              && result == Texts(list, maximumItems, maximumCharacters)
              && Verdict(list, maximumItems, maximumCharacters) == if failure.Some? then Some(failure.value.reason) else None
    ensures !(rootOwned && rootIsList) ==> result == []
  {
    hide Texts, Verdict, Benign, Answered, RootRead, Marked, SiblingRead;
    var reading := new Reading(env);
    result, partial, log, marks := [], false, [], [];
    if maximumItems <= 0 || maximumCharacters <= 0 {
      reading.Tell(OutputLimit);
      return [], true, reading.reported, [], [];
    }
    var admitted := reading.Admitted();
    if !admitted {
      reading.Tell(AdmissionLost);
      return [], true, reading.reported, reading.log, [];
    }
    ghost var l := reading.log;
    var open, raised := reading.Open(rootOwned, rootIsList);
    if open {
      GoesOn([], l, reading.log, true, false);
      l := reading.log;
      result, partial, raised, marks := reading.Walk(list, maximumItems, maximumCharacters);
      GoesGrows(l, reading.log, !partial && !raised, raised);
      RootReadLasts(l, reading.log);
      if !raised {
        l := reading.log;
        admitted := reading.Admitted();
        RootReadLasts(l, reading.log);
        MarkedLasts(l, reading.log, marks);
        if !partial { SiblingReadLasts(l, reading.log, marks); }
        if !admitted {
          reading.Tell(AdmissionLost);
          result, partial := [], true;
        }
      }
    } else {
      partial := true;
    }
    if raised {
      reading.Tell(ProviderException);
      result, partial := [], true;
    }
    failure, log := reading.reported, reading.log;
    VerdictIsExact(list, maximumItems, maximumCharacters);
  }
}
