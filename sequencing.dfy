/** `update_event_name`: after sorting, every subject of a known form is given
    the name of the event it belongs to. Records of one (study id, form) group
    take the form's events in order, moving to the next event whenever the
    timestamp changes; a group that runs past the end of the list gets
    "undefined", and the overrun is reported when the next group begins. */
module Sequencing {
  import opened Common
  import opened Records

  /** Form name to the names of its events, in document order. */
  type EventTable = map<string, seq<string>>

  /** `lookup_table[name]` on a `defaultdict(list)`. */
  function EventsOf(t: EventTable, name: string): seq<string>
  {
    if name in t then t[name] else []
  }

  /** The events of every form called `name`, in document order. */
  function FormEvents(forms: seq<FormDef>, name: string): seq<string>
    decreases |forms|
  {
    if forms == [] then []
    else FormEvents(forms[..|forms| - 1], name)
         + (if FormName(forms[|forms| - 1]) == name then forms[|forms| - 1].events else [])
  }

  /** `child.find('name')` succeeds for every form. */
  predicate FormsNamed(forms: seq<FormDef>)
  {
    forall k :: 0 <= k < |forms| ==> "name" in forms[k].elems
  }

  /** The table built from the form-events document: a form that appears
      twice has its event lists joined. */
  function BuildEventTable(forms: seq<FormDef>): EventTable
    decreases |forms|
  {
    if forms == [] then map[]
    else
      var pre := BuildEventTable(forms[..|forms| - 1]);
      var f := forms[|forms| - 1];
      pre[FormName(f) := EventsOf(pre, FormName(f)) + f.events]
  }

  /** The table lists, for each form name, the events of every form of
      that name in document order. */
  lemma {:induction false} BuildEventTableCollects(forms: seq<FormDef>, name: string)
    ensures EventsOf(BuildEventTable(forms), name) == FormEvents(forms, name)
    decreases |forms|
  {
    if forms != [] {
      BuildEventTableCollects(forms[..|forms| - 1], name);
    }
  }

  const EVENT_NAME := "eventName"

  /** The three ways a subject is treated. */
  predicate UndefinedForm(s: Elems)
  {
    Find(s, "redcapFormName") == Some("undefined")
  }

  predicate NoTimestamp(s: Elems)
  {
    !UndefinedForm(s) && Find(s, "timestamp") == Some("")
  }

  predicate Sequenced(s: Elems)
  {
    !UndefinedForm(s) && !NoTimestamp(s)
  }

  /** The subjects on which the pass raises: an `eventName` element it must
      write is missing, or one of the three parts of the group key is
      missing so that joining them fails. */
  predicate Fails(s: Elems)
  {
    (UndefinedForm(s) && EVENT_NAME !in s)
    || (Sequenced(s) && ("STUDY_ID" !in s || "redcapFormName" !in s || "timestamp" !in s || EVENT_NAME !in s))
  }

  function Sid(s: Elems): string { Text(s, "STUDY_ID") }
  function Form(s: Elems): string { Text(s, "redcapFormName") }
  function Stamp(s: Elems): string { Text(s, "timestamp") }

  /** The record group and timestamp group keys, joined with "_". */
  function Group(s: Elems): string { Sid(s) + "_" + Form(s) }
  function TsGroup(s: Elems): string { Group(s) + "_" + Stamp(s) }

  function AlertMessage(studyId: string, formName: string, count: nat, maximum: nat): string
  {
    "Exceeded event list for record group with Subject ID.: " + studyId + " and Form Name: "
    + formName + ". Event count of " + NatToString(count) + " exceeds maximum of " + NatToString(maximum)
  }

  /** The loop's variables. `oldFormName` is None until a record has been
      sequenced; the source tests this by identity with its initial value. */
  datatype SeqState = SeqState(lastRecordGroup: string, lastTimestampGroup: string, eventIndex: nat,
                               oldFormName: Option<string>, lastStudyId: string, lastFormName: string,
                               alerts: seq<string>)

  const INIT := SeqState("dummy", "dummy", 0, None, "", "", [])

  datatype Stepped = Stepped(st: SeqState, rec: Elems)

  /** `element_to_set.text = value`; raises when there is no such element. */
  function SetEvent(s: Elems, value: string): Result<Elems>
  {
    if EVENT_NAME in s then Ok(s[EVENT_NAME := value]) else Err("'NoneType' object has no attribute 'text'")
  }

  /** The loop's bookkeeping for a record that is sequenced: a new record
      group resets the index (reporting the group that ended if it ran
      past its event list), a new timestamp group advances it. */
  function Advance(t: EventTable, st: SeqState, studyId: string, formName: string, timestamp: string): SeqState
  {
    var group := studyId + "_" + formName;
    var tsGroup := group + "_" + timestamp;
    var st1 :=
      if st.lastRecordGroup != group then
        var maximum := if st.oldFormName.Some? then |EventsOf(t, st.oldFormName.value)| else 0;
        var alerts :=
          if st.oldFormName.Some? && st.eventIndex > maximum
          then st.alerts + [AlertMessage(st.lastStudyId, st.lastFormName, st.eventIndex, maximum)]
          else st.alerts;
        SeqState(group, tsGroup, 0, st.oldFormName, studyId, formName, alerts)
      else st;
    var st2 :=
      if st1.lastTimestampGroup != tsGroup
      then st1.(eventIndex := st1.eventIndex + 1, lastTimestampGroup := tsGroup)
      else st1;
    st2.(oldFormName := Some(formName))
  }

  /** One iteration of the loop over the subjects. */
  function Step(t: EventTable, undefined: string, st: SeqState, s: Elems): (r: Result<Stepped>)
    ensures r.Err? <==> Fails(s)
    ensures r.Ok? && !Sequenced(s) ==> r.value.st == st
    ensures r.Ok? ==> (r.value.rec.Keys == s.Keys
      && forall tag :: tag in s && tag != EVENT_NAME ==> r.value.rec[tag] == s[tag])
  {
    var formName := Find(s, "redcapFormName");
    var timestamp := Find(s, "timestamp");
    var studyId := Find(s, "STUDY_ID");
    if formName == Some("undefined") then
      match SetEvent(s, undefined)
      case Err(e) => Err(e)
      case Ok(s') => Ok(Stepped(st, s'))
    else if timestamp == Some("") then Ok(Stepped(st, s))
    else if studyId.None? || formName.None? || timestamp.None? then
      Err("sequence item: expected string, NoneType found")
    else
      var events := EventsOf(t, formName.value);
      var st' := Advance(t, st, studyId.value, formName.value, timestamp.value);
      var value := if st'.eventIndex < |events| then events[st'.eventIndex] else undefined;
      match SetEvent(s, value)
      case Err(e) => Err(e)
      case Ok(s') => Ok(Stepped(st', s'))
  }

  /** The loop so far: the state, the subjects as rewritten, and whether it
      has raised. Once it has raised, the remaining subjects stay as they
      were. */
  datatype RunOut = RunOut(st: SeqState, out: seq<Elems>, failed: bool)

  function Run(t: EventTable, undefined: string, rs: seq<Elems>): (r: RunOut)
    ensures |r.out| == |rs|
    decreases |rs|
  {
    if rs == [] then RunOut(INIT, [], false)
    else
      var pre := Run(t, undefined, rs[..|rs| - 1]);
      var s := rs[|rs| - 1];
      if pre.failed then RunOut(pre.st, pre.out + [s], true)
      else
        match Step(t, undefined, pre.st, s)
        case Err(_) => RunOut(pre.st, pre.out + [s], true)
        case Ok(x) => RunOut(x.st, pre.out + [x.rec], false)
  }

  /** The loop raises exactly when some subject is one it raises on. */
  lemma {:induction false} RunFailsExactly(t: EventTable, undefined: string, rs: seq<Elems>)
    ensures Run(t, undefined, rs).failed <==> exists i :: 0 <= i < |rs| && Fails(rs[i])
    decreases |rs|
  {
    if rs != [] {
      var pre := rs[..|rs| - 1];
      RunFailsExactly(t, undefined, pre);
      assert forall i :: 0 <= i < |pre| ==> pre[i] == rs[i];
    }
  }

  /** After the loop has raised, it leaves the remaining subjects alone. */
  lemma {:induction false} RunAfterFailure(t: EventTable, undefined: string, rs: seq<Elems>, k: nat)
    requires k <= |rs| && Run(t, undefined, rs[..k]).failed
    ensures Run(t, undefined, rs).failed
    ensures Run(t, undefined, rs).out == Run(t, undefined, rs[..k]).out + rs[k..]
    decreases |rs|
  {
    if k < |rs| {
      var pre := rs[..|rs| - 1];
      assert pre[..k] == rs[..k];
      RunAfterFailure(t, undefined, pre, k);
      assert rs[k..] == pre[k..] + [rs[|rs| - 1]];
    } else {
      assert rs[..k] == rs;
    }
  }

  /** Raising on subject `i` leaves it and all later subjects as they were. */
  lemma RunFailsAt(t: EventTable, undefined: string, rs: seq<Elems>, i: nat)
    requires i < |rs| && !Run(t, undefined, rs[..i]).failed && Fails(rs[i])
    ensures Run(t, undefined, rs).failed
    ensures Run(t, undefined, rs).out == Run(t, undefined, rs[..i]).out + rs[i..]
  {
    var pre := Run(t, undefined, rs[..i]);
    assert rs[..i + 1][..i] == rs[..i];
    assert Run(t, undefined, rs[..i + 1]) == RunOut(pre.st, pre.out + [rs[i]], true);
    RunAfterFailure(t, undefined, rs, i + 1);
    assert rs[i..][1..] == rs[i + 1..];
    KeepFirstOfRest(pre.out, rs[i..]);
  }

  // ---------------------------------------------------------------------
  // Reference definition: the event index of a record is the number of
  // timestamp changes since its group began.

  /** The sequenced subjects, in order. */
  function SequencedOf(rs: seq<Elems>): (r: seq<Elems>)
    ensures forall i :: 0 <= i < |r| ==> Sequenced(r[i])
    decreases |rs|
  {
    if rs == [] then []
    else SequencedOf(rs[..|rs| - 1]) + (if Sequenced(rs[|rs| - 1]) then [rs[|rs| - 1]] else [])
  }

  /** The last subject of `r` starts a new group. */
  predicate StartsGroup(r: seq<Elems>)
    requires |r| > 0
  {
    |r| == 1 || Group(r[|r| - 2]) != Group(r[|r| - 1])
  }

  /** The event index of the last subject of `r`. */
  function RefIndex(r: seq<Elems>): nat
    requires |r| > 0
    decreases |r|
  {
    if StartsGroup(r) then 0
    else RefIndex(r[..|r| - 1]) + (if Stamp(r[|r| - 2]) != Stamp(r[|r| - 1]) then 1 else 0)
  }

  /** The first subject of the group the last subject of `r` belongs to. */
  function GroupFirst(r: seq<Elems>): Elems
    requires |r| > 0
    decreases |r|
  {
    if StartsGroup(r) then r[|r| - 1] else GroupFirst(r[..|r| - 1])
  }

  /** A group that ended with an index above its form's event count is
      reported when the next group starts; the last group never is. */
  function RefAlerts(t: EventTable, r: seq<Elems>): seq<string>
    decreases |r|
  {
    if |r| <= 1 then []
    else
      var pre := r[..|r| - 1];
      var maximum := |EventsOf(t, Form(pre[|pre| - 1]))|;
      RefAlerts(t, pre)
      + (if StartsGroup(r) && RefIndex(pre) > maximum
         then [AlertMessage(Sid(GroupFirst(pre)), Form(GroupFirst(pre)), RefIndex(pre), maximum)]
         else [])
  }

  /** The `index`-th event of the form, or `undefined` past the end. */
  function EventAt(t: EventTable, undefined: string, formName: string, index: nat): string
  {
    var events := EventsOf(t, formName);
    if index < |events| then events[index] else undefined
  }

  /** What the pass writes into subject `i` of `rs`. */
  function Expected(t: EventTable, undefined: string, rs: seq<Elems>, i: nat): Elems
    requires i < |rs|
  {
    var s := rs[i];
    if UndefinedForm(s) then s[EVENT_NAME := undefined]
    else if NoTimestamp(s) then s
    else s[EVENT_NAME := EventAt(t, undefined, Form(s), RefIndex(SequencedOf(rs[..i + 1])))]
  }

  lemma SequencedOfLast(rs: seq<Elems>)
    requires |rs| > 0 && Sequenced(rs[|rs| - 1])
    ensures |SequencedOf(rs)| > 0 && SequencedOf(rs)[|SequencedOf(rs)| - 1] == rs[|rs| - 1]
    ensures SequencedOf(rs)[..|SequencedOf(rs)| - 1] == SequencedOf(rs[..|rs| - 1])
  {
  }

  /** Timestamp groups of one record group differ exactly when the
      timestamps do. */
  lemma TsGroupDiffers(a: Elems, b: Elems)
    requires Group(a) == Group(b)
    ensures TsGroup(a) != TsGroup(b) <==> Stamp(a) != Stamp(b)
  {
    var n := |Group(a)| + 1;
    assert TsGroup(a)[n..] == Stamp(a);
    assert TsGroup(b)[n..] == Stamp(b);
  }

  /** A joined group key is never the initial "dummy". */
  lemma GroupIsNotDummy(s: Elems)
    ensures Group(s) != "dummy"
  {
    assert Group(s)[|Sid(s)|] == '_';
  }

  /** The loop's state after a prefix, in terms of the sequenced subjects
      seen so far. */
  predicate StateMatches(t: EventTable, st: SeqState, r: seq<Elems>)
  {
    if r == [] then st.lastRecordGroup == "dummy" && st.oldFormName.None? && st.alerts == []
    else
      var last := r[|r| - 1];
      st.lastRecordGroup == Group(last) && st.lastTimestampGroup == TsGroup(last)
      && st.eventIndex == RefIndex(r) && st.oldFormName == Some(Form(last))
      && st.lastStudyId == Sid(GroupFirst(r)) && st.lastFormName == Form(GroupFirst(r))
      && st.alerts == RefAlerts(t, r)
  }

  /** One sequenced record keeps the state and the reference in
      agreement. */
  lemma AdvanceMatches(t: EventTable, st: SeqState, r: seq<Elems>, s: Elems)
    requires StateMatches(t, st, r)
    ensures StateMatches(t, Advance(t, st, Sid(s), Form(s), Stamp(s)), r + [s])
  {
    if r != [] && Group(r[|r| - 1]) == Group(s) {
      AdvanceSameGroup(t, st, r, s);
    } else {
      AdvanceNewGroup(t, st, r, s);
    }
  }

  /** A record of the group before it: the index moves on exactly when the
      timestamp changes. */
  lemma AdvanceSameGroup(t: EventTable, st: SeqState, r: seq<Elems>, s: Elems)
    requires StateMatches(t, st, r) && r != [] && Group(r[|r| - 1]) == Group(s)
    ensures StateMatches(t, Advance(t, st, Sid(s), Form(s), Stamp(s)), r + [s])
  {
    var r' := r + [s];
    assert r'[..|r'| - 1] == r;
    var last := r[|r| - 1];
    TsGroupDiffers(last, s);
    assert !StartsGroup(r');
    assert RefIndex(r') == RefIndex(r) + (if Stamp(last) != Stamp(s) then 1 else 0);
    assert GroupFirst(r') == GroupFirst(r);
    assert RefAlerts(t, r') == RefAlerts(t, r);
  }

  /** The loop's bookkeeping when a record group begins. */
  lemma AdvanceStartsGroup(t: EventTable, st: SeqState, studyId: string, formName: string, timestamp: string)
    requires st.lastRecordGroup != studyId + "_" + formName
    ensures Advance(t, st, studyId, formName, timestamp)
      == SeqState(studyId + "_" + formName, studyId + "_" + formName + "_" + timestamp, 0, Some(formName),
                  studyId, formName,
                  if st.oldFormName.Some? && st.eventIndex > |EventsOf(t, st.oldFormName.value)|
                  then st.alerts + [AlertMessage(st.lastStudyId, st.lastFormName, st.eventIndex,
                                                 |EventsOf(t, st.oldFormName.value)|)]
                  else st.alerts)
  {
  }

  /** A record that starts a group: the index restarts at 0, and the group
      that ended is reported when it ran past its form's events. */
  lemma AdvanceNewGroup(t: EventTable, st: SeqState, r: seq<Elems>, s: Elems)
    requires StateMatches(t, st, r) && (r == [] || Group(r[|r| - 1]) != Group(s))
    ensures StateMatches(t, Advance(t, st, Sid(s), Form(s), Stamp(s)), r + [s])
  {
    GroupIsNotDummy(s);
    AdvanceStartsGroup(t, st, Sid(s), Form(s), Stamp(s));
    if r == [] {
      assert [s][..0] == [];
    } else {
      NewGroupReference(t, r, s);
    }
  }

  /** The reference on a record that starts a group after others. */
  lemma NewGroupReference(t: EventTable, r: seq<Elems>, s: Elems)
    requires r != [] && Group(r[|r| - 1]) != Group(s)
    ensures var maximum := |EventsOf(t, Form(r[|r| - 1]))|;
      && RefIndex(r + [s]) == 0 && GroupFirst(r + [s]) == s
      && RefAlerts(t, r + [s]) == RefAlerts(t, r)
           + (if RefIndex(r) > maximum
              then [AlertMessage(Sid(GroupFirst(r)), Form(GroupFirst(r)), RefIndex(r), maximum)]
              else [])
  {
    var r' := r + [s];
    assert r'[..|r'| - 1] == r;
    assert StartsGroup(r');
  }

  /** The step on the last subject of `rs` writes what `Expected` says and
      keeps the state in agreement with the reference. */
  lemma LastStepMatches(t: EventTable, undefined: string, rs: seq<Elems>, st: SeqState)
    requires |rs| > 0 && !Fails(rs[|rs| - 1])
    requires StateMatches(t, st, SequencedOf(rs[..|rs| - 1]))
    ensures var step := Step(t, undefined, st, rs[|rs| - 1]);
      step.Ok? && StateMatches(t, step.value.st, SequencedOf(rs))
      && step.value.rec == Expected(t, undefined, rs, |rs| - 1)
  {
    assert rs[..|rs|] == rs;
    if Sequenced(rs[|rs| - 1]) {
      SequencedOfLast(rs);
      SequencedStepMatches(t, undefined, st, SequencedOf(rs[..|rs| - 1]), rs[|rs| - 1]);
    } else {
      assert SequencedOf(rs) == SequencedOf(rs[..|rs| - 1]);
    }
  }

  lemma SequencedStepMatches(t: EventTable, undefined: string, st: SeqState, r: seq<Elems>, s: Elems)
    requires StateMatches(t, st, r) && !Fails(s) && Sequenced(s)
    ensures var step := Step(t, undefined, st, s);
      step.Ok? && StateMatches(t, step.value.st, r + [s])
      && step.value.rec == s[EVENT_NAME := EventAt(t, undefined, Form(s), RefIndex(r + [s]))]
  {
    AdvanceMatches(t, st, r, s);
    SequencedStep(t, undefined, st, s);
  }

  /** The step on a sequenced subject that does not raise. */
  lemma SequencedStep(t: EventTable, undefined: string, st: SeqState, s: Elems)
    requires !Fails(s) && Sequenced(s)
    ensures var st' := Advance(t, st, Sid(s), Form(s), Stamp(s));
      Step(t, undefined, st, s) == Ok(Stepped(st', s[EVENT_NAME := EventAt(t, undefined, Form(s), st'.eventIndex)]))
  {
    assert Find(s, "redcapFormName") == Some(Form(s));
    assert Find(s, "timestamp") == Some(Stamp(s));
    assert Find(s, "STUDY_ID") == Some(Sid(s));
  }

  /** Subjects of a prefix are expected to be written as in the whole. */
  lemma ExpectedOfPrefix(t: EventTable, undefined: string, rs: seq<Elems>, n: nat, i: nat)
    requires i < n <= |rs|
    ensures Expected(t, undefined, rs[..n], i) == Expected(t, undefined, rs, i)
  {
    assert rs[..n][..i + 1] == rs[..i + 1];
  }

  /** Extending the written prefix by the expected last subject gives the
      expected whole. */
  lemma ExpectedExtends(t: EventTable, undefined: string, rs: seq<Elems>, out: seq<Elems>, last: Elems)
    requires |rs| > 0 && |out| == |rs| - 1
    requires forall i :: 0 <= i < |out| ==> out[i] == Expected(t, undefined, rs[..|rs| - 1], i)
    requires last == Expected(t, undefined, rs, |rs| - 1)
    ensures forall i :: 0 <= i < |rs| ==> (out + [last])[i] == Expected(t, undefined, rs, i)
  {
    forall i | 0 <= i < |out| ensures out[i] == Expected(t, undefined, rs, i) {
      ExpectedOfPrefix(t, undefined, rs, |rs| - 1, i);
    }
  }

  /** The pass, run over all subjects without raising, writes every subject
      as `Expected` says and collects exactly the reference alerts. */
  lemma {:induction false} RunMatchesReference(t: EventTable, undefined: string, rs: seq<Elems>)
    requires forall i :: 0 <= i < |rs| ==> !Fails(rs[i])
    ensures var run := Run(t, undefined, rs);
      && !run.failed
      && StateMatches(t, run.st, SequencedOf(rs))
      && run.st.alerts == RefAlerts(t, SequencedOf(rs))
      && forall i :: 0 <= i < |rs| ==> run.out[i] == Expected(t, undefined, rs, i)
    decreases |rs|
  {
    if rs != [] {
      var pre := rs[..|rs| - 1];
      RunMatchesReference(t, undefined, pre);
      var prun := Run(t, undefined, pre);
      LastStepMatches(t, undefined, rs, prun.st);
      var step := Step(t, undefined, prun.st, rs[|rs| - 1]);
      var run := Run(t, undefined, rs);
      assert run == RunOut(step.value.st, prun.out + [step.value.rec], false);
      ExpectedExtends(t, undefined, rs, prun.out, step.value.rec);
      if SequencedOf(rs) == [] {
        assert run.st.alerts == [];
      }
    }
  }

  /** A run in which all sequenced subjects share one group reports
      nothing, however far the group overruns its event list. */
  lemma {:induction false} OneGroupNoAlerts(t: EventTable, r: seq<Elems>)
    requires forall i :: 0 < i < |r| ==> Group(r[i - 1]) == Group(r[i])
    ensures RefAlerts(t, r) == []
    decreases |r|
  {
    if |r| > 1 {
      OneGroupNoAlerts(t, r[..|r| - 1]);
    }
  }

  /** Within a group, subjects that share a timestamp share an event. */
  lemma SameTimestampSameEvent(r: seq<Elems>)
    requires |r| > 1 && Group(r[|r| - 2]) == Group(r[|r| - 1]) && Stamp(r[|r| - 2]) == Stamp(r[|r| - 1])
    ensures RefIndex(r) == RefIndex(r[..|r| - 1])
  {
  }

  /** One group in which every subject has a new timestamp: the k-th
      subject is at index k, so it takes the k-th declared event. */
  predicate OneGroupDistinctStamps(r: seq<Elems>)
  {
    forall i :: 0 < i < |r| ==> Group(r[i - 1]) == Group(r[i]) && Stamp(r[i - 1]) != Stamp(r[i])
  }

  lemma {:induction false} DistinctStampsTakeEventsInOrder(r: seq<Elems>)
    requires |r| > 0 && OneGroupDistinctStamps(r)
    ensures RefIndex(r) == |r| - 1
    ensures GroupFirst(r) == r[0]
    decreases |r|
  {
    if |r| > 1 {
      DistinctStampsTakeEventsInOrder(r[..|r| - 1]);
    }
  }

  /** Such a group of K subjects, followed by a subject of another group,
      is reported exactly when K - 1 exceeds the number L of declared
      events, that is when K >= L + 2; with K == L + 1 the last subject got
      "undefined" and nothing is reported. */
  lemma OverrunReportedAtNextGroup(t: EventTable, r: seq<Elems>, s: Elems)
    requires |r| > 0 && OneGroupDistinctStamps(r) && Group(r[|r| - 1]) != Group(s)
    ensures var maximum := |EventsOf(t, Form(r[|r| - 1]))|;
      RefAlerts(t, r + [s])
        == (if |r| - 1 > maximum then [AlertMessage(Sid(r[0]), Form(r[0]), |r| - 1, maximum)] else [])
  {
    NewGroupReference(t, r, s);
    DistinctStampsTakeEventsInOrder(r);
    OneGroupNoAlerts(t, r);
  }

  /** What the function returns; the multiple-values list is never filled. */
  datatype AlertSummary = AlertSummary(maxEventAlert: seq<string>, multipleValuesAlert: seq<string>)

  /** `lookup_table[key].append(...)` for each event of one form. */
  method AppendEvents(list: seq<string>, events: seq<string>) returns (list': seq<string>)
    ensures list' == list + events
  {
    list' := list;
    var e := 0;
    while e < |events|
      invariant 0 <= e <= |events|
      invariant list' == list + events[..e]
    {
      list' := list' + [events[e]];
      e := e + 1;
    }
    assert events[..e] == events;
  }

  /** The first loop of `update_event_name`: the `defaultdict` of form
      events, raising on a form without a name. */
  method LoadEventTable(forms: seq<FormDef>) returns (r: Result<EventTable>)
    ensures r.Ok? <==> FormsNamed(forms)
    ensures r.Ok? ==> r.value == BuildEventTable(forms)
  {
    var table: EventTable := map[];
    var f := 0;
    while f < |forms|
      invariant 0 <= f <= |forms|
      invariant forall k :: 0 <= k < f ==> "name" in forms[k].elems
      invariant table == BuildEventTable(forms[..f])
    {
      if "name" !in forms[f].elems {
        return Err("'NoneType' object has no attribute 'text'");
      }
      var key := Text(forms[f].elems, "name");
      var list := if key in table then table[key] else [];
      list := AppendEvents(list, forms[f].events);
      assert forms[..f + 1][..f] == forms[..f];
      assert forms[..f + 1][f] == forms[f];
      table := table[key := list];
      f := f + 1;
    }
    assert forms[..f] == forms;
    r := Ok(table);
  }

  /** The group bookkeeping of the loop body for a sequenced subject. */
  method AdvanceGroups(table: EventTable, lastRecordGroup: string, lastTimestampGroup: string, eventIndex: nat,
                       oldFormName: Option<string>, lastStudyId: string, lastFormName: string,
                       maxEventAlert: seq<string>, studyId: string, formName: string, timestamp: string)
    returns (lastRecordGroup': string, lastTimestampGroup': string, eventIndex': nat,
             oldFormName': Option<string>, lastStudyId': string, lastFormName': string,
             maxEventAlert': seq<string>)
    ensures SeqState(lastRecordGroup', lastTimestampGroup', eventIndex', oldFormName', lastStudyId',
                     lastFormName', maxEventAlert')
      == Advance(table, SeqState(lastRecordGroup, lastTimestampGroup, eventIndex, oldFormName, lastStudyId,
                                 lastFormName, maxEventAlert), studyId, formName, timestamp)
  {
    lastRecordGroup', lastTimestampGroup', eventIndex', lastStudyId', lastFormName', maxEventAlert' :=
      lastRecordGroup, lastTimestampGroup, eventIndex, lastStudyId, lastFormName, maxEventAlert;
    var currentRecordGroup := studyId + "_" + formName;
    var currentTimestampGroup := currentRecordGroup + "_" + timestamp;
    if lastRecordGroup' != currentRecordGroup {
      var maximum := if oldFormName.Some? then |EventsOf(table, oldFormName.value)| else 0;
      if oldFormName.Some? && eventIndex' > maximum {
        maxEventAlert' := maxEventAlert' + [AlertMessage(lastStudyId', lastFormName', eventIndex', maximum)];
      }
      lastRecordGroup' := currentRecordGroup;
      lastStudyId' := studyId;
      lastFormName' := formName;
      lastTimestampGroup' := currentTimestampGroup;
      eventIndex' := 0;
    }
    if lastTimestampGroup' != currentTimestampGroup {
      eventIndex' := eventIndex' + 1;
      lastTimestampGroup' := currentTimestampGroup;
    }
    oldFormName' := Some(formName);
  }

  /** The loop body of `update_event_name` for one subject: the error it
      raises, or the new loop variables and the subject as written. */
  method StepSubject(table: EventTable, undefined: string, lastRecordGroup: string, lastTimestampGroup: string,
                     eventIndex: nat, oldFormName: Option<string>, lastStudyId: string, lastFormName: string,
                     maxEventAlert: seq<string>, subject: Elems)
    returns (error: Option<string>, lastRecordGroup': string, lastTimestampGroup': string, eventIndex': nat,
             oldFormName': Option<string>, lastStudyId': string, lastFormName': string,
             maxEventAlert': seq<string>, subject': Elems)
    ensures var step := Step(table, undefined, SeqState(lastRecordGroup, lastTimestampGroup, eventIndex, oldFormName,
                                                        lastStudyId, lastFormName, maxEventAlert), subject);
      && (error.Some? <==> step.Err?)
      && (error.None? ==> step.value == Stepped(SeqState(lastRecordGroup', lastTimestampGroup', eventIndex',
                                                         oldFormName', lastStudyId', lastFormName', maxEventAlert'),
                                                subject'))
  {
    error := None;
    lastRecordGroup', lastTimestampGroup', eventIndex', oldFormName', lastStudyId', lastFormName', maxEventAlert' :=
      lastRecordGroup, lastTimestampGroup, eventIndex, oldFormName, lastStudyId, lastFormName, maxEventAlert;
    subject' := subject;
    var formName := Find(subject, "redcapFormName");
    var timestamp := Find(subject, "timestamp");
    var studyId := Find(subject, "STUDY_ID");
    if formName == Some("undefined") {
      if EVENT_NAME !in subject {
        return Some("'NoneType' object has no attribute 'text'"), lastRecordGroup', lastTimestampGroup',
          eventIndex', oldFormName', lastStudyId', lastFormName', maxEventAlert', subject';
      }
      subject' := subject[EVENT_NAME := undefined];
    } else if timestamp == Some("") {
      // skipped: no timestamp
    } else {
      if studyId.None? || formName.None? || timestamp.None? {
        return Some("sequence item: expected string, NoneType found"), lastRecordGroup', lastTimestampGroup',
          eventIndex', oldFormName', lastStudyId', lastFormName', maxEventAlert', subject';
      }
      var events := EventsOf(table, formName.value);
      lastRecordGroup', lastTimestampGroup', eventIndex', oldFormName', lastStudyId', lastFormName', maxEventAlert' :=
        AdvanceGroups(table, lastRecordGroup, lastTimestampGroup, eventIndex, oldFormName, lastStudyId,
                      lastFormName, maxEventAlert, studyId.value, formName.value, timestamp.value);
      if EVENT_NAME !in subject {
        return Some("'NoneType' object has no attribute 'text'"), lastRecordGroup', lastTimestampGroup',
          eventIndex', oldFormName', lastStudyId', lastFormName', maxEventAlert', subject';
      }
      if eventIndex' < |events| {
        subject' := subject[EVENT_NAME := events[eventIndex']];
      } else {
        subject' := subject[EVENT_NAME := undefined];
      }
    }
  }

  /** `update_event_name`. */
  method UpdateEventName(data: RawData, forms: seq<FormDef>, undefined: string) returns (r: Result<AlertSummary>)
    modifies data
    ensures !FormsNamed(forms) ==> r.Err? && data.subjects == old(data.subjects)
    ensures FormsNamed(forms) ==>
      var run := Run(BuildEventTable(forms), undefined, old(data.subjects));
      data.subjects == run.out && (r.Ok? <==> !run.failed)
      && (r.Ok? ==> r.value == AlertSummary(run.st.alerts, []))
  {
    var loaded := LoadEventTable(forms);
    if loaded.Err? {
      return Err(loaded.error);
    }
    var table := loaded.value;
    var lastRecordGroup := "dummy";
    var lastTimestampGroup := "dummy";
    var eventIndex: nat := 0;
    var oldFormName: Option<string> := None;
    var lastStudyId := "";
    var lastFormName := "";
    var maxEventAlert: seq<string> := [];
    ghost var subjects := data.subjects;
    var i := 0;
    while i < |data.subjects|
      invariant 0 <= i <= |subjects| == |data.subjects|
      invariant !Run(table, undefined, subjects[..i]).failed
      invariant Run(table, undefined, subjects[..i]).st
        == SeqState(lastRecordGroup, lastTimestampGroup, eventIndex, oldFormName, lastStudyId, lastFormName, maxEventAlert)
      invariant data.subjects == Run(table, undefined, subjects[..i]).out + subjects[i..]
    {
      var subject := data.subjects[i];
      assert subject == subjects[i];
      assert subjects[..i + 1][..i] == subjects[..i];
      ghost var prev := Run(table, undefined, subjects[..i]);
      var error;
      error, lastRecordGroup, lastTimestampGroup, eventIndex, oldFormName, lastStudyId, lastFormName, maxEventAlert,
        subject := StepSubject(table, undefined, lastRecordGroup, lastTimestampGroup, eventIndex, oldFormName,
                               lastStudyId, lastFormName, maxEventAlert, subject);
      if error.Some? {
        RunFailsAt(table, undefined, subjects, i);
        return Err(error.value);
      }
      ghost var st2 := SeqState(lastRecordGroup, lastTimestampGroup, eventIndex, oldFormName,
                                lastStudyId, lastFormName, maxEventAlert);
      assert Run(table, undefined, subjects[..i + 1]) == RunOut(st2, prev.out + [subject], false);
      ReplaceFirstOfRest(prev.out, subject, subjects[i..]);
      assert subjects[i..][1..] == subjects[i + 1..];
      data.subjects := data.subjects[i := subject];
      i := i + 1;
    }
    assert subjects[..i] == subjects;
    r := Ok(AlertSummary(maxEventAlert, []));
  }
}
