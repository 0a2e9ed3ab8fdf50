/** Uploading the person-form-event tree to REDCap (`generate_output`,
    `create_import_data_json`, `handle_errors_in_redcap_xml_response`).
    Every event not yet marked sent becomes one import request; an accepted
    request marks the event sent and stores the tree, a rejected one adds
    the server's error messages to the report. */
module Upload {
  import opened Common
  import opened Records
  import opened Tree

  const EVENT_NAME_KEY := "redcap_event_name"

  const BLANK_EVENT_NAME := "Expected non-blank element event/name"
  const BLANK_FIELD_NAME := "Expected non-blank element event/field/name"
  const MISSING_STUDY_ID := "Expected a valid value for study_id"
  /** The per-person log line reads `study_id_key`, which only a started
      form binds. */
  const UNBOUND_KEY := "UnboundLocalError: local variable 'study_id_key' referenced before assignment"
  /** A form name or study id without text, concatenated into a string. */
  const NO_TEXT := "TypeError: cannot concatenate None"
  /** An error response that is not a Python literal. */
  const UNREADABLE := "ValueError: malformed error response"

  // ---------------------------------------------------------------------
  // One event as an import record

  /** The record after the fields have been written into `m` in order: a
      later field overrides an earlier one of the same name. */
  function WithFields(m: map<string, string>, fs: seq<Field>): map<string, string>
    decreases |fs|
  {
    if fs == [] then m
    else WithFields(m, fs[..|fs| - 1])[fs[|fs| - 1].name := fs[|fs| - 1].value]
  }

  /** The position of the last field called `name`. */
  function LastField(fs: seq<Field>, name: string): (r: Option<nat>)
    ensures r.Some? ==> (r.value < |fs| && fs[r.value].name == name
      && forall l :: r.value < l < |fs| ==> fs[l].name != name)
    ensures r.None? ==> forall l :: 0 <= l < |fs| ==> fs[l].name != name
    decreases |fs|
  {
    if fs == [] then None
    else if fs[|fs| - 1].name == name then Some(|fs| - 1)
    else LastField(fs[..|fs| - 1], name)
  }

  lemma {:induction false} WithFieldsMeans(m: map<string, string>, fs: seq<Field>, key: string)
    ensures key in WithFields(m, fs) <==> key in m || LastField(fs, key).Some?
    ensures key in WithFields(m, fs) ==>
      WithFields(m, fs)[key] == match LastField(fs, key) case Some(l) => fs[l].value case None => m[key]
    decreases |fs|
  {
    if fs != [] {
      WithFieldsMeans(m, fs[..|fs| - 1], key);
    }
  }

  /** `create_import_data_json`'s record: the event name under
      redcap_event_name, then every field's value under its name. */
  function ImportData(importDict: map<string, string>, e: Event): map<string, string>
  {
    WithFields(importDict[EVENT_NAME_KEY := e.name], e.fields)
  }

  predicate ContainsData(fs: seq<Field>)
  {
    exists l :: 0 <= l < |fs| && fs[l].value != ""
  }

  predicate FieldsNamed(fs: seq<Field>)
  {
    forall l :: 0 <= l < |fs| ==> fs[l].name != ""
  }

  predicate FormNamed(f: Form)
  {
    forall k :: 0 <= k < |f.events| ==> FieldsNamed(f.events[k].fields)
  }

  predicate PersonNamed(p: Person)
  {
    forall j :: 0 <= j < |p.forms| ==> FormNamed(p.forms[j])
  }

  /** No field of any event of the tree has an empty name. */
  predicate TreeNamed(persons: seq<Person>)
  {
    forall i :: 0 <= i < |persons| ==> PersonNamed(persons[i])
  }

  /** `create_import_data_json`: the event's record and whether some field
      has a value. The field names checked are those of the whole tree. */
  function ImportDataJson(importDict: map<string, string>, e: Event, persons: seq<Person>)
    : Result<(map<string, string>, bool)>
  {
    if e.name == "" then Err(BLANK_EVENT_NAME)
    else if !TreeNamed(persons) then Err(BLANK_FIELD_NAME)
    else Ok((ImportData(importDict, e), ContainsData(e.fields)))
  }

  /** What the record holds: the def field, redcap_event_name and the field
      names, each with the value of the last field of that name, else the
      event name, else the study id. */
  lemma PayloadMeans(defField: string, sid: string, e: Event, key: string)
    requires e.name != ""
    ensures var payload := ImportData(map[defField := sid], e);
      (key in payload <==> key == defField || key == EVENT_NAME_KEY || exists l :: 0 <= l < |e.fields| && e.fields[l].name == key)
      && (key in payload ==> payload[key] == match LastField(e.fields, key)
            case Some(l) => e.fields[l].value
            case None => if key == EVENT_NAME_KEY then e.name else sid)
  {
    WithFieldsMeans(map[defField := sid][EVENT_NAME_KEY := e.name], e.fields, key);
  }

  // ---------------------------------------------------------------------
  // The server's answers

  /** The error response of a rejected request, as `ast.literal_eval` reads
      it: whether it has an "error" key, and its "records" list if it has
      one. */
  datatype ErrorBody = ErrorBody(hasError: bool, records: Option<seq<Elems>>)

  /** An accepted request; a `RedcapError` whose message is a literal, or
      None when it is not; any other failure of the request. */
  datatype Response = Accepted | Rejected(body: Option<ErrorBody>) | Failed(reason: string)

  predicate Complete(rec: Elems)
  {
    "record" in rec && "field_name" in rec && "value" in rec && "message" in rec
  }

  function ErrorMessage(rec: Elems): string
    requires Complete(rec)
  {
    "Error writing to record " + rec["record"] + " field " + rec["field_name"] + " Value " + rec["value"]
    + ".Error Message: " + rec["message"]
  }

  /** One message per record, up to the first record missing a key (the
      KeyError ends the loop). */
  function ErrorMessages(records: seq<Elems>): seq<string>
    decreases |records|
  {
    if records == [] || !Complete(records[0]) then []
    else [ErrorMessage(records[0])] + ErrorMessages(records[1..])
  }

  lemma {:induction false} ErrorMessagesMeans(records: seq<Elems>)
    ensures var m := ErrorMessages(records);
      |m| <= |records|
      && (forall n :: 0 <= n < |m| ==> Complete(records[n]) && m[n] == ErrorMessage(records[n]))
      && (|m| < |records| ==> !Complete(records[|m|]))
    decreases |records|
  {
    if records != [] && Complete(records[0]) {
      ErrorMessagesMeans(records[1..]);
    }
  }

  function Messages(body: ErrorBody): seq<string>
  {
    if body.hasError && body.records.Some? then ErrorMessages(body.records.value) else []
  }

  /** `handle_errors_in_redcap_xml_response`: the messages are appended to
      the report's errors and an error is always reported found. */
  method HandleErrorsInRedcapXmlResponse(body: ErrorBody, errors: seq<string>)
    returns (errors': seq<string>, foundError: bool)
    ensures errors' == errors + Messages(body) && foundError
  {
    errors' := errors;
    foundError := true;
    if !body.hasError || body.records.None? {
      // "REDCap response is in unknown format", or the KeyError on "records"
      return;
    }
    var records := body.records.value;
    var n := 0;
    while n < |records|
      invariant 0 <= n <= |records|
      invariant errors + Messages(body) == errors' + ErrorMessages(records[n..])
    {
      assert records[n..][1..] == records[n + 1..];
      if !Complete(records[n]) {
        return;
      }
      errors' := errors' + [ErrorMessage(records[n])];
      n := n + 1;
    }
  }

  // ---------------------------------------------------------------------
  // The objects the upload talks to

  /** The REDCap client: its project's record id field, and the answers of
      the server, which depend on how many requests came before and on the
      record sent. `sent` is the log of the records sent. */
  class RedcapClient {
    const defField: string
    const respond: (nat, map<string, string>) -> Response
    var sent: seq<map<string, string>>

    constructor (defField: string, respond: (nat, map<string, string>) -> Response)
      ensures this.defField == defField && this.respond == respond && sent == []
    {
      this.defField := defField;
      this.respond := respond;
      sent := [];
    }

    /** `send_data_to_redcap`, with overwrite. */
    method SendDataToRedcap(record: map<string, string>) returns (response: Response)
      modifies this
      ensures sent == old(sent) + [record] && response == respond(|old(sent)|, record)
    {
      response := respond(|sent|, record);
      sent := sent + [record];
    }
  }

  /** The data repository: every `store` saves a copy of the tree. */
  class DataRepository {
    var snapshots: seq<seq<Person>>

    constructor ()
      ensures snapshots == []
    {
      snapshots := [];
    }

    method Store(persons: seq<Person>)
      modifies this
      ensures snapshots == old(snapshots) + [persons]
    {
      snapshots := snapshots + [persons];
    }
  }

  // ---------------------------------------------------------------------
  // The run over the tree

  /** The report: the errors, the number of persons visited, and the number
      of accepted events with data per form key, overall and per study id. */
  datatype Report = Report(errors: seq<string>, totalSubjects: nat,
                           formDetails: map<string, nat>, subjectDetails: map<string, map<string, nat>>)

  /** The event at a position, and the answer its request got. */
  datatype Request = Request(person: nat, form: nat, event: nat, response: Response)

  /** The tree being uploaded, the client's record id field and answers, and
      whether blank events end their form. */
  datatype Setup = Setup(orig: seq<Person>, defField: string, respond: (nat, map<string, string>) -> Response,
                         skipBlanks: bool)

  /** The state of the upload: the tree, the repository's snapshots, the
      client's log, the report, the requests made (a record of the run, not
      kept by the program) and the exception that ended the run, if any. */
  datatype Run = Run(tree: seq<Person>, stores: seq<seq<Person>>, sent: seq<map<string, string>>,
                     report: Report, requests: seq<Request>, failure: Option<string>)

  function FormKey(formName: string): string
  {
    "Total_" + formName + "_Forms"
  }

  predicate ValidEvent(persons: seq<Person>, i: nat, j: nat, k: nat)
  {
    i < |persons| && j < |persons[i].forms| && k < |persons[i].forms[j].events|
  }

  /** The event's status becomes "sent" (the element is added when absent). */
  function MarkSent(persons: seq<Person>, i: nat, j: nat, k: nat): seq<Person>
  {
    if ValidEvent(persons, i, j, k) then
      var p := persons[i];
      var f := p.forms[j];
      persons[i := p.(forms := p.forms[j := f.(events := f.events[k := f.events[k].(status := Some(SENT))])])]
    else persons
  }

  function Get(m: map<string, nat>, key: string): nat
  {
    if key in m then m[key] else 0
  }

  function Subject(r: Report, sid: string): map<string, nat>
  {
    if sid in r.subjectDetails then r.subjectDetails[sid] else map[]
  }

  /** One more accepted event with data for the form key, overall and for
      the study id. */
  function Count(r: Report, sid: string, key: string): Report
  {
    var subject := Subject(r, sid);
    r.(formDetails := r.formDetails[key := Get(r.formDetails, key) + 1],
       subjectDetails := r.subjectDetails[sid := subject[key := Get(subject, key) + 1]])
  }

  /** Sending the record of the event at (i, j, k) and handling the answer. */
  function Deliver(st: Run, i: nat, j: nat, k: nat, sid: string, key: string, record: map<string, string>,
                   containsData: bool, response: Response): Run
  {
    var st1 := st.(sent := st.sent + [record], requests := st.requests + [Request(i, j, k, response)]);
    match response
    case Failed(reason) => st1.(failure := Some(reason))
    case Rejected(None) => st1.(failure := Some(UNREADABLE))
    case Rejected(Some(body)) => st1.(report := st1.report.(errors := st1.report.errors + Messages(body)))
    case Accepted =>
      var tree := MarkSent(st.tree, i, j, k);
      var st2 := st1.(tree := tree, stores := st.stores + [tree]);
      if containsData then st2.(report := Count(st2.report, sid, key)) else st2
  }

  /** One event of the events loop; the flag says the loop breaks. */
  function EventStep(u: Setup, st: Run, i: nat, j: nat, k: nat): (Run, bool)
    requires ValidEvent(u.orig, i, j, k) && u.orig[i].studyId.Some?
  {
    var e := u.orig[i].forms[j].events[k];
    var sid := u.orig[i].studyId.value;
    if e.status == Some(SENT) then (st, false)
    else
      match ImportDataJson(map[u.defField := sid], e, u.orig)
      case Err(msg) => (st.(failure := Some(msg)), false)
      case Ok((record, containsData)) =>
        if u.skipBlanks && !containsData then (st, true)
        else
          var response := u.respond(|st.sent|, record);
          (Deliver(st, i, j, k, sid, FormKey(u.orig[i].forms[j].name), record, containsData, response), false)
  }

  /** The events loop of form j of person i, from event k on. */
  function EventsFrom(u: Setup, st: Run, i: nat, j: nat, k: nat): Run
    requires i < |u.orig| && j < |u.orig[i].forms| && k <= |u.orig[i].forms[j].events| && u.orig[i].studyId.Some?
    decreases |u.orig[i].forms[j].events| - k
  {
    if st.failure.Some? || k == |u.orig[i].forms[j].events| then st
    else
      var step := EventStep(u, st, i, j, k);
      if step.1 then step.0 else EventsFrom(u, step.0, i, j, k + 1)
  }

  /** The start of form j: the counters of its key exist, at 0 unless set. */
  function FormStart(u: Setup, st: Run, i: nat, j: nat): Run
    requires i < |u.orig| && j < |u.orig[i].forms| && u.orig[i].studyId.Some?
  {
    var name := u.orig[i].forms[j].name;
    var sid := u.orig[i].studyId.value;
    if name == "" then st.(failure := Some(NO_TEXT))
    else
      var key := FormKey(name);
      var r := st.report;
      var subject := Subject(r, sid);
      var r' := r.(subjectDetails := r.subjectDetails[sid := if key in subject then subject else subject[key := 0]],
                   formDetails := if key in r.formDetails then r.formDetails else r.formDetails[key := 0]);
      st.(report := r', failure := if sid == "" then Some(NO_TEXT) else None)
  }

  /** The forms loop of person i, from form j on. */
  function FormsFrom(u: Setup, st: Run, i: nat, j: nat): Run
    requires i < |u.orig| && j <= |u.orig[i].forms| && u.orig[i].studyId.Some?
    decreases |u.orig[i].forms| - j
  {
    if st.failure.Some? || j == |u.orig[i].forms| then st
    else FormsFrom(u, EventsFrom(u, FormStart(u, st, i, j), i, j, 0), i, j + 1)
  }

  /** One person: counted, then its forms sent. */
  function PersonStep(u: Setup, st: Run, i: nat): Run
    requires i < |u.orig|
  {
    var st1 := st.(report := st.report.(totalSubjects := st.report.totalSubjects + 1));
    if u.orig[i].studyId.None? then st1.(failure := Some(MISSING_STUDY_ID))
    else FormsFrom(u, st1, i, 0)
  }

  /** The persons loop, from person i on. */
  function PersonsFrom(u: Setup, st: Run, i: nat): Run
    requires i <= |u.orig|
    decreases |u.orig| - i
  {
    if st.failure.Some? || i == |u.orig| then st
    else PersonsFrom(u, PersonStep(u, st, i), i + 1)
  }

  function Start(u: Setup, stores: seq<seq<Person>>, sent: seq<map<string, string>>): Run
  {
    Run(u.orig, stores, sent, Report([], 0, map[], map[]), [], None)
  }

  /** A first person with a study id and no forms. */
  predicate FormlessFirst(orig: seq<Person>)
  {
    |orig| > 0 && orig[0].studyId.Some? && orig[0].forms == []
  }

  /** `generate_output` from a repository holding `stores` and a client that
      has sent `sent`. After each person's forms, the timing log line reads
      `study_id_key`, which only a started form binds. Every person after
      the first is reached only once the first has started a form or
      raised, so the key is unbound exactly when the first person has a
      study id and no forms: that person is counted and the run raises. */
  function Output(u: Setup, stores: seq<seq<Person>>, sent: seq<map<string, string>>): Run
  {
    var start := Start(u, stores, sent);
    if FormlessFirst(u.orig) then start.(report := start.report.(totalSubjects := 1), failure := Some(UNBOUND_KEY))
    else PersonsFrom(u, start, 0)
  }

  // ---------------------------------------------------------------------
  // The program

  predicate Agrees(st: Run, tree: PersonFormEventTree, repo: DataRepository, client: RedcapClient, report: Report)
    reads tree, repo, client
  {
    tree.persons == st.tree && repo.snapshots == st.stores && client.sent == st.sent && report == st.report
  }

  function SetupOf(client: RedcapClient, orig: seq<Person>, skipBlanks: bool): Setup
  {
    Setup(orig, client.defField, client.respond, skipBlanks)
  }

  method CheckFields(fs: seq<Field>) returns (b: bool)
    ensures b == FieldsNamed(fs)
  {
    var l := 0;
    while l < |fs|
      invariant 0 <= l <= |fs| && forall l' :: 0 <= l' < l ==> fs[l'].name != ""
    {
      if fs[l].name == "" {
        return false;
      }
      l := l + 1;
    }
    return true;
  }

  method CheckForm(f: Form) returns (b: bool)
    ensures b == FormNamed(f)
  {
    var k := 0;
    while k < |f.events|
      invariant 0 <= k <= |f.events| && forall k' :: 0 <= k' < k ==> FieldsNamed(f.events[k'].fields)
    {
      var named := CheckFields(f.events[k].fields);
      if !named {
        return false;
      }
      k := k + 1;
    }
    return true;
  }

  method CheckPerson(p: Person) returns (b: bool)
    ensures b == PersonNamed(p)
  {
    var j := 0;
    while j < |p.forms|
      invariant 0 <= j <= |p.forms| && forall j' :: 0 <= j' < j ==> FormNamed(p.forms[j'])
    {
      var named := CheckForm(p.forms[j]);
      if !named {
        return false;
      }
      j := j + 1;
    }
    return true;
  }

  /** The check of `//event/field/name`: every field name of the tree. */
  method CheckTree(persons: seq<Person>) returns (b: bool)
    ensures b == TreeNamed(persons)
  {
    var i := 0;
    while i < |persons|
      invariant 0 <= i <= |persons| && forall i' :: 0 <= i' < i ==> PersonNamed(persons[i'])
    {
      var named := CheckPerson(persons[i]);
      if !named {
        return false;
      }
      i := i + 1;
    }
    return true;
  }

  /** `create_import_data_json`, loop over the event's fields. */
  method CreateImportDataJson(importDict: map<string, string>, e: Event, persons: seq<Person>)
    returns (r: Result<(map<string, string>, bool)>)
    ensures r == ImportDataJson(importDict, e, persons)
  {
    if e.name == "" {
      return Err(BLANK_EVENT_NAME);
    }
    var named := CheckTree(persons);
    if !named {
      return Err(BLANK_FIELD_NAME);
    }
    var record := importDict[EVENT_NAME_KEY := e.name];
    var containsData := false;
    var l := 0;
    while l < |e.fields|
      invariant 0 <= l <= |e.fields|
      invariant record == WithFields(importDict[EVENT_NAME_KEY := e.name], e.fields[..l])
      invariant containsData <==> exists l' :: 0 <= l' < l && e.fields[l'].value != ""
    {
      assert e.fields[..l + 1][..l] == e.fields[..l];
      var val := e.fields[l].value;
      record := record[e.fields[l].name := val];
      if val != "" && !containsData {
        containsData := true;
      }
      l := l + 1;
    }
    assert e.fields[..l] == e.fields;
    r := Ok((record, containsData));
  }

  /** One event: a sent event is skipped; otherwise its record is built and,
      unless blank events are skipped and this one is blank, sent. */
  method SendEvent(tree: PersonFormEventTree, client: RedcapClient, repo: DataRepository, orig: seq<Person>,
                   skipBlanks: bool, i: nat, j: nat, k: nat, report: Report, ghost st: Run)
    returns (report': Report, failure: Option<string>, stop: bool, ghost st': Run)
    requires ValidEvent(orig, i, j, k) && orig[i].studyId.Some?
    requires Agrees(st, tree, repo, client, report) && st.failure.None?
    modifies tree, repo, client
    ensures (st', stop) == EventStep(SetupOf(client, orig, skipBlanks), st, i, j, k)
    ensures Agrees(st', tree, repo, client, report') && failure == st'.failure
  {
    ghost var u := SetupOf(client, orig, skipBlanks);
    st' := EventStep(u, st, i, j, k).0;
    report' := report;
    failure := None;
    stop := false;
    var e := orig[i].forms[j].events[k];
    var sid := orig[i].studyId.value;
    if e.status == Some(SENT) {
      return;
    }
    var imported := CreateImportDataJson(map[client.defField := sid], e, orig);
    if imported.Err? {
      failure := Some(imported.error);
      return;
    }
    var record := imported.value.0;
    var containsData := imported.value.1;
    if skipBlanks && !containsData {
      stop := true;
      return;
    }
    var response := client.SendDataToRedcap(record);
    var foundError := false;
    match response {
      case Failed(reason) =>
        failure := Some(reason);
      case Rejected(None) =>
        failure := Some(UNREADABLE);
      case Rejected(Some(body)) =>
        var errors;
        errors, foundError := HandleErrorsInRedcapXmlResponse(body, report.errors);
        report' := report.(errors := errors);
      case Accepted =>
        tree.persons := MarkSent(tree.persons, i, j, k);
        repo.Store(tree.persons);
    }
    if failure.None? && containsData && !foundError {
      report' := Count(report', sid, FormKey(orig[i].forms[j].name));
    }
  }

  /** The events loop of one form. */
  method SendForm(tree: PersonFormEventTree, client: RedcapClient, repo: DataRepository, orig: seq<Person>,
                  skipBlanks: bool, i: nat, j: nat, report: Report, ghost st: Run)
    returns (report': Report, failure: Option<string>, ghost st': Run)
    requires i < |orig| && j < |orig[i].forms| && orig[i].studyId.Some?
    requires Agrees(st, tree, repo, client, report) && st.failure.None?
    modifies tree, repo, client
    ensures st' == EventsFrom(SetupOf(client, orig, skipBlanks), st, i, j, 0)
    ensures Agrees(st', tree, repo, client, report') && failure == st'.failure
  {
    ghost var u := SetupOf(client, orig, skipBlanks);
    var events := orig[i].forms[j].events;
    report' := report;
    failure := None;
    st' := st;
    var k := 0;
    while k < |events|
      invariant 0 <= k <= |events|
      invariant EventsFrom(u, st', i, j, k) == EventsFrom(u, st, i, j, 0)
      invariant Agrees(st', tree, repo, client, report') && st'.failure.None? && failure.None?
    {
      var stop;
      report', failure, stop, st' := SendEvent(tree, client, repo, orig, skipBlanks, i, j, k, report', st');
      if stop || failure.Some? {
        return;
      }
      k := k + 1;
    }
  }

  /** The start of a form, as `FormStart`. */
  method StartForm(orig: seq<Person>, i: nat, j: nat, report: Report, ghost u: Setup, ghost st: Run)
    returns (report': Report, failure: Option<string>, ghost st': Run)
    requires u.orig == orig && i < |orig| && j < |orig[i].forms| && orig[i].studyId.Some?
    requires report == st.report && st.failure.None?
    ensures st' == FormStart(u, st, i, j) && report' == st'.report && failure == st'.failure
    ensures st'.tree == st.tree && st'.stores == st.stores && st'.sent == st.sent
  {
    st' := FormStart(u, st, i, j);
    var name := orig[i].forms[j].name;
    var sid := orig[i].studyId.value;
    report' := report;
    if name == "" {
      return report', Some(NO_TEXT), st';
    }
    var key := FormKey(name);
    var subject := Subject(report, sid);
    if key !in subject {
      subject := subject[key := 0];
    }
    report' := report'.(subjectDetails := report'.subjectDetails[sid := subject]);
    if key !in report'.formDetails {
      report' := report'.(formDetails := report'.formDetails[key := 0]);
    }
    failure := if sid == "" then Some(NO_TEXT) else None;
  }

  /** The forms loop of one person. */
  method SendPerson(tree: PersonFormEventTree, client: RedcapClient, repo: DataRepository, orig: seq<Person>,
                    skipBlanks: bool, i: nat, report: Report, ghost st: Run)
    returns (report': Report, failure: Option<string>, ghost st': Run)
    requires i < |orig| && orig[i].studyId.Some?
    requires Agrees(st, tree, repo, client, report) && st.failure.None?
    modifies tree, repo, client
    ensures st' == FormsFrom(SetupOf(client, orig, skipBlanks), st, i, 0)
    ensures Agrees(st', tree, repo, client, report') && failure == st'.failure
  {
    ghost var u := SetupOf(client, orig, skipBlanks);
    var forms := orig[i].forms;
    report' := report;
    failure := None;
    st' := st;
    var j := 0;
    while j < |forms|
      invariant 0 <= j <= |forms|
      invariant FormsFrom(u, st', i, j) == FormsFrom(u, st, i, 0)
      invariant Agrees(st', tree, repo, client, report') && st'.failure.None? && failure.None?
    {
      ghost var before := st';
      report', failure, st' := StartForm(orig, i, j, report', u, st');
      if failure.Some? {
        return;
      }
      report', failure, st' := SendForm(tree, client, repo, orig, skipBlanks, i, j, report', st');
      assert st' == EventsFrom(u, FormStart(u, before, i, j), i, j, 0);
      if failure.Some? {
        return;
      }
      j := j + 1;
    }
  }

  /** `generate_output`: every person, form and event of the tree in order;
      the report on success, the exception otherwise. The tree, the
      repository and the client's log keep what happened before an
      exception. */
  method GenerateOutput(tree: PersonFormEventTree, client: RedcapClient, repo: DataRepository, skipBlanks: bool)
    returns (r: Result<Report>)
    modifies tree, repo, client
    ensures var run := Output(SetupOf(client, old(tree.persons), skipBlanks), old(repo.snapshots), old(client.sent));
      tree.persons == run.tree && repo.snapshots == run.stores && client.sent == run.sent
      && r == if run.failure.None? then Ok(run.report) else Err(run.failure.value)
  {
    // The lists the program walks are taken from the tree before any
    // status is written; a status written later belongs to an event already
    // visited.
    var orig := tree.persons;
    ghost var u := SetupOf(client, orig, skipBlanks);
    var report := Report([], 0, map[], map[]);
    ghost var st := Start(u, repo.snapshots, client.sent);
    var studyIdKey: Option<string> := None;
    var i := 0;
    while i < |orig|
      invariant 0 <= i <= |orig|
      invariant !FormlessFirst(orig) ==> PersonsFrom(u, st, i) == Output(u, old(repo.snapshots), old(client.sent))
      invariant FormlessFirst(orig) ==> i == 0 && st == Start(u, old(repo.snapshots), old(client.sent))
      invariant Agrees(st, tree, repo, client, report) && st.failure.None?
      invariant studyIdKey.None? <==> i == 0
    {
      report := report.(totalSubjects := report.totalSubjects + 1);
      st := st.(report := report);
      if orig[i].studyId.None? {
        return Err(MISSING_STUDY_ID);
      }
      var failure;
      report, failure, st := SendPerson(tree, client, repo, orig, skipBlanks, i, report, st);
      if failure.Some? {
        return Err(failure.value);
      }
      if |orig[i].forms| > 0 {
        studyIdKey := Some(orig[i].studyId.value);
      }
      if studyIdKey.None? {
        assert FormlessFirst(orig);
        return Err(UNBOUND_KEY);
      }
      i := i + 1;
    }
    r := Ok(report);
  }
}
