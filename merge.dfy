/** `copy_data_to_person_form_event_tree`: every subject's result, date and
    units are written into the matching event of the person-form-event
    tree, followed by the form's completion and imported markers when
    something was written. */
module Merge {
  import opened Common
  import opened Records
  import opened Tree

  /** The first field of a given name: the field the XPath `[0]` picks. */
  function FirstField(fields: seq<Field>, name: string): (r: Option<nat>)
    ensures r.Some? ==> r.value < |fields| && fields[r.value].name == name
    ensures r.Some? ==> forall i :: 0 <= i < r.value ==> fields[i].name != name
    ensures r.None? ==> forall i :: 0 <= i < |fields| ==> fields[i].name != name
  {
    FirstIndex(FieldNames(fields), name)
  }

  /** The person and form the merge writes into: the first person with the
      study id that has a form of that name, and its first such form. */
  function Locate(persons: seq<Person>, studyId: string, formName: string): (r: Option<(nat, nat)>)
    ensures r.Some? ==> (r.value.0 < |persons| && r.value.1 < |persons[r.value.0].forms|
      && persons[r.value.0].studyId == Some(studyId) && persons[r.value.0].forms[r.value.1].name == formName)
    decreases |persons|
  {
    if persons == [] then None
    else
      var pre := Locate(persons[..|persons| - 1], studyId, formName);
      var p := persons[|persons| - 1];
      if pre.Some? then pre
      else if p.studyId == Some(studyId) && FirstIndex(FormNames(p.forms), formName).Some? then
        Some((|persons| - 1, FirstIndex(FormNames(p.forms), formName).value))
      else None
  }

  /** The tree has no form of that name for any person with that study id
      exactly when there is nothing to locate. */
  lemma {:induction false} LocateNoneMeans(persons: seq<Person>, studyId: string, formName: string)
    ensures Locate(persons, studyId, formName).None?
      <==> forall i, j :: 0 <= i < |persons| && 0 <= j < |persons[i].forms| && persons[i].studyId == Some(studyId)
             ==> persons[i].forms[j].name != formName
    decreases |persons|
  {
    if persons != [] {
      var pre := persons[..|persons| - 1];
      var p := persons[|persons| - 1];
      LocateNoneMeans(pre, studyId, formName);
      assert forall i :: 0 <= i < |pre| ==> pre[i] == persons[i];
    }
  }

  /** The event at (i, j, k) with its fields replaced. */
  function SetFields(persons: seq<Person>, i: nat, j: nat, k: nat, fields: seq<Field>): (r: seq<Person>)
    requires i < |persons| && j < |persons[i].forms| && k < |persons[i].forms[j].events|
    ensures |r| == |persons|
  {
    var p := persons[i];
    var f := p.forms[j];
    var e := f.events[k];
    persons[i := p.(forms := p.forms[j := f.(events := f.events[k := e.(fields := fields)])])]
  }

  /** The three anchors a subject carries: the field names and the values
      to write into them. */
  datatype Anchors = Anchors(valueName: string, value: string, dateName: string, date: string,
                             unitsName: string, units: string)

  /** The value a field of this name receives: the result first, then the
      date, then the units. */
  function Anchored(name: string, a: Anchors): Option<string>
  {
    if name == a.valueName then Some(a.value)
    else if name == a.dateName then Some(a.date)
    else if name == a.unitsName then Some(a.units)
    else None
  }

  /** The loop over the event's fields: the fields with an anchor's name,
      and the concatenation of the values written. */
  datatype Written = Written(fields: seq<Field>, values: string)

  function WriteAnchors(fields: seq<Field>, a: Anchors): (r: Written)
    ensures |r.fields| == |fields|
    decreases |fields|
  {
    if fields == [] then Written([], "")
    else
      var pre := WriteAnchors(fields[..|fields| - 1], a);
      var f := fields[|fields| - 1];
      match Anchored(f.name, a)
      case None => Written(pre.fields + [f], pre.values)
      case Some(v) => Written(pre.fields + [Field(f.name, v)], pre.values + v)
  }

  /** Only the fields named by an anchor are written, each with its anchor's
      value. */
  lemma {:induction false} WriteAnchorsFields(fields: seq<Field>, a: Anchors)
    ensures var w := WriteAnchors(fields, a);
      && SameFieldNames(fields, w.fields)
      && (forall l :: 0 <= l < |fields| ==>
            w.fields[l].value == (match Anchored(fields[l].name, a) case None => fields[l].value case Some(v) => v))
    decreases |fields|
  {
    if fields != [] {
      var pre := fields[..|fields| - 1];
      WriteAnchorsFields(pre, a);
      assert forall l :: 0 <= l < |pre| ==> pre[l] == fields[l];
    }
  }

  /** Something non-empty was written exactly when some field named by an
      anchor received a non-empty value. */
  lemma {:induction false} WriteAnchorsNonEmpty(fields: seq<Field>, a: Anchors)
    ensures WriteAnchors(fields, a).values != "" <==>
      exists l :: 0 <= l < |fields| && Anchored(fields[l].name, a).Some? && Anchored(fields[l].name, a).value != ""
    decreases |fields|
  {
    if fields != [] {
      var pre := fields[..|fields| - 1];
      WriteAnchorsNonEmpty(pre, a);
      assert forall l :: 0 <= l < |pre| ==> pre[l] == fields[l];
      var w := WriteAnchors(fields, a);
      var f := fields[|fields| - 1];
      if Anchored(f.name, a).Some? && Anchored(f.name, a).value != "" {
        assert w.values != "" by {
          assert |w.values| >= |Anchored(f.name, a).value|;
        }
      }
    }
  }

  /** The first `tag` child of the forms of that name in the form-events
      document. */
  function FormValue(forms: seq<FormDef>, formName: string, tag: string): Option<string>
    decreases |forms|
  {
    if forms == [] then None
    else if FormName(forms[0]) == formName && tag in forms[0].elems then Some(forms[0].elems[tag])
    else FormValue(forms[1..], formName, tag)
  }

  /** What merging one subject does: the new tree, and the error when the
      source raises (the writes made before it raised are kept). */
  datatype MergeOut = MergeOut(persons: seq<Person>, error: Option<string>)

  /** The subject's children the merge needs, in the order the source checks
      them; the first missing one raises. */
  const REQUIRED := ["redcapFieldNameValue", "RESULT", "formDateField", "timestamp",
                     "redcapFieldNameUnits", "REFERENCE_UNIT"]

  predicate HasRequired(s: Elems)
  {
    forall t :: t in REQUIRED ==> t in s
  }

  function SubjectAnchors(s: Elems): Anchors
  {
    Anchors(Text(s, "redcapFieldNameValue"), Text(s, "RESULT"), Text(s, "formDateField"), Text(s, "timestamp"),
            Text(s, "redcapFieldNameUnits"), Text(s, "REFERENCE_UNIT"))
  }

  /** A subject the merge skips: no event name, or the "undefined" form. */
  predicate Skipped(s: Elems)
  {
    "eventName" in s && (s["eventName"] == ""
      || ("STUDY_ID" in s && "redcapFormName" in s && s["redcapFormName"] == UNDEFINED))
  }

  /** What happens to the target event's fields: the fields as written,
      and the error when the source raised after those writes. */
  datatype EventWrite = EventWrite(fields: seq<Field>, error: Option<string>)

  /** The markers written after the anchors, to the event's fields `fs`
      where `cl` is the first field named by formCompletedFieldName. An
      error keeps the writes made before it: the completion marker, and
      the empty imported value the assertion rejects. */
  function WriteMarkers(fs: seq<Field>, s: Elems, forms: seq<FormDef>, formName: string): (r: EventWrite)
  {
    if "formCompletedFieldName" !in s then EventWrite(fs, Some("'NoneType' object has no attribute 'text'"))
    else
      var completedName := s["formCompletedFieldName"];
      var cl := FirstField(fs, completedName);
      var completed := FormValue(forms, formName, "formCompletedFieldValue");
      if cl.None? || completed.None? then EventWrite(fs, Some("list index out of range"))
      else
        var fs2 := fs[cl.value := Field(completedName, completed.value)];
        var importedName := Text(s, "formImportedFieldName");
        var il := FirstField(fs2, importedName);
        var imported := FormValue(forms, formName, "formImportedFieldValue");
        if il.Some? && imported.None? then EventWrite(fs2, Some(IMPORTED_NOT_SET))
        else
          var fs3 := if il.Some? then fs2[il.value := Field(importedName, imported.value)] else fs2;
          if il.Some? && imported.value == "" then EventWrite(fs3, Some(IMPORTED_NOT_SET))
          else if fs3[cl.value].value == "" then
            EventWrite(fs3, Some("formCompletedField not set properly in the person form event tree"))
          else EventWrite(fs3, None)
  }

  const IMPORTED_NOT_SET := "formImportedField not set properly in the person form event tree"

  function WriteEvent(fields: seq<Field>, s: Elems, forms: seq<FormDef>, formName: string): EventWrite
  {
    var w := WriteAnchors(fields, SubjectAnchors(s));
    if w.values == "" then EventWrite(w.fields, None)
    else WriteMarkers(w.fields, s, forms, formName)
  }

  /** One subject of the loop. */
  function MergeSubject(persons: seq<Person>, s: Elems, forms: seq<FormDef>): (r: MergeOut)
    ensures |r.persons| == |persons|
  {
    if "eventName" !in s then MergeOut(persons, Some("'NoneType' object has no attribute 'text'"))
    else if s["eventName"] == "" then MergeOut(persons, None)
    else if "STUDY_ID" !in s then MergeOut(persons, Some("Missing required field STUDY_ID"))
    else if "redcapFormName" !in s then MergeOut(persons, Some("Missing required field redcapFormName"))
    else if s["redcapFormName"] == UNDEFINED then MergeOut(persons, None)
    else if !HasRequired(s) then MergeOut(persons, Some("Missing required field"))
    else MergeChecked(persons, s, forms)
  }

  /** The rest of one subject, once its required children are present. */
  function MergeChecked(persons: seq<Person>, s: Elems, forms: seq<FormDef>): (r: MergeOut)
    requires "eventName" in s && "STUDY_ID" in s && "redcapFormName" in s && HasRequired(s)
    ensures |r.persons| == |persons|
  {
    if s["STUDY_ID"] == "" || s["redcapFormName"] == "" then
      MergeOut(persons, Some("cannot concatenate 'str' and 'NoneType' objects"))
    else
      var studyId := s["STUDY_ID"];
      var formName := s["redcapFormName"];
      var located := Locate(persons, studyId, formName);
      if located.None? then
        MergeOut(persons, Some("Form named " + formName + " Not Found in person form event tree for subject " + studyId))
      else if s["timestamp"] == "" || s["redcapFieldNameValue"] == "" || s["redcapFieldNameUnits"] == "" then
        MergeOut(persons, Some("cannot concatenate 'str' and 'NoneType' objects"))
      else
        var (i, j) := located.value;
        var k := FirstIndex(EventNames(persons[i].forms[j].events), s["eventName"]);
        if k.None? then MergeOut(persons, None)
        else
          var e := WriteEvent(persons[i].forms[j].events[k.value].fields, s, forms, formName);
          MergeOut(SetFields(persons, i, j, k.value, e.fields), e.error)
  }

  /** The subjects in order; the first error stops the loop. */
  function MergeAll(persons: seq<Person>, subjects: seq<Elems>, forms: seq<FormDef>): (r: MergeOut)
    ensures |r.persons| == |persons|
    decreases |subjects|
  {
    if subjects == [] then MergeOut(persons, None)
    else
      var pre := MergeAll(persons, subjects[..|subjects| - 1], forms);
      if pre.error.Some? then pre
      else MergeSubject(pre.persons, subjects[|subjects| - 1], forms)
  }

  /** Replacing an event's fields by fields with the same names keeps the
      tree's shape, and changes no other event. */
  lemma SetFieldsShape(persons: seq<Person>, i: nat, j: nat, k: nat, fields: seq<Field>)
    requires i < |persons| && j < |persons[i].forms| && k < |persons[i].forms[j].events|
    requires SameFieldNames(persons[i].forms[j].events[k].fields, fields)
    ensures SameShape(persons, SetFields(persons, i, j, k, fields))
  {
    var r := SetFields(persons, i, j, k, fields);
    assert SamePersonShape(persons[i], r[i]) by {
      assert SameFormShape(persons[i].forms[j], r[i].forms[j]);
    }
    forall i' | 0 <= i' < |persons| ensures SamePersonShape(persons[i'], r[i'])  {
      if i' != i {
        assert r[i'] == persons[i'];
      }
    }
  }

  lemma SetFieldsElsewhere(persons: seq<Person>, i: nat, j: nat, k: nat, fields: seq<Field>, i': nat, j': nat, k': nat)
    requires i < |persons| && j < |persons[i].forms| && k < |persons[i].forms[j].events|
    requires i' < |persons| && j' < |persons[i'].forms| && k' < |persons[i'].forms[j'].events|
    ensures var r := SetFields(persons, i, j, k, fields);
      j' < |r[i'].forms| && k' < |r[i'].forms[j'].events|
      && r[i'].forms[j'].events[k'].fields == (if (i', j', k') == (i, j, k) then fields else persons[i'].forms[j'].events[k'].fields)
  {
  }

  lemma SameShapeReflexive(persons: seq<Person>)
    ensures SameShape(persons, persons)
  {
  }

  /** The target event's fields keep their names; a value that changes
      belongs to a field named by an anchor, or by a marker once some anchor
      received a non-empty value. */
  lemma WriteEventChanges(fields: seq<Field>, s: Elems, forms: seq<FormDef>, formName: string)
    ensures var e := WriteEvent(fields, s, forms, formName);
      && SameFieldNames(fields, e.fields)
      && (forall l :: 0 <= l < |fields| && e.fields[l].value != fields[l].value ==>
            Anchored(fields[l].name, SubjectAnchors(s)).Some?
            || (WriteAnchors(fields, SubjectAnchors(s)).values != ""
                && (Find(s, "formCompletedFieldName") == Some(fields[l].name)
                    || fields[l].name == Text(s, "formImportedFieldName"))))
  {
    var w := WriteAnchors(fields, SubjectAnchors(s));
    WriteAnchorsFields(fields, SubjectAnchors(s));
    if w.values != "" {
      WriteMarkersChanges(w.fields, s, forms, formName);
    }
  }

  /** The markers rename nothing and write only the completion and imported
      fields. */
  lemma WriteMarkersChanges(fs: seq<Field>, s: Elems, forms: seq<FormDef>, formName: string)
    ensures var m := WriteMarkers(fs, s, forms, formName).fields;
      && SameFieldNames(fs, m)
      && forall l :: 0 <= l < |fs| && m[l].value != fs[l].value ==>
           Find(s, "formCompletedFieldName") == Some(fs[l].name) || fs[l].name == Text(s, "formImportedFieldName")
  {
    if "formCompletedFieldName" in s {
      var completedName := s["formCompletedFieldName"];
      var cl := FirstField(fs, completedName);
      var completed := FormValue(forms, formName, "formCompletedFieldValue");
      if cl.Some? && completed.Some? {
        var fs2 := fs[cl.value := Field(completedName, completed.value)];
        assert SameFieldNames(fs, fs2);
      }
    }
  }

  /** The completion marker, once its field and the form's value are found,
      is kept whatever is raised afterwards, unless the imported marker
      shares its field name and overwrote it. */
  lemma WriteMarkersKeepsCompletion(fs: seq<Field>, s: Elems, forms: seq<FormDef>, formName: string)
    requires "formCompletedFieldName" in s && FirstField(fs, s["formCompletedFieldName"]).Some?
    requires FormValue(forms, formName, "formCompletedFieldValue").Some?
    requires Text(s, "formImportedFieldName") != s["formCompletedFieldName"]
    ensures WriteMarkers(fs, s, forms, formName).fields[FirstField(fs, s["formCompletedFieldName"]).value]
      == Field(s["formCompletedFieldName"], FormValue(forms, formName, "formCompletedFieldValue").value)
  {
    var completedName := s["formCompletedFieldName"];
    var cl := FirstField(fs, completedName).value;
    var fs2 := fs[cl := Field(completedName, FormValue(forms, formName, "formCompletedFieldValue").value)];
    var il := FirstField(fs2, Text(s, "formImportedFieldName"));
    if il.Some? {
      assert il.value != cl;
    }
  }

  /** Markers written without error: the first completion field carries a
      non-empty value and the first imported field, if any, the form's
      non-empty imported value. */
  lemma WriteMarkersMarks(fs: seq<Field>, s: Elems, forms: seq<FormDef>, formName: string)
    requires WriteMarkers(fs, s, forms, formName).error.None?
    ensures "formCompletedFieldName" in s
    ensures var m := WriteMarkers(fs, s, forms, formName).fields;
      var cl := FirstField(m, s["formCompletedFieldName"]);
      var il := FirstField(m, Text(s, "formImportedFieldName"));
      && cl.Some? && m[cl.value].value != ""
      && (il.Some? ==> FormValue(forms, formName, "formImportedFieldValue") == Some(m[il.value].value)
                       && m[il.value].value != "")
  {
    var m := WriteMarkers(fs, s, forms, formName).fields;
    var completedName := s["formCompletedFieldName"];
    var cl := FirstField(fs, completedName).value;
    var fs2 := fs[cl := Field(completedName, FormValue(forms, formName, "formCompletedFieldValue").value)];
    assert SameFieldNames(fs, fs2);
    var importedName := Text(s, "formImportedFieldName");
    FirstFieldSameNames(fs, fs2, completedName);
    assert SameFieldNames(fs2, m);
    FirstFieldSameNames(fs2, m, completedName);
    FirstFieldSameNames(fs2, m, importedName);
  }

  /** When some anchor received a non-empty value and no error was raised,
      the first completion field carries a non-empty value and the first
      imported field, if any, the form's non-empty imported value. */
  lemma WriteEventMarkers(fields: seq<Field>, s: Elems, forms: seq<FormDef>, formName: string)
    requires WriteAnchors(fields, SubjectAnchors(s)).values != ""
    requires WriteEvent(fields, s, forms, formName).error.None?
    ensures "formCompletedFieldName" in s
    ensures var e := WriteEvent(fields, s, forms, formName);
      var cl := FirstField(e.fields, s["formCompletedFieldName"]);
      var il := FirstField(e.fields, Text(s, "formImportedFieldName"));
      && cl.Some? && e.fields[cl.value].value != ""
      && (il.Some? ==> FormValue(forms, formName, "formImportedFieldValue") == Some(e.fields[il.value].value)
                       && e.fields[il.value].value != "")
  {
    var w := WriteAnchors(fields, SubjectAnchors(s));
    assert WriteEvent(fields, s, forms, formName) == WriteMarkers(w.fields, s, forms, formName);
    WriteMarkersMarks(w.fields, s, forms, formName);
  }

  /** The tree the merge of one subject leaves: the same tree, or the tree
      with the target event's fields replaced. */
  lemma MergeSubjectTarget(persons: seq<Person>, s: Elems, forms: seq<FormDef>)
    returns (i: nat, j: nat, k: nat)
    ensures var r := MergeSubject(persons, s, forms);
      r.persons == persons
      || (&& !Skipped(s)
          && i < |persons| && j < |persons[i].forms| && k < |persons[i].forms[j].events|
          && Target(persons, s, i, j, k)
          && var e := WriteEvent(persons[i].forms[j].events[k].fields, s, forms, s["redcapFormName"]);
             r == MergeOut(SetFields(persons, i, j, k, e.fields), e.error))
  {
    i, j, k := 0, 0, 0;
    var r := MergeSubject(persons, s, forms);
    if r.persons != persons {
      var located := Locate(persons, s["STUDY_ID"], s["redcapFormName"]);
      i, j := located.value.0, located.value.1;
      k := FirstIndex(EventNames(persons[i].forms[j].events), s["eventName"]).value;
    }
  }

  /** The merge writes only into existing nodes: the tree keeps every node,
      name and status, whatever the subject and even when it raises. */
  lemma MergeSubjectShape(persons: seq<Person>, s: Elems, forms: seq<FormDef>)
    ensures SameShape(persons, MergeSubject(persons, s, forms).persons)
  {
    SameShapeReflexive(persons);
    var i, j, k := MergeSubjectTarget(persons, s, forms);
    if MergeSubject(persons, s, forms).persons != persons {
      var fields := persons[i].forms[j].events[k].fields;
      WriteEventChanges(fields, s, forms, s["redcapFormName"]);
      SetFieldsShape(persons, i, j, k, WriteEvent(fields, s, forms, s["redcapFormName"]).fields);
    }
  }

  lemma {:induction false} MergeAllShape(persons: seq<Person>, subjects: seq<Elems>, forms: seq<FormDef>)
    ensures SameShape(persons, MergeAll(persons, subjects, forms).persons)
    decreases |subjects|
  {
    if subjects == [] {
      SameShapeReflexive(persons);
    } else {
      var pre := MergeAll(persons, subjects[..|subjects| - 1], forms);
      MergeAllShape(persons, subjects[..|subjects| - 1], forms);
      if pre.error.None? {
        MergeSubjectShape(pre.persons, subjects[|subjects| - 1], forms);
        SameShapeTransitive(persons, pre.persons, MergeAll(persons, subjects, forms).persons);
      }
    }
  }

  /** A subject without an event name, or of the "undefined" form, changes
      nothing and raises nothing. */
  lemma MergeSkips(persons: seq<Person>, s: Elems, forms: seq<FormDef>)
    requires Skipped(s)
    ensures MergeSubject(persons, s, forms) == MergeOut(persons, None)
  {
  }

  /** A subject whose study id has no form of its form name in the tree
      raises once its required children are present. */
  lemma MergeRaisesWithoutForm(persons: seq<Person>, s: Elems, forms: seq<FormDef>)
    requires "eventName" in s && s["eventName"] != "" && !Skipped(s)
    requires "STUDY_ID" in s && "redcapFormName" in s && HasRequired(s)
    requires s["STUDY_ID"] != "" && s["redcapFormName"] != ""
    requires forall i, j :: 0 <= i < |persons| && 0 <= j < |persons[i].forms| && persons[i].studyId == Some(s["STUDY_ID"])
               ==> persons[i].forms[j].name != s["redcapFormName"]
    ensures MergeSubject(persons, s, forms).error.Some?
    ensures MergeSubject(persons, s, forms).persons == persons
  {
    LocateNoneMeans(persons, s["STUDY_ID"], s["redcapFormName"]);
  }

  lemma FirstFieldSameNames(a: seq<Field>, b: seq<Field>, name: string)
    requires SameFieldNames(a, b)
    ensures FirstField(a, name) == FirstField(b, name)
  {
    assert FieldNames(a) == FieldNames(b);
  }

  /** The node a merge writes into: the event of the subject's event name in
      the located form. */
  predicate Target(persons: seq<Person>, s: Elems, i: nat, j: nat, k: nat)
  {
    "STUDY_ID" in s && "redcapFormName" in s && "eventName" in s
    && Locate(persons, s["STUDY_ID"], s["redcapFormName"]) == Some((i, j))
    && FirstIndex(EventNames(persons[i].forms[j].events), s["eventName"]) == Some(k)
  }

  /** A field value the merge of one subject changes lies in the subject's
      target event, and the field is named by one of the anchors, or by a
      marker when some anchor received a non-empty value. */
  lemma MergeSubjectWrites(persons: seq<Person>, s: Elems, forms: seq<FormDef>, i: nat, j: nat, k: nat, l: nat)
    requires i < |persons| && j < |persons[i].forms| && k < |persons[i].forms[j].events|
    requires l < |persons[i].forms[j].events[k].fields|
    ensures var r := MergeSubject(persons, s, forms).persons;
      var before := persons[i].forms[j].events[k].fields[l];
      SameShape(persons, r)
      && (r[i].forms[j].events[k].fields[l].value != before.value ==>
            && Target(persons, s, i, j, k)
            && (Anchored(before.name, SubjectAnchors(s)).Some?
                || (WriteAnchors(persons[i].forms[j].events[k].fields, SubjectAnchors(s)).values != ""
                    && (Find(s, "formCompletedFieldName") == Some(before.name)
                        || before.name == Text(s, "formImportedFieldName")))))
  {
    MergeSubjectShape(persons, s, forms);
    var i', j', k' := MergeSubjectTarget(persons, s, forms);
    var r := MergeSubject(persons, s, forms);
    if r.persons != persons {
      var fields := persons[i'].forms[j'].events[k'].fields;
      var e := WriteEvent(fields, s, forms, s["redcapFormName"]);
      WriteEventChanges(fields, s, forms, s["redcapFormName"]);
      SetFieldsElsewhere(persons, i', j', k', e.fields, i, j, k);
    }
  }

  /** The loop over the target event's fields. */
  method WriteAnchorLoop(fields: seq<Field>, a: Anchors) returns (w: Written)
    ensures w == WriteAnchors(fields, a)
  {
    var out: seq<Field> := [];
    var values := "";
    var n := 0;
    while n < |fields|
      invariant 0 <= n <= |fields|
      invariant Written(out, values) == WriteAnchors(fields[..n], a)
    {
      assert fields[..n + 1][..n] == fields[..n];
      var node := fields[n];
      if node.name == a.valueName {
        out := out + [Field(node.name, a.value)];
        values := values + a.value;
      } else if node.name == a.dateName {
        out := out + [Field(node.name, a.date)];
        values := values + a.date;
      } else if node.name == a.unitsName {
        out := out + [Field(node.name, a.units)];
        values := values + a.units;
      } else {
        out := out + [node];
      }
      n := n + 1;
    }
    assert fields[..n] == fields;
    w := Written(out, values);
  }

  /** The anchors, then the markers when something non-empty was written. */
  method WriteEventFields(fields: seq<Field>, s: Elems, forms: seq<FormDef>, formName: string) returns (e: EventWrite)
    ensures e == WriteEvent(fields, s, forms, formName)
  {
    var w := WriteAnchorLoop(fields, SubjectAnchors(s));
    e := EventWrite(w.fields, None);
    if w.values != "" {
      e := WriteMarkers(w.fields, s, forms, formName);
    }
  }

  /** One subject of the loop, in place. */
  method CopySubject(tree: PersonFormEventTree, s: Elems, forms: seq<FormDef>) returns (error: Option<string>)
    modifies tree
    ensures MergeOut(tree.persons, error) == MergeSubject(old(tree.persons), s, forms)
  {
    if "eventName" !in s {
      return Some("'NoneType' object has no attribute 'text'");
    }
    var eventName := s["eventName"];
    if eventName == "" {
      return None;
    }
    if "STUDY_ID" !in s {
      return Some("Missing required field STUDY_ID");
    }
    if "redcapFormName" !in s {
      return Some("Missing required field redcapFormName");
    }
    var formName := s["redcapFormName"];
    if formName == UNDEFINED {
      return None;
    }
    var t := 0;
    while t < |REQUIRED|
      invariant 0 <= t <= |REQUIRED|
      invariant forall u :: 0 <= u < t ==> REQUIRED[u] in s
    {
      if REQUIRED[t] !in s {
        return Some("Missing required field");
      }
      t := t + 1;
    }
    assert HasRequired(s);
    error := CopyChecked(tree, s, forms);
  }

  /** The rest of one subject, in place. */
  method CopyChecked(tree: PersonFormEventTree, s: Elems, forms: seq<FormDef>) returns (error: Option<string>)
    requires "eventName" in s && "STUDY_ID" in s && "redcapFormName" in s && HasRequired(s)
    modifies tree
    ensures MergeOut(tree.persons, error) == MergeChecked(old(tree.persons), s, forms)
  {
    var studyId := s["STUDY_ID"];
    var formName := s["redcapFormName"];
    if studyId == "" || formName == "" {
      return Some("cannot concatenate 'str' and 'NoneType' objects");
    }
    var located := Locate(tree.persons, studyId, formName);
    if located.None? {
      return Some("Form named " + formName + " Not Found in person form event tree for subject " + studyId);
    }
    if s["timestamp"] == "" || s["redcapFieldNameValue"] == "" || s["redcapFieldNameUnits"] == "" {
      return Some("cannot concatenate 'str' and 'NoneType' objects");
    }
    var (i, j) := located.value;
    var k := FirstIndex(EventNames(tree.persons[i].forms[j].events), s["eventName"]);
    if k.None? {
      return None;
    }
    var e := WriteEventFields(tree.persons[i].forms[j].events[k.value].fields, s, forms, formName);
    tree.persons := SetFields(tree.persons, i, j, k.value, e.fields);
    error := e.error;
  }

  /** `copy_data_to_person_form_event_tree`: the subjects in document order;
      the first error propagates, with the writes made so far kept. */
  method CopyDataToPersonFormEventTree(tree: PersonFormEventTree, subjects: seq<Elems>, forms: seq<FormDef>)
    returns (r: Result<()>)
    modifies tree
    ensures var run := MergeAll(old(tree.persons), subjects, forms);
      tree.persons == run.persons && (r.Err? <==> run.error.Some?)
  {
    ghost var start := tree.persons;
    var n := 0;
    while n < |subjects|
      invariant 0 <= n <= |subjects|
      invariant MergeAll(start, subjects[..n], forms) == MergeOut(tree.persons, None)
    {
      assert subjects[..n + 1][..n] == subjects[..n];
      var error := CopySubject(tree, subjects[n], forms);
      if error.Some? {
        MergeAllAfterError(start, subjects, forms, n + 1);
        return Err(error.value);
      }
      n := n + 1;
    }
    assert subjects[..n] == subjects;
    r := Ok(());
  }

  /** Once a subject has raised, the rest of the loop does not run. */
  lemma {:induction false} MergeAllAfterError(persons: seq<Person>, subjects: seq<Elems>, forms: seq<FormDef>, k: nat)
    requires k <= |subjects| && MergeAll(persons, subjects[..k], forms).error.Some?
    ensures MergeAll(persons, subjects, forms) == MergeAll(persons, subjects[..k], forms)
    decreases |subjects|
  {
    if k < |subjects| {
      var pre := subjects[..|subjects| - 1];
      assert pre[..k] == subjects[..k];
      MergeAllAfterError(persons, pre, forms, k);
    } else {
      assert subjects[..k] == subjects;
    }
  }
}
