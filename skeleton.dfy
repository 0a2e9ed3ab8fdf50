/** `create_empty_events_for_one_subject` and
    `create_empty_event_tree_for_study`: the empty forms every subject gets,
    built from the translation table and the form-events document, and one
    person per distinct study id carrying them. */
module Skeleton {
  import opened Common
  import opened Records
  import opened Tree

  const FORM_NAME := "redcapFormName"
  const VALUE_NAME := "redcapFieldNameValue"
  const UNITS_NAME := "redcapFieldNameUnits"
  const STATUS_NAME := "redcapStatusFieldName"

  /** Every clinical component names its form; the source raises on the
      first one that does not. */
  predicate AllComponentsNamed(components: seq<Elems>)
  {
    forall k :: 0 <= k < |components| ==> FORM_NAME in components[k]
  }

  /** The field names one clinical component contributes to its form. */
  function Present(c: Elems): set<string>
  {
    (if VALUE_NAME in c then {c[VALUE_NAME]} else {})
    + (if UNITS_NAME in c then {c[UNITS_NAME]} else {})
    + (if STATUS_NAME in c then {c[STATUS_NAME]} else {})
  }

  /** The form names of the components. */
  function ComponentForms(components: seq<Elems>): set<string>
    requires AllComponentsNamed(components)
    decreases |components|
  {
    if components == [] then {}
    else ComponentForms(components[..|components| - 1]) + {components[|components| - 1][FORM_NAME]}
  }

  /** The field names the components of form `name` contribute. */
  function ComponentFields(components: seq<Elems>, name: string): set<string>
    requires AllComponentsNamed(components)
    decreases |components|
  {
    if components == [] then {}
    else
      var c := components[|components| - 1];
      ComponentFields(components[..|components| - 1], name) + (if c[FORM_NAME] == name then Present(c) else {})
  }

  /** The dictionary after the two component loops: one entry per form
      named by a component. */
  function ComponentTable(components: seq<Elems>): map<string, set<string>>
    requires AllComponentsNamed(components)
  {
    map n | n in ComponentForms(components) :: ComponentFields(components, n)
  }

  /** A form is named by a component exactly when one component has it. */
  lemma {:induction false} ComponentFormsMeans(components: seq<Elems>, name: string)
    requires AllComponentsNamed(components)
    ensures name in ComponentForms(components)
      <==> exists k :: 0 <= k < |components| && components[k][FORM_NAME] == name
    decreases |components|
  {
    if components != [] {
      var pre := components[..|components| - 1];
      ComponentFormsMeans(pre, name);
      if exists k :: 0 <= k < |pre| && pre[k][FORM_NAME] == name {
        var k :| 0 <= k < |pre| && pre[k][FORM_NAME] == name;
        assert components[k] == pre[k];
      }
      if exists k :: 0 <= k < |components| && components[k][FORM_NAME] == name {
        var k :| 0 <= k < |components| && components[k][FORM_NAME] == name;
        if k < |pre| {
          assert pre[k] == components[k];
        }
      }
    }
  }

  /** A name is a field of a form exactly when some component of that form
      lists it as its value, units or status field. */
  lemma {:induction false} ComponentFieldsMeans(components: seq<Elems>, name: string, x: string)
    requires AllComponentsNamed(components)
    ensures x in ComponentFields(components, name)
      <==> exists k :: 0 <= k < |components| && components[k][FORM_NAME] == name && x in Present(components[k])
    decreases |components|
  {
    if components != [] {
      var pre := components[..|components| - 1];
      ComponentFieldsMeans(pre, name, x);
      if exists k :: 0 <= k < |pre| && pre[k][FORM_NAME] == name && x in Present(pre[k]) {
        var k :| 0 <= k < |pre| && pre[k][FORM_NAME] == name && x in Present(pre[k]);
        assert components[k] == pre[k];
      }
      if exists k :: 0 <= k < |components| && components[k][FORM_NAME] == name && x in Present(components[k]) {
        var k :| 0 <= k < |components| && components[k][FORM_NAME] == name && x in Present(components[k]);
        if k < |pre| {
          assert pre[k] == components[k];
        }
      }
    }
  }

  /** A child of a form whose text becomes a field: a `form*` tag other than
      the two value tags. */
  predicate Included(tag: string)
  {
    StartsWith(tag, "form") && tag != "formCompletedFieldValue" && tag != "formImportedFieldValue"
  }

  /** The texts the included children among `tags` contribute. */
  function Contributed(f: FormDef, tags: set<string>): set<string>
  {
    set tag | tag in tags && tag in f.elems && Included(tag) :: f.elems[tag]
  }

  /** The field names a form's own `form*` children contribute. */
  function FormChildFields(f: FormDef): set<string>
  {
    Contributed(f, f.elems.Keys)
  }

  /** `d[name]`, or the empty set the source creates on a KeyError. */
  function EntryOf(d: map<string, set<string>>, name: string): set<string>
  {
    if name in d then d[name] else {}
  }

  /** The dictionary after the forms so far have added their `form*`
      children; a form none of whose children is included leaves it as it
      is, and one whose name has no entry yet creates it. */
  function FormTable(table: map<string, set<string>>, forms: seq<FormDef>): map<string, set<string>>
    decreases |forms|
  {
    if forms == [] then table
    else
      var d := FormTable(table, forms[..|forms| - 1]);
      var f := forms[|forms| - 1];
      AddTo(d, FormName(f), FormChildFields(f))
  }

  /** A form has an entry once a component names it or a form so far of
      that name has an included child. */
  lemma {:induction false} FormTableKeys(table: map<string, set<string>>, forms: seq<FormDef>, name: string)
    ensures name in FormTable(table, forms)
      <==> name in table || exists j :: 0 <= j < |forms| && FormName(forms[j]) == name && FormChildFields(forms[j]) != {}
    decreases |forms|
  {
    if forms != [] {
      var pre := forms[..|forms| - 1];
      FormTableKeys(table, pre, name);
      if exists j :: 0 <= j < |forms| && FormName(forms[j]) == name && FormChildFields(forms[j]) != {} {
        var j :| 0 <= j < |forms| && FormName(forms[j]) == name && FormChildFields(forms[j]) != {};
        if j < |pre| {
          assert pre[j] == forms[j];
        }
      }
      if exists j :: 0 <= j < |pre| && FormName(pre[j]) == name && FormChildFields(pre[j]) != {} {
        var j :| 0 <= j < |pre| && FormName(pre[j]) == name && FormChildFields(pre[j]) != {};
        assert pre[j] == forms[j];
      }
    }
  }

  /** The names of a form's entry are those its components list and those
      the included children of every form so far with that name carry. */
  lemma {:induction false} FormTableValues(table: map<string, set<string>>, forms: seq<FormDef>, name: string, x: string)
    requires name in FormTable(table, forms)
    ensures x in FormTable(table, forms)[name]
      <==> (name in table && x in table[name])
           || exists j :: 0 <= j < |forms| && FormName(forms[j]) == name && x in FormChildFields(forms[j])
    decreases |forms|
  {
    if forms != [] {
      var pre := forms[..|forms| - 1];
      var f := forms[|forms| - 1];
      var d := FormTable(table, pre);
      if name in d {
        FormTableValues(table, pre, name, x);
      } else {
        FormTableKeys(table, pre, name);
      }
      if exists j :: 0 <= j < |forms| && FormName(forms[j]) == name && x in FormChildFields(forms[j]) {
        var j :| 0 <= j < |forms| && FormName(forms[j]) == name && x in FormChildFields(forms[j]);
        if j < |pre| {
          assert pre[j] == forms[j];
        }
      }
      if exists j :: 0 <= j < |pre| && FormName(pre[j]) == name && x in FormChildFields(pre[j]) {
        var j :| 0 <= j < |pre| && FormName(pre[j]) == name && x in FormChildFields(pre[j]);
        assert pre[j] == forms[j];
      }
    }
  }

  /** The source raises while building form `k`. */
  predicate FormFails(table: map<string, set<string>>, forms: seq<FormDef>, k: nat)
    requires k < |forms|
  {
    "name" !in forms[k].elems || FormName(forms[k]) !in FormTable(table, forms[..k + 1])
  }

  /** The empty fields of one form: each name once, in some order, with an
      empty value. */
  predicate EmptyFields(fields: seq<Field>, names: set<string>)
  {
    && (forall l :: 0 <= l < |fields| ==> fields[l].value == "" && fields[l].name in names)
    && (forall l, m :: 0 <= l < m < |fields| ==> fields[l].name != fields[m].name)
    && (forall x :: x in names ==> exists l :: 0 <= l < |fields| && fields[l].name == x)
  }

  /** Form `k` of the skeleton: the form's name, and every declared event
      with status "unsent" and the fields its entry lists. */
  predicate SkeletonForm(form: Form, def: FormDef, names: set<string>)
  {
    && form.name == FormName(def)
    && |form.events| == |def.events|
    && forall e :: 0 <= e < |form.events| ==>
         && form.events[e].name == def.events[e]
         && form.events[e].status == Some(UNSENT)
         && form.events[e].fields == form.events[0].fields
         && EmptyFields(form.events[e].fields, names)
  }

  /** One loop over a set: the fields of one form, in the order the set is
      iterated. */
  function NamesOf(fields: seq<Field>): set<string>
  {
    set l | 0 <= l < |fields| :: fields[l].name
  }

  predicate Distinct(fields: seq<Field>)
  {
    forall l, m :: 0 <= l < m < |fields| ==> fields[l].name != fields[m].name
  }

  /** Appending a field of a new name keeps the names distinct. */
  lemma AppendName(fields: seq<Field>, f: Field)
    requires Distinct(fields) && f.name !in NamesOf(fields)
    ensures Distinct(fields + [f]) && NamesOf(fields + [f]) == NamesOf(fields) + {f.name}
  {
    var fields' := fields + [f];
    forall l, m | 0 <= l < m < |fields'| ensures fields'[l].name != fields'[m].name {
      if m == |fields| {
        assert fields'[l].name == fields[l].name; assert fields[l].name in NamesOf(fields);
      } else {
        assert fields'[l] == fields[l] && fields'[m] == fields[m];
      }
    }
    forall x | x in NamesOf(fields) ensures x in NamesOf(fields') {
      var l :| 0 <= l < |fields| && fields[l].name == x;
      assert fields'[l].name == x;
    }
    assert fields'[|fields|].name == f.name;
  }

  lemma NamesOfEmptyFields(fields: seq<Field>, names: set<string>)
    requires Distinct(fields) && NamesOf(fields) == names
    requires forall l :: 0 <= l < |fields| ==> fields[l].value == ""
    ensures EmptyFields(fields, names)
  {
    forall x | x in names ensures exists l :: 0 <= l < |fields| && fields[l].name == x {
      assert x in NamesOf(fields);
    }
  }

  /** What `FieldsOf` keeps while it works through `rest`. */
  predicate FieldsSoFar(fields: seq<Field>, names: set<string>, rest: set<string>)
  {
    && rest <= names
    && (forall l :: 0 <= l < |fields| ==> fields[l].value == "")
    && Distinct(fields) && NamesOf(fields) == names - rest
    && |fields| + |rest| == |names|
  }

  lemma FieldsSoFarStep(fields: seq<Field>, names: set<string>, rest: set<string>, x: string)
    requires FieldsSoFar(fields, names, rest) && x in rest
    ensures FieldsSoFar(fields + [Field(x, "")], names, rest - {x})
  {
    AppendName(fields, Field(x, ""));
    assert names - (rest - {x}) == (names - rest) + {x};
    var fields' := fields + [Field(x, "")];
    forall l | 0 <= l < |fields'| ensures fields'[l].value == "" {
      if l < |fields| { assert fields'[l] == fields[l]; }
    }
  }

  lemma FieldsSoFarDone(fields: seq<Field>, names: set<string>)
    requires FieldsSoFar(fields, names, {})
    ensures EmptyFields(fields, names) && |fields| == |names|
  {
    assert names - {} == names;
    NamesOfEmptyFields(fields, names);
  }

  /** One empty field per name. */
  method FieldsOf(names: set<string>) returns (fields: seq<Field>)
    ensures EmptyFields(fields, names)
    ensures |fields| == |names|
  {
    fields := [];
    var rest := names;
    assert names - rest == {};
    while rest != {}
      invariant FieldsSoFar(fields, names, rest)
      decreases |rest|
    {
      var x :| x in rest;
      FieldsSoFarStep(fields, names, rest, x);
      fields := fields + [Field(x, "")];
      rest := rest - {x};
    }
    FieldsSoFarDone(fields, names);
  }

  lemma ContributedOneMore(f: FormDef, done: set<string>, tag: string)
    ensures Contributed(f, done + {tag})
      == Contributed(f, done) + (if tag in f.elems && Included(tag) then {f.elems[tag]} else {})
  {
  }

  /** The entry of `name` extended by `add`, created if need be; nothing
      changes when there is nothing to add. */
  function AddTo(d: map<string, set<string>>, name: string, add: set<string>): map<string, set<string>>
  {
    if add == {} then d else d[name := EntryOf(d, name) + add]
  }

  lemma AddToOneMore(d: map<string, set<string>>, name: string, add: set<string>, x: string)
    ensures AddTo(d, name, add)[name := EntryOf(AddTo(d, name, add), name) + {x}] == AddTo(d, name, add + {x})
  {
    if add == {} {
      assert add + {x} == {x};
    } else {
      assert EntryOf(AddTo(d, name, add), name) == EntryOf(d, name) + add;
      assert (EntryOf(d, name) + add) + {x} == EntryOf(d, name) + (add + {x});
      assert add + {x} != {};
    }
  }

  /** The included children of one form, added to the entry of its name. */
  method AddFormChildren(d: map<string, set<string>>, f: FormDef) returns (d': map<string, set<string>>)
    ensures d' == AddTo(d, FormName(f), FormChildFields(f))
  {
    d' := d;
    var name := FormName(f);
    var tags := f.elems.Keys;
    ghost var done: set<string> := {};
    ghost var added: set<string> := {};
    while tags != {}
      invariant tags + done == f.elems.Keys
      invariant added == Contributed(f, done)
      invariant d' == AddTo(d, name, added)
      decreases |tags|
    {
      var tag :| tag in tags;
      ContributedOneMore(f, done, tag);
      if Included(tag) {
        AddToOneMore(d, name, added, f.elems[tag]);
        // a new entry is created for a name not seen before
        d' := d'[name := EntryOf(d', name) + {f.elems[tag]}];
        added := added + {f.elems[tag]};
      }
      tags := tags - {tag};
      done := done + {tag};
    }
    assert done == f.elems.Keys;
  }

  /** The form's events, each given status "unsent" and the same fields. */
  method BuildForm(f: FormDef, names: set<string>) returns (form: Form)
    ensures SkeletonForm(form, f, names)
  {
    var fields := FieldsOf(names);
    var events: seq<Event> := [];
    var e := 0;
    while e < |f.events|
      invariant 0 <= e <= |f.events| && |events| == e
      invariant forall m :: 0 <= m < e ==> events[m] == Event(f.events[m], Some(UNSENT), fields)
    {
      events := events + [Event(f.events[e], Some(UNSENT), fields)];
      e := e + 1;
    }
    form := Form(FormName(f), events);
  }

  /** Form `j` of the skeleton is built from the entry its name has once
      the forms up to it have been read. */
  predicate FormBuilt(table: map<string, set<string>>, forms: seq<FormDef>, j: nat, form: Form)
    requires j < |forms|
  {
    FormName(forms[j]) in FormTable(table, forms[..j + 1])
    && SkeletonForm(form, forms[j], FormTable(table, forms[..j + 1])[FormName(forms[j])])
  }

  /** Reading form `k`: its children extend the dictionary, then its
      events are built, or the source raises. */
  method NextForm(ghost table: map<string, set<string>>, forms: seq<FormDef>, k: nat, d: map<string, set<string>>)
    returns (d': map<string, set<string>>, form: Option<Form>)
    requires k < |forms| && d == FormTable(table, forms[..k])
    ensures d' == FormTable(table, forms[..k + 1])
    ensures form.None? <==> FormFails(table, forms, k)
    ensures form.Some? ==> FormBuilt(table, forms, k, form.value)
  {
    var f := forms[k];
    assert forms[..k + 1][..k] == forms[..k];
    d' := AddFormChildren(d, f);
    if "name" !in f.elems || FormName(f) !in d' {
      return d', None;
    }
    var built := BuildForm(f, d'[FormName(f)]);
    form := Some(built);
  }

  /** The first component loop: an empty entry per form named by a
      component, or None where a component names no form. */
  method InitTable(components: seq<Elems>) returns (r: Option<map<string, set<string>>>)
    ensures r.None? <==> !AllComponentsNamed(components)
    ensures r.Some? ==> r.value.Keys == ComponentForms(components) && forall n :: n in r.value ==> r.value[n] == {}
  {
    var d: map<string, set<string>> := map[];
    var i := 0;
    while i < |components|
      invariant 0 <= i <= |components|
      invariant AllComponentsNamed(components[..i])
      invariant d.Keys == ComponentForms(components[..i])
      invariant forall n :: n in d ==> d[n] == {}
    {
      assert components[..i + 1][..i] == components[..i];
      if FORM_NAME !in components[i] {
        return None;
      }
      d := d[components[i][FORM_NAME] := {}];
      i := i + 1;
    }
    assert components[..i] == components;
    r := Some(d);
  }

  lemma ComponentFieldsNext(components: seq<Elems>, i: nat, name: string)
    requires AllComponentsNamed(components) && i < |components|
    ensures AllComponentsNamed(components[..i]) && AllComponentsNamed(components[..i + 1])
    ensures ComponentFields(components[..i + 1], name)
      == ComponentFields(components[..i], name) + (if components[i][FORM_NAME] == name then Present(components[i]) else {})
  {
    assert components[..i + 1][..i] == components[..i];
  }

  /** One component of the second loop: its value, units and status field
      names are added to its form's entry. */
  method AddComponent(d: map<string, set<string>>, c: Elems) returns (d': map<string, set<string>>)
    requires FORM_NAME in c && c[FORM_NAME] in d
    ensures d' == d[c[FORM_NAME] := d[c[FORM_NAME]] + Present(c)]
  {
    var name := c[FORM_NAME];
    d' := d;
    ghost var added: set<string> := {};
    assert d[name] + added == d[name];
    assert d == d[name := d[name] + added];
    if VALUE_NAME in c {
      d' := d'[name := d'[name] + {c[VALUE_NAME]}];
      added := added + {c[VALUE_NAME]};
    }
    assert d'[name] == d[name] + added;
    assert d' == d[name := d[name] + added];
    if UNITS_NAME in c {
      d' := d'[name := d'[name] + {c[UNITS_NAME]}];
      added := added + {c[UNITS_NAME]};
    }
    assert d'[name] == d[name] + added;
    assert d' == d[name := d[name] + added];
    if STATUS_NAME in c {
      d' := d'[name := d'[name] + {c[STATUS_NAME]}];
      added := added + {c[STATUS_NAME]};
    }
    assert d'[name] == d[name] + added;
    assert d' == d[name := d[name] + added];
    assert added == Present(c);
  }

  /** The second component loop: each component adds its value, units and
      status field names to its form's entry. */
  method FillTable(components: seq<Elems>, d: map<string, set<string>>) returns (d': map<string, set<string>>)
    requires AllComponentsNamed(components)
    requires d.Keys == ComponentForms(components) && forall n :: n in d ==> d[n] == {}
    ensures d' == ComponentTable(components)
  {
    d' := d;
    var i := 0;
    while i < |components|
      invariant 0 <= i <= |components|
      invariant d'.Keys == ComponentForms(components)
      invariant forall n :: n in d' ==> d'[n] == ComponentFields(components[..i], n)
    {
      var c := components[i];
      ComponentFormsMeans(components, c[FORM_NAME]);
      ghost var before := d';
      d' := AddComponent(d', c);
      forall n | n in d' ensures d'[n] == ComponentFields(components[..i + 1], n) {
        ComponentFieldsNext(components, i, n);
      }
      i := i + 1;
    }
    assert components[..i] == components;
    TableOfEntries(components, d');
  }

  lemma TableOfEntries(components: seq<Elems>, d: map<string, set<string>>)
    requires AllComponentsNamed(components)
    requires d.Keys == ComponentForms(components)
    requires forall n :: n in d ==> d[n] == ComponentFields(components, n)
    ensures d == ComponentTable(components)
  {
  }

  /** `create_empty_events_for_one_subject`: the forms of the skeleton, in
      the order of the form-events document. */
  method CreateEmptyEventsForOneSubject(components: seq<Elems>, forms: seq<FormDef>)
    returns (r: Result<seq<Form>>)
    ensures r.Err? <==> (!AllComponentsNamed(components)
                         || exists k :: 0 <= k < |forms| && FormFails(ComponentTable(components), forms, k))
    ensures r.Ok? ==> (|r.value| == |forms|
      && forall k :: 0 <= k < |forms| ==>
           FormBuilt(ComponentTable(components), forms, k, r.value[k]))
  {
    var init := InitTable(components);
    if init.None? {
      return Err("clinicalComponent without redcapFormName");
    }
    var d := FillTable(components, init.value);
    ghost var table := d;
    var out: seq<Form> := [];
    var k := 0;
    while k < |forms|
      invariant 0 <= k <= |forms| && |out| == k
      invariant d == FormTable(table, forms[..k])
      invariant forall j :: 0 <= j < k ==> !FormFails(table, forms, j)
      invariant forall j :: 0 <= j < k ==> FormBuilt(table, forms, j, out[j])
    {
      var step;
      d, step := NextForm(table, forms, k, d);
      if step.None? {
        return Err("There are no fields in this form.");
      }
      out := out + [step.value];
      k := k + 1;
    }
    r := Ok(out);
  }

  /** The study ids of the subjects; the source raises on a subject without
      one. */
  function StudyIds(subjects: seq<Elems>): set<string>
  {
    set s | s in subjects && "STUDY_ID" in s :: s["STUDY_ID"]
  }

  /** The loop collecting the study ids; None where a subject has none. */
  method CollectStudyIds(subjects: seq<Elems>) returns (r: Option<set<string>>)
    ensures r.None? <==> exists k :: 0 <= k < |subjects| && "STUDY_ID" !in subjects[k]
    ensures r.Some? ==> r.value == StudyIds(subjects) && (r.value == {} <==> subjects == [])
  {
    var ids: set<string> := {};
    var n := 0;
    while n < |subjects|
      invariant 0 <= n <= |subjects|
      invariant forall k :: 0 <= k < n ==> "STUDY_ID" in subjects[k]
      invariant ids == set s | s in subjects[..n] :: s["STUDY_ID"]
    {
      if "STUDY_ID" !in subjects[n] {
        return None;
      }
      assert subjects[..n + 1] == subjects[..n] + [subjects[n]];
      ids := ids + {subjects[n]["STUDY_ID"]};
      n := n + 1;
    }
    assert subjects[..n] == subjects;
    if subjects != [] {
      assert subjects[0]["STUDY_ID"] in ids;
    }
    r := Some(ids);
  }

  /** One person per study id, each with a copy of the skeleton. */
  predicate OnePersonPerId(persons: seq<Person>, ids: set<string>, skeleton: seq<Form>)
  {
    && |persons| == |ids|
    && (forall i :: 0 <= i < |persons| ==>
          persons[i].studyId.Some? && persons[i].studyId.value in ids && persons[i].forms == skeleton)
    && (forall i, j :: 0 <= i < j < |persons| ==> persons[i].studyId != persons[j].studyId)
    && (forall id :: id in ids ==> exists i :: 0 <= i < |persons| && persons[i].studyId == Some(id))
  }

  /** What `PersonsFor` keeps while it works through `rest`. */
  ghost predicate PersonsSoFar(persons: seq<Person>, ids: set<string>, rest: set<string>, skeleton: seq<Form>)
  {
    && rest <= ids
    && (forall i :: 0 <= i < |persons| ==>
          persons[i].studyId.Some? && persons[i].studyId.value in ids - rest && persons[i].forms == skeleton)
    && (forall i, j :: 0 <= i < j < |persons| ==> persons[i].studyId != persons[j].studyId)
    && (forall id :: id in ids - rest ==> exists i :: 0 <= i < |persons| && persons[i].studyId == Some(id))
    && |persons| + |rest| == |ids|
  }

  lemma PersonsSoFarStep(persons: seq<Person>, ids: set<string>, rest: set<string>, skeleton: seq<Form>, id: string)
    requires PersonsSoFar(persons, ids, rest, skeleton) && id in rest
    ensures PersonsSoFar(persons + [Person(Some(id), skeleton)], ids, rest - {id}, skeleton)
  {
    var persons' := persons + [Person(Some(id), skeleton)];
    forall i | 0 <= i < |persons'|
      ensures persons'[i].studyId.Some? && persons'[i].studyId.value in ids - (rest - {id}) && persons'[i].forms == skeleton
    {
      if i < |persons| { assert persons'[i] == persons[i]; }
    }
    forall i, j | 0 <= i < j < |persons'| ensures persons'[i].studyId != persons'[j].studyId {
      assert persons'[i] == persons[i];
      if j < |persons| { assert persons'[j] == persons[j]; }
    }
    forall y | y in ids - (rest - {id}) ensures exists i :: 0 <= i < |persons'| && persons'[i].studyId == Some(y) {
      if y == id {
        assert persons'[|persons|].studyId == Some(y);
      } else {
        assert y in ids - rest;
        var i :| 0 <= i < |persons| && persons[i].studyId == Some(y);
        assert persons'[i].studyId == Some(y);
      }
    }
  }

  /** The loop over the set of ids, in the order the set is iterated. */
  method PersonsFor(ids: set<string>, skeleton: seq<Form>) returns (persons: seq<Person>)
    ensures OnePersonPerId(persons, ids, skeleton)
  {
    persons := [];
    var rest := ids;
    while rest != {}
      invariant PersonsSoFar(persons, ids, rest, skeleton)
      decreases |rest|
    {
      var id :| id in rest;
      PersonsSoFarStep(persons, ids, rest, skeleton, id);
      persons := persons + [Person(Some(id), skeleton)];
      rest := rest - {id};
    }
    assert ids - rest == ids;
  }

  /** `create_empty_event_tree_for_study`: one person per distinct study id,
      each carrying the skeleton; no subject, or a subject without a study
      id, raises. */
  method CreateEmptyEventTreeForStudy(subjects: seq<Elems>, skeleton: seq<Form>) returns (r: Result<seq<Person>>)
    ensures r.Err? <==> subjects == [] || exists k :: 0 <= k < |subjects| && "STUDY_ID" !in subjects[k]
    ensures r.Ok? ==> OnePersonPerId(r.value, StudyIds(subjects), skeleton)
  {
    var ids := CollectStudyIds(subjects);
    if ids.None? {
      return Err("Missing STUDY_ID");
    }
    if ids.value == {} {
      return Err("There is no subjects in the raw data");
    }
    var persons := PersonsFor(ids.value, skeleton);
    r := Ok(persons);
  }
}
