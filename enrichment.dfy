/** The enrichment passes of `bin/redi.py`: each builds a key -> value table
    from a reference document and stamps one element of every subject with
    the value for that subject's key, or with a sentinel when the lookup
    misses. */
module Enrichment {
  import opened Common
  import opened Records

  /** The table `update_data_from_lookup` builds, keyed by `findtext`. */
  type LookupTable = map<Option<string>, string>

  /** An entry contributes `key` to the table when it has the value child
      and its index child reads as `key`. */
  predicate Carries(e: Elems, indexTag: string, valueTag: string, key: Option<string>)
  {
    valueTag in e && Find(e, indexTag) == key
  }

  /** The last entry that carries `key`, if any: the entry whose value the
      table keeps. */
  function LastCarrier(entries: seq<Elems>, indexTag: string, valueTag: string, key: Option<string>): (r: Option<nat>)
    ensures r.Some? ==> r.value < |entries| && Carries(entries[r.value], indexTag, valueTag, key)
    ensures r.Some? ==> forall j :: r.value < j < |entries| ==> !Carries(entries[j], indexTag, valueTag, key)
    ensures r.None? ==> forall j :: 0 <= j < |entries| ==> !Carries(entries[j], indexTag, valueTag, key)
    decreases |entries|
  {
    if entries == [] then None
    else if Carries(entries[|entries| - 1], indexTag, valueTag, key) then Some(|entries| - 1)
    else
      var r := LastCarrier(entries[..|entries| - 1], indexTag, valueTag, key);
      assert forall j :: 0 <= j < |entries| - 1 ==> entries[..|entries| - 1][j] == entries[j];
      r
  }

  /** The lookup table: an entry without the value child is ignored, and a
      later entry with the same key replaces an earlier one. */
  function BuildTable(entries: seq<Elems>, indexTag: string, valueTag: string): (t: LookupTable)
    ensures forall key :: key in t <==> LastCarrier(entries, indexTag, valueTag, key).Some?
    ensures forall key :: key in t ==> t[key] == entries[LastCarrier(entries, indexTag, valueTag, key).value][valueTag]
    decreases |entries|
  {
    if entries == [] then map[]
    else
      var pre := entries[..|entries| - 1];
      var last := entries[|entries| - 1];
      var t := BuildTable(pre, indexTag, valueTag);
      assert forall key :: !Carries(last, indexTag, valueTag, key) ==>
        LastCarrier(entries, indexTag, valueTag, key) == LastCarrier(pre, indexTag, valueTag, key);
      assert forall i :: 0 <= i < |pre| ==> pre[i] == entries[i];
      if valueTag in last then t[Find(last, indexTag) := last[valueTag]] else t
  }

  /** `lookup_table.get(key, undefined)`. */
  function Resolve(t: LookupTable, key: Option<string>, undefined: string): string
  {
    if key in t then t[key] else undefined
  }

  /** What one pass of `update_data_from_lookup` does to one subject. */
  function Stamp(s: Elems, setTag: string, indexTag: string, t: LookupTable, undefined: string): Elems
  {
    s[setTag := Resolve(t, Find(s, indexTag), undefined)]
  }

  /** What one pass does to the whole subject list. */
  function Stamped(subjects: seq<Elems>, setTag: string, indexTag: string,
                   entries: seq<Elems>, valueTag: string, undefined: string): (r: seq<Elems>)
    ensures |r| == |subjects|
    ensures forall i :: 0 <= i < |subjects| ==>
      r[i] == Stamp(subjects[i], setTag, indexTag, BuildTable(entries, indexTag, valueTag), undefined)
  {
    var t := BuildTable(entries, indexTag, valueTag);
    seq(|subjects|, i requires 0 <= i < |subjects| => Stamp(subjects[i], setTag, indexTag, t, undefined))
  }

  /** The stamped value is the value child of the last entry carrying the
      subject's key, and the pass's own sentinel when no entry carries it;
      nothing else in the subject changes. */
  lemma StampedValue(subjects: seq<Elems>, setTag: string, indexTag: string,
                     entries: seq<Elems>, valueTag: string, undefined: string, i: nat)
    requires i < |subjects|
    ensures var out := Stamped(subjects, setTag, indexTag, entries, valueTag, undefined)[i];
      var last := LastCarrier(entries, indexTag, valueTag, Find(subjects[i], indexTag));
      && out.Keys == subjects[i].Keys + {setTag}
      && (forall tag :: tag in subjects[i] && tag != setTag ==> out[tag] == subjects[i][tag])
      && out[setTag] == (if last.None? then undefined else entries[last.value][valueTag])
  {
  }

  /** The first loop of `update_data_from_lookup`: the lookup table. */
  method BuildLookup(entries: seq<Elems>, indexTag: string, valueTag: string) returns (table: LookupTable)
    ensures table == BuildTable(entries, indexTag, valueTag)
  {
    table := map[];
    var i := 0;
    while i < |entries|
      invariant 0 <= i <= |entries|
      invariant table == BuildTable(entries[..i], indexTag, valueTag)
    {
      var child := entries[i];
      if valueTag in child {
        table := table[Find(child, indexTag) := child[valueTag]];
      }
      assert entries[..i + 1][..i] == entries[..i];
      i := i + 1;
    }
    assert entries[..i] == entries;
  }

  /** The message of the AttributeError a missing element raises. */
  const NO_TEXT := "'NoneType' object has no attribute 'text'"

  /** How many leading subjects have every one of `tags`: a pass reads or
      sets those children with `.text` and raises at the first subject that
      lacks one. */
  function Reach(subjects: seq<Elems>, tags: set<string>): (n: nat)
    ensures n <= |subjects|
    ensures forall i :: 0 <= i < n ==> tags <= subjects[i].Keys
    ensures n < |subjects| ==> !(tags <= subjects[n].Keys)
    decreases |subjects|
  {
    if subjects == [] || !(tags <= subjects[0].Keys) then 0
    else 1 + Reach(subjects[1..], tags)
  }

  /** A subject is reached exactly when it and every subject before it
      have all the tags. */
  lemma ReachMeans(subjects: seq<Elems>, tags: set<string>, i: nat)
    requires i < |subjects|
    ensures i < Reach(subjects, tags) <==> forall m :: 0 <= m <= i ==> tags <= subjects[m].Keys
  {
    var n := Reach(subjects, tags);
    if n <= i {
      assert !(tags <= subjects[n].Keys);
    }
  }

  /** The subjects a pass leaves, and the error when it raised. */
  datatype PassOut = PassOut(subjects: seq<Elems>, error: Option<string>)

  /** One pass of `update_data_from_lookup`: every subject before the first
      one without the element to set is stamped in place; that subject
      raises and the later ones are not reached. */
  function LookupPass(subjects: seq<Elems>, setTag: string, indexTag: string,
                      entries: seq<Elems>, valueTag: string, undefined: string): (r: PassOut)
    ensures |r.subjects| == |subjects|
    ensures r.error.None? <==> forall i :: 0 <= i < |subjects| ==> setTag in subjects[i]
    ensures r.error.None? ==> r.subjects == Stamped(subjects, setTag, indexTag, entries, valueTag, undefined)
  {
    var n := Reach(subjects, {setTag});
    assert n < |subjects| ==> setTag !in subjects[n];
    assert n == |subjects| ==> subjects[..n] == subjects;
    PassOut(Stamped(subjects[..n], setTag, indexTag, entries, valueTag, undefined) + subjects[n..],
            if n < |subjects| then Some(NO_TEXT) else None)
  }

  /** A subject is stamped exactly when it and every subject before it have
      the element to set; every other subject is left as it was. */
  lemma LookupPassMeans(subjects: seq<Elems>, setTag: string, indexTag: string,
                        entries: seq<Elems>, valueTag: string, undefined: string, i: nat)
    requires i < |subjects|
    ensures LookupPass(subjects, setTag, indexTag, entries, valueTag, undefined).subjects[i]
      == if forall m :: 0 <= m <= i ==> setTag in subjects[m]
         then Stamp(subjects[i], setTag, indexTag, BuildTable(entries, indexTag, valueTag), undefined)
         else subjects[i]
  {
    ReachMeans(subjects, {setTag}, i);
  }

  /** The in-place loop after n subjects: those stamped, the rest as they
      were. */
  ghost predicate StampedBefore(cur: seq<Elems>, subjects: seq<Elems>, setTag: string, indexTag: string,
                                table: LookupTable, undefined: string, n: nat)
  {
    && n <= |subjects| == |cur|
    && (forall m :: 0 <= m < n ==> setTag in subjects[m])
    && forall m :: 0 <= m < |subjects| ==>
         cur[m] == if m < n then Stamp(subjects[m], setTag, indexTag, table, undefined) else subjects[m]
  }

  /** The loop stops after the last subject or at one without the element
      to set; either way it has left what the pass leaves. */
  lemma StampedBeforeIsPass(cur: seq<Elems>, subjects: seq<Elems>, setTag: string, indexTag: string,
                            entries: seq<Elems>, valueTag: string, undefined: string, n: nat)
    requires StampedBefore(cur, subjects, setTag, indexTag, BuildTable(entries, indexTag, valueTag), undefined, n)
    requires n == |subjects| || setTag !in subjects[n]
    ensures cur == LookupPass(subjects, setTag, indexTag, entries, valueTag, undefined).subjects
  {
    var p := LookupPass(subjects, setTag, indexTag, entries, valueTag, undefined);
    forall m | 0 <= m < |subjects| ensures cur[m] == p.subjects[m] {
      LookupPassMeans(subjects, setTag, indexTag, entries, valueTag, undefined, m);
      if m >= n {
        assert !(forall m' :: 0 <= m' <= m ==> setTag in subjects[m']) by {
          assert setTag !in subjects[n];
        }
      }
    }
  }

  /** `update_data_from_lookup`: build the table, then stamp every subject
      in place, raising at the first one without the element to set. */
  method UpdateDataFromLookup(data: RawData, setTag: string, indexTag: string,
                              entries: seq<Elems>, valueTag: string, undefined: string)
    returns (r: Result<()>)
    modifies data
    ensures var p := LookupPass(old(data.subjects), setTag, indexTag, entries, valueTag, undefined);
      data.subjects == p.subjects && (r.Err? <==> p.error.Some?)
  {
    var table := BuildLookup(entries, indexTag, valueTag);
    ghost var subjects := data.subjects;
    var n := 0;
    while n < |data.subjects|
      invariant StampedBefore(data.subjects, subjects, setTag, indexTag, table, undefined, n)
    {
      var child := data.subjects[n];
      if setTag !in child {
        StampedBeforeIsPass(data.subjects, subjects, setTag, indexTag, entries, valueTag, undefined, n);
        return Err(NO_TEXT);
      }
      var key := Find(child, indexTag);
      var text := if key in table then table[key] else undefined;
      data.subjects := data.subjects[n := child[setTag := text]];
      n := n + 1;
    }
    StampedBeforeIsPass(data.subjects, subjects, setTag, indexTag, entries, valueTag, undefined, n);
    r := Ok(());
  }

  /** `update_redcap_form`: the form name, by loinc code, from the
      translation table's `clinicalComponent` entries. */
  method UpdateRedcapForm(data: RawData, components: seq<Elems>) returns (r: Result<()>)
    modifies data
    ensures var p := LookupPass(old(data.subjects), "redcapFormName", "loinc_code",
                                components, "redcapFormName", UNDEFINED);
      data.subjects == p.subjects && (r.Err? <==> p.error.Some?)
  {
    r := UpdateDataFromLookup(data, "redcapFormName", "loinc_code", components, "redcapFormName", UNDEFINED);
  }

  /** `update_form_imported_field`: the imported-marker field, by form name. */
  method UpdateFormImportedField(data: RawData, forms: seq<FormDef>) returns (r: Result<()>)
    modifies data
    ensures var p := LookupPass(old(data.subjects), "formImportedFieldName", "redcapFormName",
                                FormElems(forms), "formImportedFieldName", UNDEFINED);
      data.subjects == p.subjects && (r.Err? <==> p.error.Some?)
  {
    r := UpdateDataFromLookup(data, "formImportedFieldName", "redcapFormName", FormElems(forms),
                              "formImportedFieldName", UNDEFINED);
  }

  /** `update_recap_form_status`: the status field name, by loinc code. */
  method UpdateRedcapFormStatus(data: RawData, components: seq<Elems>) returns (r: Result<()>)
    modifies data
    ensures var p := LookupPass(old(data.subjects), "redcapStatusFieldName", "loinc_code",
                                components, "redcapStatusFieldName", UNDEFINED);
      data.subjects == p.subjects && (r.Err? <==> p.error.Some?)
  {
    r := UpdateDataFromLookup(data, "redcapStatusFieldName", "loinc_code", components,
                              "redcapStatusFieldName", UNDEFINED);
  }

  /** `update_formcompletedfieldname`: the completion-marker field, by form name. */
  method UpdateFormCompletedFieldName(data: RawData, forms: seq<FormDef>) returns (r: Result<()>)
    modifies data
    ensures var p := LookupPass(old(data.subjects), "formCompletedFieldName", "redcapFormName",
                                FormElems(forms), "formCompletedFieldName", UNDEFINED);
      data.subjects == p.subjects && (r.Err? <==> p.error.Some?)
  {
    r := UpdateDataFromLookup(data, "formCompletedFieldName", "redcapFormName", FormElems(forms),
                              "formCompletedFieldName", UNDEFINED);
  }

  /** The sentinel of the units pass, which differs from all other passes. */
  const UNITS_UNDEFINED := "redcapFieldNameUnitsUndefined"

  /** `update_redcap_field_name_value_and_units`: two passes by loinc code,
      the second with its own sentinel; when the first raises, the second
      does not run. */
  method UpdateRedcapFieldNameValueAndUnits(data: RawData, components: seq<Elems>) returns (r: Result<()>)
    modifies data
    ensures var first := LookupPass(old(data.subjects), "redcapFieldNameValue", "loinc_code",
                                    components, "redcapFieldNameValue", UNDEFINED);
      var second := LookupPass(first.subjects, "redcapFieldNameUnits", "loinc_code",
                               components, "redcapFieldNameUnits", UNITS_UNDEFINED);
      if first.error.Some? then data.subjects == first.subjects && r.Err?
      else data.subjects == second.subjects && (r.Err? <==> second.error.Some?)
  {
    r := UpdateDataFromLookup(data, "redcapFieldNameValue", "loinc_code", components,
                              "redcapFieldNameValue", UNDEFINED);
    if r.Err? {
      return;
    }
    r := UpdateDataFromLookup(data, "redcapFieldNameUnits", "loinc_code", components,
                              "redcapFieldNameUnits", UNITS_UNDEFINED);
  }

  /** A component without a units child, or a code the table does not know,
      leaves "redcapFieldNameUnitsUndefined" in the units slot and "undefined"
      in the value slot when it has no value child either. */
  lemma UnitsMissUsesItsOwnSentinel(subjects: seq<Elems>, components: seq<Elems>, i: nat)
    requires i < |subjects|
    requires forall j :: 0 <= j < |components| ==>
      !Carries(components[j], "loinc_code", "redcapFieldNameUnits", Find(subjects[i], "loinc_code"))
    ensures var mid := Stamped(subjects, "redcapFieldNameValue", "loinc_code", components,
                               "redcapFieldNameValue", UNDEFINED);
      var out := Stamped(mid, "redcapFieldNameUnits", "loinc_code", components,
                         "redcapFieldNameUnits", UNITS_UNDEFINED);
      out[i]["redcapFieldNameUnits"] == UNITS_UNDEFINED
      && ((forall j :: 0 <= j < |components| ==>
             !Carries(components[j], "loinc_code", "redcapFieldNameValue", Find(subjects[i], "loinc_code")))
          ==> out[i]["redcapFieldNameValue"] == UNDEFINED)
  {
    var mid := Stamped(subjects, "redcapFieldNameValue", "loinc_code", components,
                       "redcapFieldNameValue", UNDEFINED);
    StampedValue(subjects, "redcapFieldNameValue", "loinc_code", components, "redcapFieldNameValue", UNDEFINED, i);
    assert Find(mid[i], "loinc_code") == Find(subjects[i], "loinc_code");
    StampedValue(mid, "redcapFieldNameUnits", "loinc_code", components, "redcapFieldNameUnits", UNITS_UNDEFINED, i);
  }

  /** The date field `update_formdatefield` writes for a form name: forced to
      "undefined" for the "undefined" form, and "undefined" for a form the
      form-events document does not name. */
  function DateFieldFor(forms: seq<FormDef>, formName: string): string
  {
    if formName == UNDEFINED then UNDEFINED
    else Resolve(BuildTable(FormElems(forms), "name", "formDateField"), Some(formName), UNDEFINED)
  }

  /** Every form element has the two children `update_formdatefield` reads
      with `.text`; a missing one raises. */
  predicate DateFieldsDeclared(forms: seq<FormDef>)
  {
    forall i :: 0 <= i < |forms| ==> "name" in forms[i].elems && "formDateField" in forms[i].elems
  }

  /** The first loop of `update_formdatefield`: the date-field table, or
      None where a form element lacks one of the two children. */
  method DateTable(forms: seq<FormDef>) returns (r: Option<LookupTable>)
    ensures r.Some? <==> DateFieldsDeclared(forms)
    ensures r.Some? ==> r.value == BuildTable(FormElems(forms), "name", "formDateField")
  {
    var table: LookupTable := map[];
    var i := 0;
    while i < |forms|
      invariant 0 <= i <= |forms|
      invariant DateFieldsDeclared(forms[..i])
      invariant table == BuildTable(FormElems(forms[..i]), "name", "formDateField")
    {
      var child := forms[i].elems;
      if "name" !in child || "formDateField" !in child {
        return None;
      }
      table := table[Find(child, "name") := child["formDateField"]];
      assert FormElems(forms[..i + 1])[..i] == FormElems(forms[..i]);
      i := i + 1;
    }
    assert forms[..i] == forms;
    r := Some(table);
  }

  /** The children `update_formdatefield` reads and sets in a subject. */
  const DATE_TAGS := {"redcapFormName", "formDateField"}

  /** `update_formdatefield`: raises, changing nothing, when a form element
      lacks a child it reads; otherwise gives every subject before the first
      one lacking `redcapFormName` or `formDateField` the date field of its
      form, and raises at that subject. */
  function DatePass(subjects: seq<Elems>, forms: seq<FormDef>): (r: PassOut)
    ensures |r.subjects| == |subjects|
    ensures r.error.None? <==> DateFieldsDeclared(forms) && forall i :: 0 <= i < |subjects| ==> DATE_TAGS <= subjects[i].Keys
    ensures !DateFieldsDeclared(forms) ==> r.subjects == subjects
  {
    if !DateFieldsDeclared(forms) then PassOut(subjects, Some(NO_TEXT))
    else
      var n := Reach(subjects, DATE_TAGS);
      assert n < |subjects| ==> !(DATE_TAGS <= subjects[n].Keys);
      PassOut(seq(|subjects|, i requires 0 <= i < |subjects| =>
                if i < n then subjects[i]["formDateField" := DateFieldFor(forms, Text(subjects[i], "redcapFormName"))]
                else subjects[i]),
              if n < |subjects| then Some(NO_TEXT) else None)
  }

  /** With the form elements complete, a subject gets its form's date field
      exactly when it and every subject before it have both children it
      needs; every other subject is left as it was. */
  lemma DatePassMeans(subjects: seq<Elems>, forms: seq<FormDef>, i: nat)
    requires DateFieldsDeclared(forms) && i < |subjects|
    ensures DatePass(subjects, forms).subjects[i]
      == if forall m :: 0 <= m <= i ==> DATE_TAGS <= subjects[m].Keys
         then subjects[i]["formDateField" := DateFieldFor(forms, Text(subjects[i], "redcapFormName"))]
         else subjects[i]
  {
    ReachMeans(subjects, DATE_TAGS, i);
  }

  /** The in-place date loop after n subjects: those given their form's
      date field, the rest as they were. */
  ghost predicate DatedBefore(cur: seq<Elems>, subjects: seq<Elems>, forms: seq<FormDef>, n: nat)
  {
    && n <= |subjects| == |cur|
    && (forall m :: 0 <= m < n ==> DATE_TAGS <= subjects[m].Keys)
    && forall m :: 0 <= m < |subjects| ==>
         cur[m] == if m < n then subjects[m]["formDateField" := DateFieldFor(forms, Text(subjects[m], "redcapFormName"))]
                   else subjects[m]
  }

  /** The date loop stops after the last subject or at one missing a child
      it reads; either way it has left what the pass leaves. */
  lemma DatedBeforeIsPass(cur: seq<Elems>, subjects: seq<Elems>, forms: seq<FormDef>, n: nat)
    requires DateFieldsDeclared(forms) && DatedBefore(cur, subjects, forms, n)
    requires n == |subjects| || !(DATE_TAGS <= subjects[n].Keys)
    ensures cur == DatePass(subjects, forms).subjects
  {
    var p := DatePass(subjects, forms);
    forall m | 0 <= m < |subjects| ensures cur[m] == p.subjects[m] {
      DatePassMeans(subjects, forms, m);
      if m >= n {
        assert !(forall m' :: 0 <= m' <= m ==> DATE_TAGS <= subjects[m'].Keys) by {
          assert !(DATE_TAGS <= subjects[n].Keys);
        }
      }
    }
  }

  /** `update_formdatefield`, in place. */
  method UpdateFormDateField(data: RawData, forms: seq<FormDef>) returns (ok: Result<()>)
    modifies data
    ensures var p := DatePass(old(data.subjects), forms);
      data.subjects == p.subjects && (ok.Err? <==> p.error.Some?)
  {
    var found := DateTable(forms);
    if found.None? {
      return Err(NO_TEXT);
    }
    var table := found.value;
    ghost var subjects := data.subjects;
    var n := 0;
    while n < |data.subjects|
      invariant DatedBefore(data.subjects, subjects, forms, n)
    {
      var subject := data.subjects[n];
      if "redcapFormName" !in subject || "formDateField" !in subject {
        DatedBeforeIsPass(data.subjects, subjects, forms, n);
        return Err(NO_TEXT);
      }
      var formName := subject["redcapFormName"];
      var text;
      if formName == UNDEFINED {
        text := UNDEFINED;
      } else {
        text := if Some(formName) in table then table[Some(formName)] else UNDEFINED;
      }
      data.subjects := data.subjects[n := subject["formDateField" := text]];
      n := n + 1;
    }
    DatedBeforeIsPass(data.subjects, subjects, forms, n);
    ok := Ok(());
  }

  /** A subject of the "undefined" form, or of a form no form element
      names, gets the "undefined" date field; a subject of a known form gets
      the date field of the last form element with that name. */
  lemma DateFieldForForm(forms: seq<FormDef>, formName: string)
    requires DateFieldsDeclared(forms)
    ensures (formName == UNDEFINED || forall j :: 0 <= j < |forms| ==> FormName(forms[j]) != formName)
      ==> DateFieldFor(forms, formName) == UNDEFINED
    ensures formName != UNDEFINED ==>
      forall j :: (0 <= j < |forms| && FormName(forms[j]) == formName &&
                   (forall m :: j < m < |forms| ==> FormName(forms[m]) != formName)) ==>
        DateFieldFor(forms, formName) == forms[j].elems["formDateField"]
  {
    var es := FormElems(forms);
    forall j | 0 <= j < |forms|
      ensures Carries(es[j], "name", "formDateField", Some(formName)) <==> FormName(forms[j]) == formName
    {
    }
    if formName != UNDEFINED {
      var last := LastCarrier(es, "name", "formDateField", Some(formName));
      forall j | 0 <= j < |forms| && FormName(forms[j]) == formName &&
          (forall m :: j < m < |forms| ==> FormName(forms[m]) != formName)
        ensures DateFieldFor(forms, formName) == forms[j].elems["formDateField"]
      {
        assert last.Some?;
        assert last.value == j;
      }
    }
  }
}
