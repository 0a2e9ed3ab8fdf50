/** The mapping part of `research_id_to_redcap_id_converter`: the remote
    service's list of (research id, record id) items becomes a dictionary,
    and every subject's STUDY_ID is replaced by the record id, subjects
    with an unknown research id being removed from the tree. */
module Remap {
  import opened Common
  import opened Records

  /** The position of the last item whose research id is `key`; a later
      item overrides an earlier one. */
  function LastItem(items: seq<Elems>, researchField: string, key: string): (r: Option<nat>)
    ensures r.Some? ==> (r.value < |items| && Find(items[r.value], researchField) == Some(key)
      && forall j :: r.value < j < |items| ==> Find(items[j], researchField) != Some(key))
    ensures r.None? ==> forall j :: 0 <= j < |items| ==> Find(items[j], researchField) != Some(key)
    decreases |items|
  {
    if items == [] then None
    else if Find(items[|items| - 1], researchField) == Some(key) then Some(|items| - 1)
    else LastItem(items[..|items| - 1], researchField, key)
  }

  /** `redcap_dict`: items with a missing or empty research id are ignored;
      a missing record id reads as "". */
  function RedcapDict(items: seq<Elems>, researchField: string, redcapField: string): (d: map<string, string>)
    ensures forall key :: key in d <==> key != "" && LastItem(items, researchField, key).Some?
    ensures forall key :: key in d ==> d[key] == Text(items[LastItem(items, researchField, key).value], redcapField)
    decreases |items|
  {
    if items == [] then map[]
    else
      var pre := RedcapDict(items[..|items| - 1], researchField, redcapField);
      var item := items[|items| - 1];
      var researchId := Find(item, researchField);
      if researchId.Some? && researchId.value != "" then pre[researchId.value := Text(item, redcapField)]
      else pre
  }

  /** What happens to one subject: None when it is removed. */
  function RemapSubject(s: Elems, d: map<string, string>): Option<Elems>
  {
    var studyId := Find(s, "STUDY_ID");
    if studyId.Some? && studyId.value != "" && studyId.value in d then Some(s["STUDY_ID" := d[studyId.value]])
    else if studyId.Some? && studyId.value != "" then None
    else Some(s)
  }

  function RemapSubjects(subjects: seq<Elems>, d: map<string, string>): seq<Elems>
    decreases |subjects|
  {
    if subjects == [] then []
    else
      RemapSubjects(subjects[..|subjects| - 1], d)
      + match RemapSubject(subjects[|subjects| - 1], d)
        case None => []
        case Some(s) => [s]
  }

  /** A subject whose research id is given but not known. */
  predicate Unknown(s: Elems, d: map<string, string>)
  {
    "STUDY_ID" in s && s["STUDY_ID"] != "" && s["STUDY_ID"] !in d
  }

  function CountUnknown(subjects: seq<Elems>, d: map<string, string>): nat
    decreases |subjects|
  {
    if subjects == [] then 0
    else CountUnknown(subjects[..|subjects| - 1], d) + (if Unknown(subjects[|subjects| - 1], d) then 1 else 0)
  }

  /** A kept subject as it leaves the pass: a known research id replaced by
      its record id, a missing or empty one left alone. */
  function Renumbered(s: Elems, d: map<string, string>): Elems
    requires !Unknown(s, d)
  {
    if "STUDY_ID" in s && s["STUDY_ID"] != "" then s["STUDY_ID" := d[s["STUDY_ID"]]] else s
  }

  /** The positions of the subjects the pass keeps, in document order. */
  function KeptIndices(subjects: seq<Elems>, d: map<string, string>): (idx: seq<nat>)
    ensures forall k :: 0 <= k < |idx| ==> idx[k] < |subjects|
    decreases |subjects|
  {
    if subjects == [] then []
    else
      var pre := KeptIndices(subjects[..|subjects| - 1], d);
      if Unknown(subjects[|subjects| - 1], d) then pre else pre + [|subjects| - 1]
  }

  /** The kept positions are increasing and are exactly those of the
      subjects whose research id is known or not given. */
  lemma {:induction false} KeptIndicesSpec(subjects: seq<Elems>, d: map<string, string>)
    ensures var idx := KeptIndices(subjects, d);
      && |idx| == |subjects| - CountUnknown(subjects, d)
      && (forall k, k' :: 0 <= k < k' < |idx| ==> idx[k] < idx[k'])
      && (forall j :: 0 <= j < |subjects| ==> (j in idx <==> !Unknown(subjects[j], d)))
    decreases |subjects|
  {
    if subjects != [] {
      var pre := subjects[..|subjects| - 1];
      KeptIndicesSpec(pre, d);
      assert forall j :: 0 <= j < |pre| ==> pre[j] == subjects[j];
    }
  }

  /** The k-th subject of the remapped list is the k-th kept subject,
      renumbered. */
  lemma {:induction false} RemapSubjectsKept(subjects: seq<Elems>, d: map<string, string>)
    ensures var r := RemapSubjects(subjects, d);
      var idx := KeptIndices(subjects, d);
      |r| == |idx|
      && forall k :: 0 <= k < |r| ==> !Unknown(subjects[idx[k]], d) && r[k] == Renumbered(subjects[idx[k]], d)
    decreases |subjects|
  {
    if subjects != [] {
      var pre := subjects[..|subjects| - 1];
      var s := subjects[|subjects| - 1];
      RemapSubjectsKept(pre, d);
      assert forall j :: 0 <= j < |pre| ==> pre[j] == subjects[j];
      if !Unknown(s, d) {
        assert RemapSubject(s, d) == Some(Renumbered(s, d));
      }
    }
  }

  /** The remapped list has one subject per subject with a known or no
      research id, in the original order, and none for a subject whose
      research id is unknown; each kept subject is renumbered through the
      dictionary, so a given research id becomes the record id it maps to. */
  lemma RemapSubjectsSpec(subjects: seq<Elems>, d: map<string, string>)
    ensures var r := RemapSubjects(subjects, d);
      var idx := KeptIndices(subjects, d);
      && |r| == |idx| == |subjects| - CountUnknown(subjects, d)
      && (forall k, k' :: 0 <= k < k' < |idx| ==> idx[k] < idx[k'])
      && (forall j :: 0 <= j < |subjects| ==> (j in idx <==> !Unknown(subjects[j], d)))
      && (forall k :: 0 <= k < |r| ==> !Unknown(subjects[idx[k]], d) && r[k] == Renumbered(subjects[idx[k]], d))
      && (forall k :: 0 <= k < |r| ==> Find(r[k], "STUDY_ID") in {None, Some("")} || r[k]["STUDY_ID"] in d.Values)
  {
    KeptIndicesSpec(subjects, d);
    RemapSubjectsKept(subjects, d);
    var r := RemapSubjects(subjects, d);
    var idx := KeptIndices(subjects, d);
    forall k | 0 <= k < |r|
      ensures Find(r[k], "STUDY_ID") in {None, Some("")} || r[k]["STUDY_ID"] in d.Values
    {
      var s := subjects[idx[k]];
      if "STUDY_ID" in s && s["STUDY_ID"] != "" {
        assert r[k]["STUDY_ID"] == d[s["STUDY_ID"]];
      }
    }
  }

  /** Remapping a subject only rewrites its STUDY_ID. */
  lemma RemapSubjectChangesOnlyTheId(s: Elems, d: map<string, string>)
    requires RemapSubject(s, d).Some?
    ensures var s' := RemapSubject(s, d).value;
      s'.Keys == s.Keys && forall tag :: tag in s && tag != "STUDY_ID" ==> s'[tag] == s[tag]
  {
  }

  /** A registry in which research id "999-0059" is record "1": a subject
      with that id is renumbered, one with an unregistered id is dropped
      and one with an empty id is kept as it is. */
  lemma RegistryExample()
    ensures var d := RedcapDict([map["dm_subjid" := "999-0059", "record_id" := "1"]], "dm_subjid", "record_id");
      && d == map["999-0059" := "1"]
      && RemapSubject(map["STUDY_ID" := "999-0059"], d) == Some(map["STUDY_ID" := "1"])
      && RemapSubject(map["STUDY_ID" := "999-0060"], d) == None
      && RemapSubject(map["STUDY_ID" := ""], d) == Some(map["STUDY_ID" := ""])
  {
    var item := map["dm_subjid" := "999-0059", "record_id" := "1"];
    var items := [item];
    assert items[..0] == [];
    assert Find(item, "dm_subjid") == Some("999-0059");
    assert Text(item, "record_id") == "1";
    assert "999-0060" != "999-0059";
    var d := RedcapDict(items, "dm_subjid", "record_id");
    assert d == map["999-0059" := "1"];
    var s := map["STUDY_ID" := "999-0059"];
    assert s["STUDY_ID" := d["999-0059"]] == map["STUDY_ID" := "1"];
  }

  /** The mapping part of `research_id_to_redcap_id_converter`, given the
      two field names read from the mapping document and the items of the
      service's answer. */
  method ResearchIdToRedcapIdConverter(data: RawData, researchField: Option<string>, redcapField: Option<string>,
                                       items: seq<Elems>)
    returns (r: Result<()>)
    modifies data
    ensures r.Err? <==> researchField in {None, Some("")} || redcapField in {None, Some("")}
    ensures r.Err? ==> data.subjects == old(data.subjects)
    ensures r.Ok? ==> data.subjects == RemapSubjects(old(data.subjects), RedcapDict(items, researchField.value, redcapField.value))
  {
    if researchField.None? || researchField.value == "" {
      return Err("research_id_field_name tag is not present");
    }
    if redcapField.None? || redcapField.value == "" {
      return Err("redcap_id_field_name tag is not present");
    }
    var redcapDict: map<string, string> := map[];
    var n := 0;
    while n < |items|
      invariant 0 <= n <= |items|
      invariant redcapDict == RedcapDict(items[..n], researchField.value, redcapField.value)
    {
      assert items[..n + 1][..n] == items[..n];
      var researchId := Find(items[n], researchField.value);
      if researchId.Some? && researchId.value != "" {
        redcapDict := redcapDict[researchId.value := Text(items[n], redcapField.value)];
      }
      n := n + 1;
    }
    assert items[..n] == items;

    ghost var subjects := data.subjects;
    var kept: seq<Elems> := [];
    var i := 0;
    while i < |data.subjects|
      invariant 0 <= i <= |subjects| && data.subjects == subjects
      invariant kept == RemapSubjects(subjects[..i], redcapDict)
    {
      assert subjects[..i + 1][..i] == subjects[..i];
      var subject := data.subjects[i];
      var studyId := Find(subject, "STUDY_ID");
      if studyId.Some? && studyId.value != "" && studyId.value in redcapDict {
        kept := kept + [subject["STUDY_ID" := redcapDict[studyId.value]]];
      } else if studyId.Some? && studyId.value != "" {
        // an unknown research id: the subject is removed
      } else {
        kept := kept + [subject];
      }
      i := i + 1;
    }
    assert subjects[..i] == subjects;
    data.subjects := kept;
    r := Ok(());
  }
}
