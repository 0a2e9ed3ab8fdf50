/** The two rewriting passes that run before enrichment: renaming subject
    elements (`replace_fields_in_raw_xml`) and replacing a component id
    element by a loinc code element (`convert_component_id_to_loinc_code`). */
module Renaming {
  import opened Common
  import opened Records

  /** Replace the `source` child by a `target` child with the same text. */
  function Rename(s: Elems, source: string, target: string): Elems
  {
    if source in s then (s - {source})[target := s[source]] else s
  }

  /** One rename applied to every subject. */
  function RenameEach(subjects: seq<Elems>, source: string, target: string): (r: seq<Elems>)
    ensures |r| == |subjects|
  {
    seq(|subjects|, i requires 0 <= i < |subjects| => Rename(subjects[i], source, target))
  }

  /** The renames applied in order, each to every subject. */
  function ApplyRenames(subjects: seq<Elems>, renames: seq<(string, string)>): (r: seq<Elems>)
    ensures |r| == |subjects|
    decreases |renames|
  {
    if renames == [] then subjects
    else
      var (source, target) := renames[0];
      ApplyRenames(RenameEach(subjects, source, target), renames[1..])
  }

  /** `replace_fields_in_raw_xml`, over the already parsed list of
      (source, target) pairs. */
  method ReplaceFieldsInRawXml(data: RawData, renames: seq<(string, string)>)
    modifies data
    ensures data.subjects == ApplyRenames(old(data.subjects), renames)
  {
    var f := 0;
    while f < |renames|
      invariant 0 <= f <= |renames|
      invariant ApplyRenames(old(data.subjects), renames) == ApplyRenames(data.subjects, renames[f..])
    {
      var (source, target) := renames[f];
      RenameSubjects(data, source, target);
      assert renames[f..][1..] == renames[f + 1..];
      f := f + 1;
    }
  }

  /** The inner loop of `replace_fields_in_raw_xml`: one rename, subject by
      subject, in place. */
  method RenameSubjects(data: RawData, source: string, target: string)
    modifies data
    ensures data.subjects == RenameEach(old(data.subjects), source, target)
  {
    var n := 0;
    while n < |data.subjects|
      invariant 0 <= n <= |old(data.subjects)| == |data.subjects|
      invariant forall m :: 0 <= m < n ==> data.subjects[m] == Rename(old(data.subjects)[m], source, target)
      invariant forall m :: n <= m < |data.subjects| ==> data.subjects[m] == old(data.subjects)[m]
    {
      var subject := data.subjects[n];
      if source in subject {
        subject := (subject - {source})[target := subject[source]];
      }
      data.subjects := data.subjects[n := subject];
      n := n + 1;
    }
  }

  /** Renaming moves the text to the new tag, drops the old tag and leaves
      every other child alone; renaming back restores the subject when the
      new tag was not already taken. */
  lemma RenameMovesText(s: Elems, source: string, target: string)
    requires source in s && source != target
    ensures var r := Rename(s, source, target);
      && target in r && r[target] == s[source] && source !in r
      && (forall tag :: tag in s && tag != source && tag != target ==> tag in r && r[tag] == s[tag])
      && (target !in s ==> Rename(r, target, source) == s)
  {
    var r := Rename(s, source, target);
    if target !in s {
      assert Rename(r, target, source).Keys == s.Keys;
    }
  }

  /** One `component` entry of the component-to-loinc document; each part
      is a `findtext`, so it may be missing. */
  datatype Conversion = Conversion(sourceName: Option<string>, sourceValue: Option<string>,
                                   targetName: Option<string>, targetValue: Option<string>)

  /** `if source_name and source_value and target_name`. */
  predicate Usable(c: Conversion)
  {
    c.sourceName.Some? && c.sourceName.value != ""
    && c.sourceValue.Some? && c.sourceValue.value != ""
    && c.targetName.Some? && c.targetName.value != ""
  }

  /** A subject whose source child has the source value gets that child
      replaced by the target child carrying the target value. */
  function Convert(s: Elems, c: Conversion): Elems
    requires Usable(c)
  {
    if Find(s, c.sourceName.value) == Some(c.sourceValue.value)
    then (s - {c.sourceName.value})[c.targetName.value := OrEmpty(c.targetValue)]
    else s
  }

  /** One conversion applied to every subject. */
  function ConvertEach(subjects: seq<Elems>, c: Conversion): (r: seq<Elems>)
    requires Usable(c)
    ensures |r| == |subjects|
  {
    seq(|subjects|, i requires 0 <= i < |subjects| => Convert(subjects[i], c))
  }

  /** The inner loop of `convert_component_id_to_loinc_code`: one
      conversion, subject by subject, in place. */
  method ConvertSubjects(data: RawData, c: Conversion)
    requires Usable(c)
    modifies data
    ensures data.subjects == ConvertEach(old(data.subjects), c)
  {
    var n := 0;
    while n < |data.subjects|
      invariant 0 <= n <= |old(data.subjects)| == |data.subjects|
      invariant forall m :: 0 <= m < n ==> data.subjects[m] == Convert(old(data.subjects)[m], c)
      invariant forall m :: n <= m < |data.subjects| ==> data.subjects[m] == old(data.subjects)[m]
    {
      var subject := data.subjects[n];
      if Find(subject, c.sourceName.value) == Some(c.sourceValue.value) {
        subject := (subject - {c.sourceName.value})[c.targetName.value := OrEmpty(c.targetValue)];
      }
      data.subjects := data.subjects[n := subject];
      n := n + 1;
    }
  }

  /** The conversions in order; the first unusable entry raises, after the
      earlier ones have been applied. */
  datatype ConvertOutcome = ConvertOutcome(subjects: seq<Elems>, ok: bool)

  function ConvertAll(subjects: seq<Elems>, convs: seq<Conversion>): (r: ConvertOutcome)
    ensures |r.subjects| == |subjects|
    ensures r.ok <==> forall k :: 0 <= k < |convs| ==> Usable(convs[k])
    decreases |convs|
  {
    if convs == [] then ConvertOutcome(subjects, true)
    else if !Usable(convs[0]) then ConvertOutcome(subjects, false)
    else
      var r := ConvertAll(ConvertEach(subjects, convs[0]), convs[1..]);
      assert forall k :: 1 <= k < |convs| ==> convs[k] == convs[1..][k - 1];
      r
  }

  /** `convert_component_id_to_loinc_code`, over the parsed entries. */
  method ConvertComponentIdToLoincCode(data: RawData, convs: seq<Conversion>) returns (ok: Result<()>)
    modifies data
    ensures var r := ConvertAll(old(data.subjects), convs);
      data.subjects == r.subjects && (ok.Ok? <==> r.ok)
  {
    var k := 0;
    while k < |convs|
      invariant 0 <= k <= |convs|
      invariant ConvertAll(old(data.subjects), convs) == ConvertAll(data.subjects, convs[k..])
    {
      var c := convs[k];
      if !Usable(c) {
        assert ConvertAll(data.subjects, convs[k..]) == ConvertOutcome(data.subjects, false);
        return Err("Elements source/name and Source/value are not present in the component_to_loinc_code xml");
      }
      ghost var cur := data.subjects;
      assert convs[k..][1..] == convs[k + 1..];
      assert ConvertAll(cur, convs[k..]) == ConvertAll(ConvertEach(cur, c), convs[k + 1..]);
      ConvertSubjects(data, c);
      k := k + 1;
    }
    ok := Ok(());
  }
}
