/** The raw data tree: a `study` root whose children are `subject` elements,
    one per lab result, and the two reference documents the passes consult.
    An element's children are kept as a map from tag to text; an element
    whose text is None reads as "". */
module Records {
  import opened Common

  /** The child elements of one XML element, by tag, with their text. */
  type Elems = map<string, string>

  /** The sentinel every failed lookup writes. */
  const UNDEFINED := "undefined"

  /** `element.findtext(tag)`: None when there is no such child. */
  function Find(e: Elems, tag: string): Option<string>
  {
    if tag in e then Some(e[tag]) else None
  }

  /** `element.find(tag).text` with a missing child read as "". */
  function Text(e: Elems, tag: string): string
  {
    OrEmpty(Find(e, tag))
  }

  /** A `form` element of the form-events document: its leaf children
      (name, formDateField, formCompletedFieldName, ...) and the names of
      its `event` children, in document order. */
  datatype FormDef = FormDef(elems: Elems, events: seq<string>)

  function FormName(f: FormDef): string
  {
    Text(f.elems, "name")
  }

  /** The leaf children of every form, for the generic lookup pass. */
  function FormElems(forms: seq<FormDef>): (r: seq<Elems>)
    ensures |r| == |forms|
    ensures forall i :: 0 <= i < |forms| ==> r[i] == forms[i].elems
  {
    seq(|forms|, i requires 0 <= i < |forms| => forms[i].elems)
  }

  /** The raw data tree, which every pass updates in place. */
  class RawData {
    var subjects: seq<Elems>

    constructor (subjects: seq<Elems>)
      ensures this.subjects == subjects
    {
      this.subjects := subjects;
    }
  }
}
