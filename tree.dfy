/** The person-form-event tree: one `person` per subject, carrying a copy of
    every form of the study, each form carrying its events, each event its
    status and its fields (a name and a value). An element whose text is
    None reads as "". */
module Tree {
  import opened Common

  datatype Field = Field(name: string, value: string)

  /** `status` is None when the event has no status element. */
  datatype Event = Event(name: string, status: Option<string>, fields: seq<Field>)

  datatype Form = Form(name: string, events: seq<Event>)

  /** `studyId` is None when the person has no study_id element. */
  datatype Person = Person(studyId: Option<string>, forms: seq<Form>)

  const UNSENT := "unsent"
  const SENT := "sent"

  /** The tree, which the merge, the status fill and the upload update in
      place. */
  class PersonFormEventTree {
    var persons: seq<Person>

    constructor (persons: seq<Person>)
      ensures this.persons == persons
    {
      this.persons := persons;
    }
  }

  function FieldNames(fs: seq<Field>): (r: seq<string>)
    ensures |r| == |fs| && forall l :: 0 <= l < |fs| ==> r[l] == fs[l].name
  {
    seq(|fs|, l requires 0 <= l < |fs| => fs[l].name)
  }

  function FormNames(forms: seq<Form>): (r: seq<string>)
    ensures |r| == |forms| && forall j :: 0 <= j < |forms| ==> r[j] == forms[j].name
  {
    seq(|forms|, j requires 0 <= j < |forms| => forms[j].name)
  }

  function EventNames(events: seq<Event>): (r: seq<string>)
    ensures |r| == |events| && forall k :: 0 <= k < |events| ==> r[k] == events[k].name
  {
    seq(|events|, k requires 0 <= k < |events| => events[k].name)
  }

  predicate SameFieldNames(a: seq<Field>, b: seq<Field>)
  {
    |a| == |b| && forall l :: 0 <= l < |a| ==> a[l].name == b[l].name
  }

  /** Two events that differ at most in their field values. */
  predicate SameEventShape(a: Event, b: Event)
  {
    a.name == b.name && a.status == b.status && SameFieldNames(a.fields, b.fields)
  }

  predicate SameFormShape(a: Form, b: Form)
  {
    a.name == b.name && |a.events| == |b.events|
    && forall k :: 0 <= k < |a.events| ==> SameEventShape(a.events[k], b.events[k])
  }

  predicate SamePersonShape(a: Person, b: Person)
  {
    a.studyId == b.studyId && |a.forms| == |b.forms|
    && forall j :: 0 <= j < |a.forms| ==> SameFormShape(a.forms[j], b.forms[j])
  }

  /** Two trees with the same nodes, differing at most in field values: no
      node was added, removed or renamed, and no status changed. */
  predicate SameShape(a: seq<Person>, b: seq<Person>)
  {
    |a| == |b| && forall i :: 0 <= i < |a| ==> SamePersonShape(a[i], b[i])
  }

  lemma SameShapeTransitive(a: seq<Person>, b: seq<Person>, c: seq<Person>)
    requires SameShape(a, b) && SameShape(b, c)
    ensures SameShape(a, c)
  {
    forall i | 0 <= i < |a| ensures SamePersonShape(a[i], c[i]) {
      forall j | 0 <= j < |a[i].forms| ensures SameFormShape(a[i].forms[j], c[i].forms[j]) {
        assert SameFormShape(a[i].forms[j], b[i].forms[j]);
        assert SameFormShape(b[i].forms[j], c[i].forms[j]);
      }
    }
  }
}
