/** `updateStatusFieldValueInPersonFormEventTree`, `setStat` and
    `set_status_for`: in every event that holds some value, each blank
    field that the translation table ties to a status field sets that
    status field to the table's status value. */
module Status {
  import opened Common
  import opened Records
  import opened Tree
  import opened Merge

  const FORM_NAME := "redcapFormName"
  const STATUS_NAME := "redcapStatusFieldName"
  const STATUS_VALUE := "redcapStatusFieldValue"

  /** The texts of the redcapStatusFieldName elements that have one. */
  function StatusNames(components: seq<Elems>): seq<string>
    decreases |components|
  {
    if components == [] then []
    else
      var c := components[|components| - 1];
      StatusNames(components[..|components| - 1]) + (if STATUS_NAME in c && c[STATUS_NAME] != "" then [c[STATUS_NAME]] else [])
  }

  /** A tag whose text becomes a key of the status dictionary. */
  predicate Keyed(tag: string)
  {
    tag != FORM_NAME && tag != STATUS_NAME && tag != STATUS_VALUE
  }

  /** The texts a component enters into the dictionary. */
  function Entries(c: Elems): set<string>
  {
    set tag | tag in c && Keyed(tag) :: c[tag]
  }

  /** The status field and value a component ties its other fields to;
      a missing element reads as "". */
  function StatusOf(c: Elems): (string, string)
  {
    (Text(c, STATUS_NAME), Text(c, STATUS_VALUE))
  }

  /** The status dictionary: every text of a component's other children is
      tied to that component's status field and value, the first component
      to mention a text winning. */
  function StatusTable(components: seq<Elems>): map<string, (string, string)>
    decreases |components|
  {
    if components == [] then map[]
    else
      var d := StatusTable(components[..|components| - 1]);
      var c := components[|components| - 1];
      map t | t in d.Keys + Entries(c) :: if t in d then d[t] else StatusOf(c)
  }

  /** A text is a key exactly when some component enters it, and it is tied
      to the first such component's status field and value. */
  lemma {:induction false} StatusTableMeans(components: seq<Elems>, x: string)
    ensures x in StatusTable(components) <==> exists k :: 0 <= k < |components| && x in Entries(components[k])
    ensures x in StatusTable(components) ==>
      exists k :: (0 <= k < |components| && x in Entries(components[k])
        && StatusTable(components)[x] == StatusOf(components[k])
        && forall k' :: 0 <= k' < k ==> x !in Entries(components[k']))
    decreases |components|
  {
    if components != [] {
      var pre := components[..|components| - 1];
      StatusTableMeans(pre, x);
      assert forall k :: 0 <= k < |pre| ==> pre[k] == components[k];
      if x !in StatusTable(pre) && x in Entries(components[|components| - 1]) {
        assert forall k' :: 0 <= k' < |pre| ==> x !in Entries(components[k']);
      }
    }
  }

  /** Every status field a text is tied to, unless it is "", is among the
      status names. */
  predicate Consistent(d: map<string, (string, string)>, names: seq<string>)
  {
    forall x :: x in d && d[x].0 != "" ==> d[x].0 in names
  }

  lemma {:induction false} StatusTableConsistent(components: seq<Elems>)
    ensures Consistent(StatusTable(components), StatusNames(components))
    decreases |components|
  {
    if components != [] {
      var pre := components[..|components| - 1];
      StatusTableConsistent(pre);
      var c := components[|components| - 1];
      var d := StatusTable(components);
      forall x | x in d && d[x].0 != "" ensures d[x].0 in StatusNames(components) {
        if x in StatusTable(pre) {
          assert d[x] == StatusTable(pre)[x];
          assert d[x].0 in StatusNames(pre);
        } else {
          assert d[x] == StatusOf(c);
        }
      }
    }
  }

  /** A field `setStat` acts on: blank, not itself a status field, and tied
      to a status field. */
  predicate Source(f: Field, d: map<string, (string, string)>, names: seq<string>)
  {
    f.value == "" && f.name !in names && f.name in d && d[f.name].0 != ""
  }

  /** `set_status_for`: the first field with the status field's name gets the
      status value. */
  function SetStatusFor(fs: seq<Field>, status: (string, string)): (r: seq<Field>)
    ensures SameFieldNames(fs, r)
  {
    match FirstField(fs, status.0)
    case None => fs
    case Some(l) => fs[l := Field(status.0, status.1)]
  }

  /** `setStat` after its loop has visited the first `n` fields; each field
      is examined as the loop finds it, after the earlier updates. */
  function SetStat(fs: seq<Field>, d: map<string, (string, string)>, names: seq<string>, n: nat): (r: seq<Field>)
    requires n <= |fs|
    ensures SameFieldNames(fs, r)
    decreases n
  {
    if n == 0 then fs
    else
      var cur := SetStat(fs, d, names, n - 1);
      if Source(cur[n - 1], d, names) then SetStatusFor(cur, d[cur[n - 1].name]) else cur
  }

  /** While the loop runs, a source field keeps its value: only status
      fields are written, and they are never sources. */
  lemma {:induction false} SetStatKeepsSources(fs: seq<Field>, d: map<string, (string, string)>, names: seq<string>, n: nat, l: nat)
    requires Consistent(d, names) && n <= |fs| && l < |fs|
    ensures var cur := SetStat(fs, d, names, n);
      cur[l] == fs[l] || fs[l].name in names
    decreases n
  {
    if n > 0 {
      SetStatKeepsSources(fs, d, names, n - 1, l);
      var cur := SetStat(fs, d, names, n - 1);
      if Source(cur[n - 1], d, names) {
        var status := d[cur[n - 1].name];
        match FirstField(cur, status.0)
        case None =>
        case Some(m) =>
          if m == l {
            assert cur[l].name == status.0 && status.0 in names;
          }
      }
    }
  }

  /** Every value the loop changes belongs to a status field, and is the
      status value some blank field of the event ties it to. */
  lemma {:induction false} SetStatJustified(fs: seq<Field>, d: map<string, (string, string)>, names: seq<string>, n: nat, l: nat)
    requires Consistent(d, names) && n <= |fs| && l < |fs|
    ensures var r := SetStat(fs, d, names, n);
      r[l].value != fs[l].value ==>
        fs[l].name in names
        && exists m :: 0 <= m < |fs| && Source(fs[m], d, names) && d[fs[m].name] == (fs[l].name, r[l].value)
    decreases n
  {
    if n > 0 {
      SetStatJustified(fs, d, names, n - 1, l);
      var cur := SetStat(fs, d, names, n - 1);
      var r := SetStat(fs, d, names, n);
      if Source(cur[n - 1], d, names) {
        SetStatKeepsSources(fs, d, names, n - 1, n - 1);
        assert cur[n - 1] == fs[n - 1];
        var status := d[cur[n - 1].name];
        match FirstField(cur, status.0)
        case None =>
        case Some(m) =>
          if m == l {
            assert r[l] == Field(status.0, status.1);
            assert fs[l].name == status.0;
            assert Source(fs[n - 1], d, names) && d[fs[n - 1].name] == (fs[l].name, r[l].value);
          } else {
            assert r[l] == cur[l];
          }
      }
    }
  }

  lemma SetStatusForFirst(fs: seq<Field>, status: (string, string), c: nat)
    requires FirstField(fs, status.0) == Some(c)
    ensures SetStatusFor(fs, status)[c].value == status.1
  {
  }

  lemma SetStatusForOther(fs: seq<Field>, status: (string, string), c: nat)
    requires c < |fs| && fs[c].name != status.0
    ensures SetStatusFor(fs, status)[c] == fs[c]
  {
  }

  /** Visiting field n - 1 leaves field c alone unless field n - 1 is a
      source tied to c's name. */
  lemma SetStatStepKeeps(fs: seq<Field>, d: map<string, (string, string)>, names: seq<string>, n: nat, c: nat)
    requires Consistent(d, names) && 0 < n <= |fs| && c < |fs|
    requires Source(fs[n - 1], d, names) ==> d[fs[n - 1].name].0 != fs[c].name
    ensures SetStat(fs, d, names, n)[c] == SetStat(fs, d, names, n - 1)[c]
  {
    var cur := SetStat(fs, d, names, n - 1);
    SetStatKeepsSources(fs, d, names, n - 1, n - 1);
    if Source(cur[n - 1], d, names) {
      assert cur[n - 1] == fs[n - 1];
      SetStatusForOther(cur, d[cur[n - 1].name], c);
    }
  }

  /** Visiting source m writes its status value into the first field of its
      status field's name. */
  lemma SetStatStepWrites(fs: seq<Field>, d: map<string, (string, string)>, names: seq<string>, m: nat, c: nat)
    requires Consistent(d, names) && m < |fs|
    requires Source(fs[m], d, names) && FirstField(fs, d[fs[m].name].0) == Some(c)
    ensures SetStat(fs, d, names, m + 1)[c].value == d[fs[m].name].1
  {
    var cur := SetStat(fs, d, names, m);
    FirstFieldSameNames(fs, cur, d[fs[m].name].0);
    SetStatKeepsSources(fs, d, names, m, m);
    assert cur[m] == fs[m];
    SetStatusForFirst(cur, d[fs[m].name], c);
  }

  /** The status field a source ties to ends with the status value of the
      last source tied to the same status field: the loop writes it when it
      reaches that source, and every later write goes to another field. */
  lemma {:induction false} SetStatLastSourceWins(fs: seq<Field>, d: map<string, (string, string)>, names: seq<string>,
                                                 m: nat, n: nat)
    requires Consistent(d, names) && m < n <= |fs|
    requires Source(fs[m], d, names) && FirstField(fs, d[fs[m].name].0).Some?
    requires forall m' :: m < m' < |fs| && Source(fs[m'], d, names) ==> d[fs[m'].name].0 != d[fs[m].name].0
    ensures SetStat(fs, d, names, n)[FirstField(fs, d[fs[m].name].0).value].value == d[fs[m].name].1
    decreases n
  {
    var c := FirstField(fs, d[fs[m].name].0).value;
    if n - 1 == m {
      SetStatStepWrites(fs, d, names, m, c);
    } else {
      SetStatLastSourceWins(fs, d, names, m, n - 1);
      SetStatStepKeeps(fs, d, names, n, c);
    }
  }

  /** `str(value.text)`, with a text reading "None" treated like a missing
      one: the concatenated values of an event. */
  function FieldValues(fs: seq<Field>): string
    decreases |fs|
  {
    if fs == [] then ""
    else
      var v := fs[|fs| - 1].value;
      FieldValues(fs[..|fs| - 1]) + (if v == "None" then "" else v)
  }

  /** An event holds some value exactly when one of its fields has a value
      other than "" and "None". */
  lemma {:induction false} FieldValuesEmpty(fs: seq<Field>)
    ensures FieldValues(fs) == "" <==> forall l :: 0 <= l < |fs| ==> fs[l].value in {"", "None"}
    decreases |fs|
  {
    if fs != [] {
      var pre := fs[..|fs| - 1];
      FieldValuesEmpty(pre);
      assert forall l :: 0 <= l < |pre| ==> pre[l] == fs[l];
      var v := fs[|fs| - 1].value;
      if v !in {"", "None"} {
        assert |FieldValues(fs)| >= |v|;
      }
    }
  }

  /** One event: untouched when it holds no value. */
  function UpdateEvent(e: Event, d: map<string, (string, string)>, names: seq<string>): Event
  {
    if FieldValues(e.fields) == "" then e else e.(fields := SetStat(e.fields, d, names, |e.fields|))
  }

  function UpdateForm(f: Form, d: map<string, (string, string)>, names: seq<string>): (r: Form)
    ensures r.name == f.name && |r.events| == |f.events|
  {
    f.(events := seq(|f.events|, k requires 0 <= k < |f.events| => UpdateEvent(f.events[k], d, names)))
  }

  function UpdatePerson(p: Person, d: map<string, (string, string)>, names: seq<string>): (r: Person)
    ensures r.studyId == p.studyId && |r.forms| == |p.forms|
  {
    p.(forms := seq(|p.forms|, j requires 0 <= j < |p.forms| => UpdateForm(p.forms[j], d, names)))
  }

  /** Every event of the tree, each on its own. */
  function UpdateTree(persons: seq<Person>, d: map<string, (string, string)>, names: seq<string>): (r: seq<Person>)
    ensures |r| == |persons|
  {
    seq(|persons|, i requires 0 <= i < |persons| => UpdatePerson(persons[i], d, names))
  }

  /** The status fill keeps every node, name and status of the tree. */
  lemma UpdateTreeShape(persons: seq<Person>, d: map<string, (string, string)>, names: seq<string>)
    ensures SameShape(persons, UpdateTree(persons, d, names))
  {
    var r := UpdateTree(persons, d, names);
    forall i | 0 <= i < |persons| ensures SamePersonShape(persons[i], r[i]) {
      forall j | 0 <= j < |persons[i].forms| ensures SameFormShape(persons[i].forms[j], r[i].forms[j]) {
        forall k | 0 <= k < |persons[i].forms[j].events|
          ensures SameEventShape(persons[i].forms[j].events[k], r[i].forms[j].events[k])
        {
          assert r[i].forms[j].events[k] == UpdateEvent(persons[i].forms[j].events[k], d, names);
        }
      }
    }
  }

  /** A field value the fill changes belongs to a status field of an event
      that holds some value, and is the status value the translation table
      ties to some blank, non-status field of that event. */
  lemma UpdateTreeJustified(persons: seq<Person>, components: seq<Elems>, i: nat, j: nat, k: nat, l: nat)
    requires i < |persons| && j < |persons[i].forms| && k < |persons[i].forms[j].events|
    requires l < |persons[i].forms[j].events[k].fields|
    ensures var d := StatusTable(components);
      var names := StatusNames(components);
      var e := persons[i].forms[j].events[k];
      var e' := UpdateTree(persons, d, names)[i].forms[j].events[k];
      |e'.fields| == |e.fields|
      && (e'.fields[l].value != e.fields[l].value ==>
            && (exists l' :: 0 <= l' < |e.fields| && e.fields[l'].value !in {"", "None"})
            && e.fields[l].name in names
            && exists m :: 0 <= m < |e.fields| && Source(e.fields[m], d, names)
                           && d[e.fields[m].name] == (e.fields[l].name, e'.fields[l].value))
  {
    var d := StatusTable(components);
    var names := StatusNames(components);
    var e := persons[i].forms[j].events[k];
    assert UpdateTree(persons, d, names)[i].forms[j].events[k] == UpdateEvent(e, d, names);
    StatusTableConsistent(components);
    FieldValuesEmpty(e.fields);
    SetStatJustified(e.fields, d, names, |e.fields|, l);
  }

  /** One component's entries, tied to `status` unless already present. */
  function WithEntries(d: map<string, (string, string)>, c: Elems, status: (string, string)): map<string, (string, string)>
  {
    map t | t in d.Keys + Entries(c) :: if t in d then d[t] else status
  }

  /** The loop over one component's children. */
  method AddEntries(d: map<string, (string, string)>, c: Elems, status: (string, string))
    returns (d': map<string, (string, string)>)
    ensures d' == WithEntries(d, c, status)
  {
    d' := d;
    var tags := c.Keys;
    while tags != {}
      invariant tags <= c.Keys
      invariant forall t :: t in d' <==> t in d || exists tag :: tag in c.Keys - tags && Keyed(tag) && c[tag] == t
      invariant forall t :: t in d' ==> d'[t] == if t in d then d[t] else status
      decreases |tags|
    {
      var tag :| tag in tags;
      if Keyed(tag) && c[tag] !in d' {
        d' := d'[c[tag] := status];
      }
      tags := tags - {tag};
    }
    assert d'.Keys == WithEntries(d, c, status).Keys;
  }

  /** The translation table's status dictionary, loop by loop. */
  method BuildStatusTable(components: seq<Elems>) returns (d: map<string, (string, string)>)
    ensures d == StatusTable(components)
  {
    d := map[];
    var n := 0;
    while n < |components|
      invariant 0 <= n <= |components|
      invariant d == StatusTable(components[..n])
    {
      assert components[..n + 1][..n] == components[..n];
      var c := components[n];
      d := AddEntries(d, c, (Text(c, STATUS_NAME), Text(c, STATUS_VALUE)));
      n := n + 1;
    }
    assert components[..n] == components;
  }

  /** `set_status_for`, loop over the event's fields. */
  method SetStatusForLoop(fs: seq<Field>, status: (string, string)) returns (r: seq<Field>)
    ensures r == SetStatusFor(fs, status)
  {
    var l := 0;
    while l < |fs|
      invariant 0 <= l <= |fs|
      invariant FirstField(fs[..l], status.0).None?
    {
      assert fs[..l + 1][..l] == fs[..l];
      if fs[l].name == status.0 {
        FirstFieldPrefix(fs, l + 1, status.0);
        return fs[l := Field(status.0, status.1)];
      }
      l := l + 1;
    }
    assert fs[..l] == fs;
    r := fs;
  }

  /** The first field of a name in a prefix is the first in the whole. */
  lemma FirstFieldPrefix(fs: seq<Field>, n: nat, name: string)
    requires n <= |fs| && FirstField(fs[..n], name).Some?
    ensures FirstField(fs, name) == FirstField(fs[..n], name)
  {
    var c := FirstField(fs[..n], name).value;
    assert FieldNames(fs[..n])[c] == fs[c].name;
    forall l | 0 <= l < c ensures FieldNames(fs)[l] != name {
      assert FieldNames(fs[..n])[l] == fs[l].name;
    }
    FirstIndexOf(FieldNames(fs), name, c);
  }

  /** `setStat`, loop over the event's fields. */
  method SetStatLoop(fs: seq<Field>, d: map<string, (string, string)>, names: seq<string>) returns (r: seq<Field>)
    ensures r == SetStat(fs, d, names, |fs|)
  {
    r := fs;
    var n := 0;
    while n < |fs|
      invariant 0 <= n <= |fs|
      invariant r == SetStat(fs, d, names, n)
    {
      var field := r[n];
      if field.value == "" && field.name !in names && field.name in d && d[field.name].0 != "" {
        r := SetStatusForLoop(r, d[field.name]);
      }
      n := n + 1;
    }
  }

  /** The loop concatenating an event's values. */
  method FieldValuesLoop(fs: seq<Field>) returns (values: string)
    ensures values == FieldValues(fs)
  {
    values := "";
    var n := 0;
    while n < |fs|
      invariant 0 <= n <= |fs|
      invariant values == FieldValues(fs[..n])
    {
      assert fs[..n + 1][..n] == fs[..n];
      if fs[n].value == "None" {
        values := values + "";
      } else {
        values := values + fs[n].value;
      }
      n := n + 1;
    }
    assert fs[..n] == fs;
  }

  method UpdateEventMethod(e: Event, d: map<string, (string, string)>, names: seq<string>) returns (e': Event)
    ensures e' == UpdateEvent(e, d, names)
  {
    var values := FieldValuesLoop(e.fields);
    if values == "" {
      return e;
    }
    var fields := SetStatLoop(e.fields, d, names);
    e' := e.(fields := fields);
  }

  method UpdateFormMethod(f: Form, d: map<string, (string, string)>, names: seq<string>) returns (f': Form)
    ensures f' == UpdateForm(f, d, names)
  {
    var events: seq<Event> := [];
    var k := 0;
    while k < |f.events|
      invariant 0 <= k <= |f.events| && |events| == k
      invariant forall k' :: 0 <= k' < k ==> events[k'] == UpdateEvent(f.events[k'], d, names)
    {
      var e := UpdateEventMethod(f.events[k], d, names);
      events := events + [e];
      k := k + 1;
    }
    f' := f.(events := events);
  }

  method UpdatePersonMethod(p: Person, d: map<string, (string, string)>, names: seq<string>) returns (p': Person)
    ensures p' == UpdatePerson(p, d, names)
  {
    var forms: seq<Form> := [];
    var j := 0;
    while j < |p.forms|
      invariant 0 <= j <= |p.forms| && |forms| == j
      invariant forall j' :: 0 <= j' < j ==> forms[j'] == UpdateForm(p.forms[j'], d, names)
    {
      var f := UpdateFormMethod(p.forms[j], d, names);
      forms := forms + [f];
      j := j + 1;
    }
    p' := p.(forms := forms);
  }

  /** `updateStatusFieldValueInPersonFormEventTree`: the status names and
      the dictionary are read from the translation table, then every event
      is visited. */
  method UpdateStatusFieldValueInPersonFormEventTree(tree: PersonFormEventTree, components: seq<Elems>)
    modifies tree
    ensures tree.persons == UpdateTree(old(tree.persons), StatusTable(components), StatusNames(components))
  {
    var names := StatusNames(components);
    var d := BuildStatusTable(components);
    ghost var start := tree.persons;
    var i := 0;
    while i < |tree.persons|
      invariant 0 <= i <= |tree.persons| == |start|
      invariant forall i' :: 0 <= i' < i ==> tree.persons[i'] == UpdatePerson(start[i'], d, names)
      invariant forall i' :: i <= i' < |start| ==> tree.persons[i'] == start[i']
    {
      var p := UpdatePersonMethod(tree.persons[i], d, names);
      tree.persons := tree.persons[i := p];
      i := i + 1;
    }
  }
}
