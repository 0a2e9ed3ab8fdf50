/** That an upload run leaves nothing out: when it ends without an
    exception, every event that is not marked sent and is not cut off by a
    blank event of its form has been sent, and every form of every person
    has its counter keys in the report. */
module UploadProgress {
  import opened Common
  import opened Tree
  import opened Upload
  import opened UploadRuns

  /** Some request is for the event at (i, j, k). */
  predicate HasRequest(reqs: seq<Request>, i: nat, j: nat, k: nat)
  {
    exists n :: 0 <= n < |reqs| && reqs[n].person == i && reqs[n].form == j && reqs[n].event == k
  }

  /** An event the upload is to send: not marked sent and, with blank events
      skipped, holding data with no blank unsent event before it in its
      form. */
  predicate Eligible(u: Setup, i: nat, j: nat, k: nat)
  {
    && ValidEvent(u.orig, i, j, k)
    && u.orig[i].forms[j].events[k].status != Some(SENT)
    && SkipPrefix(u, i, j, k)
    && (u.skipBlanks ==> ContainsData(u.orig[i].forms[j].events[k].fields))
  }

  /** The `Total_<form>_Forms` key of form j of person i is in the overall
      counters and in the person's own. */
  predicate KeysAt(u: Setup, r: Report, i: nat, j: nat)
    requires i < |u.orig| && j < |u.orig[i].forms| && u.orig[i].studyId.Some?
  {
    var key := FormKey(u.orig[i].forms[j].name);
    key in r.formDetails && key in Subject(r, u.orig[i].studyId.value)
  }

  /** A later state of the same run: more requests after the same ones, and
      no counter key lost. */
  ghost predicate Extends(a: Run, b: Run)
  {
    && |a.requests| <= |b.requests| && b.requests[..|a.requests|] == a.requests
    && (forall key :: key in a.report.formDetails ==> key in b.report.formDetails)
    && (forall sid, key :: key in Subject(a.report, sid) ==> key in Subject(b.report, sid))
  }

  lemma ExtendsTransitive(a: Run, b: Run, c: Run)
    requires Extends(a, b) && Extends(b, c)
    ensures Extends(a, c)
  {
    assert c.requests[..|a.requests|] == c.requests[..|b.requests|][..|a.requests|];
  }

  lemma HasRequestExtends(a: Run, b: Run, i: nat, j: nat, k: nat)
    requires Extends(a, b) && HasRequest(a.requests, i, j, k)
    ensures HasRequest(b.requests, i, j, k)
  {
    var n :| 0 <= n < |a.requests| && a.requests[n].person == i && a.requests[n].form == j && a.requests[n].event == k;
    assert b.requests[n] == b.requests[..|a.requests|][n];
  }

  lemma KeysAtExtends(u: Setup, a: Run, b: Run, i: nat, j: nat)
    requires i < |u.orig| && j < |u.orig[i].forms| && u.orig[i].studyId.Some?
    requires Extends(a, b) && KeysAt(u, a.report, i, j)
    ensures KeysAt(u, b.report, i, j)
  {
  }

  // ---------------------------------------------------------------------
  // Every step extends the run

  lemma DeliverExtends(st: Run, i: nat, j: nat, k: nat, sid: string, key: string, record: map<string, string>,
                       containsData: bool, response: Response)
    ensures var st' := Deliver(st, i, j, k, sid, key, record, containsData, response);
      Extends(st, st') && st'.requests == st.requests + [Request(i, j, k, response)]
  {
    var st' := Deliver(st, i, j, k, sid, key, record, containsData, response);
    assert st'.requests[..|st.requests|] == st.requests;
    if response == Accepted && containsData {
      forall sid', key' | key' in Subject(st.report, sid') ensures key' in Subject(st'.report, sid') {
        assert Subject(st'.report, sid') == Subject(Count(st.report.(errors := st.report.errors), sid, key), sid');
      }
    } else {
      assert forall sid' :: Subject(st'.report, sid') == Subject(st.report, sid');
    }
  }

  lemma EventStepExtends(u: Setup, st: Run, i: nat, j: nat, k: nat)
    requires ValidEvent(u.orig, i, j, k) && u.orig[i].studyId.Some?
    ensures Extends(st, EventStep(u, st, i, j, k).0)
  {
    var e := u.orig[i].forms[j].events[k];
    var sid := u.orig[i].studyId.value;
    var imported := ImportDataJson(map[u.defField := sid], e, u.orig);
    assert st.requests[..|st.requests|] == st.requests;
    if e.status != Some(SENT) && imported.Ok? {
      var record := imported.value.0;
      var containsData := imported.value.1;
      if !(u.skipBlanks && !containsData) {
        DeliverExtends(st, i, j, k, sid, FormKey(u.orig[i].forms[j].name), record, containsData,
                       u.respond(|st.sent|, record));
      }
    }
  }

  lemma {:induction false} EventsFromExtends(u: Setup, st: Run, i: nat, j: nat, k: nat)
    requires i < |u.orig| && j < |u.orig[i].forms| && k <= |u.orig[i].forms[j].events| && u.orig[i].studyId.Some?
    ensures Extends(st, EventsFrom(u, st, i, j, k))
    decreases |u.orig[i].forms[j].events| - k
  {
    assert st.requests[..|st.requests|] == st.requests;
    if st.failure.None? && k < |u.orig[i].forms[j].events| {
      var step := EventStep(u, st, i, j, k);
      EventStepExtends(u, st, i, j, k);
      if !step.1 {
        EventsFromExtends(u, step.0, i, j, k + 1);
        ExtendsTransitive(st, step.0, EventsFrom(u, step.0, i, j, k + 1));
      }
    }
  }

  /** Starting a form adds its counter keys, and loses none. */
  lemma FormStartExtends(u: Setup, st: Run, i: nat, j: nat)
    requires i < |u.orig| && j < |u.orig[i].forms| && u.orig[i].studyId.Some?
    ensures var st' := FormStart(u, st, i, j);
      Extends(st, st') && (st'.failure.None? ==> KeysAt(u, st'.report, i, j))
  {
    assert st.requests[..|st.requests|] == st.requests;
  }

  lemma {:induction false} FormsFromExtends(u: Setup, st: Run, i: nat, j: nat)
    requires i < |u.orig| && j <= |u.orig[i].forms| && u.orig[i].studyId.Some?
    ensures Extends(st, FormsFrom(u, st, i, j))
    decreases |u.orig[i].forms| - j
  {
    assert st.requests[..|st.requests|] == st.requests;
    if st.failure.None? && j < |u.orig[i].forms| {
      var st1 := FormStart(u, st, i, j);
      var st2 := EventsFrom(u, st1, i, j, 0);
      FormStartExtends(u, st, i, j);
      EventsFromExtends(u, st1, i, j, 0);
      FormsFromExtends(u, st2, i, j + 1);
      ExtendsTransitive(st, st1, st2);
      ExtendsTransitive(st, st2, FormsFrom(u, st2, i, j + 1));
    }
  }

  lemma {:induction false} PersonsFromExtends(u: Setup, st: Run, i: nat)
    requires i <= |u.orig|
    ensures Extends(st, PersonsFrom(u, st, i))
    decreases |u.orig| - i
  {
    assert st.requests[..|st.requests|] == st.requests;
    if st.failure.None? && i < |u.orig| {
      var st1 := st.(report := st.report.(totalSubjects := st.report.totalSubjects + 1));
      assert Extends(st, st1) by {
        assert st1.requests[..|st.requests|] == st.requests;
        assert forall sid :: Subject(st1.report, sid) == Subject(st.report, sid);
      }
      var next := PersonStep(u, st, i);
      if u.orig[i].studyId.Some? {
        FormsFromExtends(u, st1, i, 0);
        ExtendsTransitive(st, st1, next);
      } else {
        assert Extends(st1, next) by {
          assert next.requests[..|st1.requests|] == st1.requests;
        }
        ExtendsTransitive(st, st1, next);
      }
      PersonsFromExtends(u, next, i + 1);
      ExtendsTransitive(st, next, PersonsFrom(u, next, i + 1));
    }
  }

  // ---------------------------------------------------------------------
  // Every eligible event is sent

  /** Under skip-blanks, an unsent blank event at k cuts off every later
      event of its form. */
  lemma BlankCutsOff(u: Setup, i: nat, j: nat, k: nat)
    requires ValidEvent(u.orig, i, j, k) && u.skipBlanks
    requires u.orig[i].forms[j].events[k].status != Some(SENT) && !ContainsData(u.orig[i].forms[j].events[k].fields)
    ensures forall k' :: k <= k' < |u.orig[i].forms[j].events| ==> !Eligible(u, i, j, k')
  {
    forall k' | k < k' < |u.orig[i].forms[j].events| ensures !SkipPrefix(u, i, j, k') {
      assert 0 <= k < k';
    }
  }

  /** The events loop, when the run goes on, sends every eligible event of
      the form from k on. */
  lemma {:induction false} EventsFromSends(u: Setup, st: Run, i: nat, j: nat, k: nat)
    requires i < |u.orig| && j < |u.orig[i].forms| && k <= |u.orig[i].forms[j].events| && u.orig[i].studyId.Some?
    requires st.failure.None? && SkipPrefix(u, i, j, k)
    requires EventsFrom(u, st, i, j, k).failure.None?
    ensures forall k' :: k <= k' < |u.orig[i].forms[j].events| && Eligible(u, i, j, k') ==>
      HasRequest(EventsFrom(u, st, i, j, k).requests, i, j, k')
    decreases |u.orig[i].forms[j].events| - k
  {
    if k < |u.orig[i].forms[j].events| {
      var e := u.orig[i].forms[j].events[k];
      var sid := u.orig[i].studyId.value;
      var step := EventStep(u, st, i, j, k);
      var imported := ImportDataJson(map[u.defField := sid], e, u.orig);
      if e.status != Some(SENT) && imported.Ok? && u.skipBlanks && !imported.value.1 {
        BlankCutsOff(u, i, j, k);
      } else {
        var final := EventsFrom(u, st, i, j, k);
        assert final == EventsFrom(u, step.0, i, j, k + 1);
        assert step.0.failure.None?;
        assert SkipPrefix(u, i, j, k + 1);
        EventsFromSends(u, step.0, i, j, k + 1);
        EventsFromExtends(u, step.0, i, j, k + 1);
        if Eligible(u, i, j, k) {
          var record := imported.value.0;
          DeliverExtends(st, i, j, k, sid, FormKey(u.orig[i].forms[j].name), record, imported.value.1,
                         u.respond(|st.sent|, record));
          assert step.0.requests[|st.requests|].event == k;
          HasRequestExtends(step.0, final, i, j, k);
        }
      }
    }
  }

  /** The forms loop, when the run goes on, gives every form from j on its
      counter keys and sends every eligible event of those forms. */
  lemma {:induction false} FormsFromSends(u: Setup, st: Run, i: nat, j: nat)
    requires i < |u.orig| && j <= |u.orig[i].forms| && u.orig[i].studyId.Some?
    requires st.failure.None? && FormsFrom(u, st, i, j).failure.None?
    ensures forall j' :: j <= j' < |u.orig[i].forms| ==> KeysAt(u, FormsFrom(u, st, i, j).report, i, j')
    ensures forall j', k :: j <= j' && Eligible(u, i, j', k) ==> HasRequest(FormsFrom(u, st, i, j).requests, i, j', k)
    decreases |u.orig[i].forms| - j
  {
    if j < |u.orig[i].forms| {
      var st1 := FormStart(u, st, i, j);
      var st2 := EventsFrom(u, st1, i, j, 0);
      var final := FormsFrom(u, st, i, j);
      assert final == FormsFrom(u, st2, i, j + 1);
      assert st1.failure.None?;
      assert st2.failure.None?;
      FormStartExtends(u, st, i, j);
      EventsFromExtends(u, st1, i, j, 0);
      FormsFromExtends(u, st2, i, j + 1);
      EventsFromSends(u, st1, i, j, 0);
      FormsFromSends(u, st2, i, j + 1);
      ExtendsTransitive(st1, st2, final);
      KeysAtExtends(u, st1, final, i, j);
      forall k | Eligible(u, i, j, k) ensures HasRequest(final.requests, i, j, k) {
        HasRequestExtends(st2, final, i, j, k);
      }
    }
  }

  /** The persons loop, when the run goes on, does the same for every person
      from i on, each of whom has a study id. */
  lemma {:induction false} PersonsFromSends(u: Setup, st: Run, i: nat)
    requires i <= |u.orig| && st.failure.None? && PersonsFrom(u, st, i).failure.None?
    ensures forall i' :: i <= i' < |u.orig| ==> u.orig[i'].studyId.Some?
    ensures forall i', j :: i <= i' < |u.orig| && 0 <= j < |u.orig[i'].forms| ==>
      u.orig[i'].studyId.Some? && KeysAt(u, PersonsFrom(u, st, i).report, i', j)
    ensures forall i', j, k :: i <= i' && Eligible(u, i', j, k) ==> HasRequest(PersonsFrom(u, st, i).requests, i', j, k)
    decreases |u.orig| - i
  {
    if i < |u.orig| {
      var next := PersonStep(u, st, i);
      var final := PersonsFrom(u, st, i);
      assert final == PersonsFrom(u, next, i + 1);
      assert next.failure.None?;
      assert u.orig[i].studyId.Some?;
      var st1 := st.(report := st.report.(totalSubjects := st.report.totalSubjects + 1));
      assert next == FormsFrom(u, st1, i, 0);
      FormsFromSends(u, st1, i, 0);
      PersonsFromExtends(u, next, i + 1);
      PersonsFromSends(u, next, i + 1);
      forall j | 0 <= j < |u.orig[i].forms| ensures KeysAt(u, final.report, i, j) {
        KeysAtExtends(u, next, final, i, j);
      }
      forall j, k | Eligible(u, i, j, k) ensures HasRequest(final.requests, i, j, k) {
        HasRequestExtends(next, final, i, j, k);
      }
    }
  }

  /** A run that ends without an exception sends exactly the eligible
      events: a blank event under skip-blanks ends only its own form, and
      every unsent event of the other forms and persons is still sent. Every
      form of every person has its counter key, overall and for its study
      id. */
  lemma OutputSendsEligible(u: Setup, stores: seq<seq<Person>>, sent: seq<map<string, string>>)
    ensures var run := Output(u, stores, sent);
      run.failure.None? ==>
        && (forall i: nat, j: nat, k: nat :: HasRequest(run.requests, i, j, k) <==> Eligible(u, i, j, k))
        && (forall i, j :: 0 <= i < |u.orig| && 0 <= j < |u.orig[i].forms| ==>
              u.orig[i].studyId.Some? && KeysAt(u, run.report, i, j))
  {
    var run := Output(u, stores, sent);
    if run.failure.None? {
      assert run == PersonsFrom(u, Start(u, stores, sent), 0);
      PersonsFromSends(u, Start(u, stores, sent), 0);
      OutputInv(u, stores, sent);
      forall i: nat, j: nat, k: nat | HasRequest(run.requests, i, j, k) ensures Eligible(u, i, j, k) {
        var n :| 0 <= n < |run.requests| && run.requests[n].person == i && run.requests[n].form == j
          && run.requests[n].event == k;
        assert Good(u, |sent|, run.requests, run.sent, n);
      }
    }
  }
}
