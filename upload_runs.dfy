/** What a whole upload run does, proved of `Upload.Output`: which events
    are sent, in which order, with which record; the statuses, snapshots,
    error messages and counters it leaves behind. */
module UploadRuns {
  import opened Common
  import opened Records
  import opened Tree
  import opened Upload

  // ---------------------------------------------------------------------
  // The properties

  /** Request `a` is for an event earlier in the tree than (i, j, k). */
  predicate Less(a: Request, i: nat, j: nat, k: nat)
  {
    a.person < i || (a.person == i && (a.form < j || (a.form == j && a.event < k)))
  }

  /** The requests follow the tree order, so no event is sent twice. */
  predicate Ordered(reqs: seq<Request>)
  {
    forall m, n :: 0 <= m < n < |reqs| ==> Less(reqs[m], reqs[n].person, reqs[n].form, reqs[n].event)
  }

  predicate Below(reqs: seq<Request>, i: nat, j: nat, k: nat)
  {
    forall n :: 0 <= n < |reqs| ==> Less(reqs[n], i, j, k)
  }

  /** With blank events skipped: every event of the form before k was sent
      already or has data. */
  predicate SkipPrefix(u: Setup, i: nat, j: nat, k: nat)
    requires i < |u.orig| && j < |u.orig[i].forms| && k <= |u.orig[i].forms[j].events|
  {
    u.skipBlanks ==> forall k' :: 0 <= k' < k ==>
      u.orig[i].forms[j].events[k'].status == Some(SENT) || ContainsData(u.orig[i].forms[j].events[k'].fields)
  }

  /** Request n is for an event of the tree that was not sent yet, whose
      person has a study id and whose form a name; the record the client
      sent is that event's record, and the answer is the server's answer to
      it. With blank events skipped, the event has data and no blank unsent
      event came before it in its form. */
  predicate Good(u: Setup, base: nat, requests: seq<Request>, sent: seq<map<string, string>>, n: nat)
    requires n < |requests|
  {
    var r := requests[n];
    && ValidEvent(u.orig, r.person, r.form, r.event) && u.orig[r.person].studyId.Some?
    && var p := u.orig[r.person];
       var e := p.forms[r.form].events[r.event];
       var sid := p.studyId.value;
       && sid != "" && p.forms[r.form].name != "" && e.status != Some(SENT)
       && e.name != "" && TreeNamed(u.orig)
       && (u.skipBlanks ==> ContainsData(e.fields) && SkipPrefix(u, r.person, r.form, r.event))
       && base + n < |sent| && sent[base + n] == ImportData(map[u.defField := sid], e)
       && r.response == u.respond(base + n, sent[base + n])
  }

  /** The client's log is the earlier log followed by one record per
      request. */
  predicate Logged(u: Setup, sent0: seq<map<string, string>>, st: Run)
  {
    |st.sent| == |sent0| + |st.requests| && st.sent[..|sent0|] == sent0
    && forall n :: 0 <= n < |st.requests| ==> Good(u, |sent0|, st.requests, st.sent, n)
  }

  predicate AcceptedAt(reqs: seq<Request>, i: nat, j: nat, k: nat)
  {
    exists n :: 0 <= n < |reqs| && reqs[n].person == i && reqs[n].form == j && reqs[n].event == k
      && reqs[n].response == Accepted
  }

  /** The tree is the original one with every event whose request was
      accepted marked sent. */
  ghost predicate TreeState(u: Setup, st: Run)
  {
    && |st.tree| == |u.orig|
    && (forall i :: 0 <= i < |u.orig| ==>
          st.tree[i].studyId == u.orig[i].studyId && |st.tree[i].forms| == |u.orig[i].forms|
          && forall j :: 0 <= j < |u.orig[i].forms| ==>
               st.tree[i].forms[j].name == u.orig[i].forms[j].name
               && |st.tree[i].forms[j].events| == |u.orig[i].forms[j].events|)
    && forall i: nat, j: nat, k: nat :: ValidEvent(u.orig, i, j, k) ==>
         st.tree[i].forms[j].events[k] ==
           if AcceptedAt(st.requests, i, j, k) then u.orig[i].forms[j].events[k].(status := Some(SENT))
           else u.orig[i].forms[j].events[k]
  }

  function AcceptedCount(reqs: seq<Request>): nat
    decreases |reqs|
  {
    if reqs == [] then 0
    else AcceptedCount(reqs[..|reqs| - 1]) + if reqs[|reqs| - 1].response == Accepted then 1 else 0
  }

  /** One snapshot per accepted request, the last of them the tree. */
  predicate StoreState(stores0: seq<seq<Person>>, st: Run)
  {
    |st.stores| == |stores0| + AcceptedCount(st.requests) && st.stores[..|stores0|] == stores0
    && (AcceptedCount(st.requests) > 0 ==> st.stores[|st.stores| - 1] == st.tree)
  }

  /** An accepted request for an event with data of a form with key `key`. */
  predicate Counted(orig: seq<Person>, r: Request, key: string)
  {
    r.response == Accepted && ValidEvent(orig, r.person, r.form, r.event)
    && ContainsData(orig[r.person].forms[r.form].events[r.event].fields)
    && FormKey(orig[r.person].forms[r.form].name) == key
  }

  function CountKey(orig: seq<Person>, reqs: seq<Request>, key: string): nat
    decreases |reqs|
  {
    if reqs == [] then 0
    else CountKey(orig, reqs[..|reqs| - 1], key) + if Counted(orig, reqs[|reqs| - 1], key) then 1 else 0
  }

  function CountSubject(orig: seq<Person>, reqs: seq<Request>, sid: string, key: string): nat
    decreases |reqs|
  {
    if reqs == [] then 0
    else
      var r := reqs[|reqs| - 1];
      CountSubject(orig, reqs[..|reqs| - 1], sid, key)
      + if Counted(orig, r, key) && orig[r.person].studyId == Some(sid) then 1 else 0
  }

  /** The messages of the rejected requests, in order. */
  function ErrorsOf(reqs: seq<Request>): seq<string>
    decreases |reqs|
  {
    if reqs == [] then []
    else
      ErrorsOf(reqs[..|reqs| - 1])
      + match reqs[|reqs| - 1].response
        case Rejected(Some(body)) => Messages(body)
        case _ => []
  }

  /** The report's errors are the rejected requests' messages, and every
      counter counts the accepted requests with data of its form key (and
      study id). */
  ghost predicate ReportState(u: Setup, st: Run)
  {
    && st.report.errors == ErrorsOf(st.requests)
    && (forall key :: Get(st.report.formDetails, key) == CountKey(u.orig, st.requests, key))
    && forall sid, key :: Get(Subject(st.report, sid), key) == CountSubject(u.orig, st.requests, sid, key)
  }

  ghost predicate Inv(u: Setup, sent0: seq<map<string, string>>, stores0: seq<seq<Person>>, st: Run)
  {
    Logged(u, sent0, st) && Ordered(st.requests) && TreeState(u, st) && StoreState(stores0, st) && ReportState(u, st)
  }

  // ---------------------------------------------------------------------
  // One request

  /** The facts a request for the event at (i, j, k) is sent under. */
  predicate Sendable(u: Setup, st: Run, i: nat, j: nat, k: nat, record: map<string, string>, containsData: bool)
  {
    && ValidEvent(u.orig, i, j, k) && u.orig[i].studyId.Some?
    && var e := u.orig[i].forms[j].events[k];
       var sid := u.orig[i].studyId.value;
       && sid != "" && u.orig[i].forms[j].name != "" && e.status != Some(SENT)
       && e.name != "" && TreeNamed(u.orig)
       && SkipPrefix(u, i, j, k) && (u.skipBlanks ==> containsData)
       && record == ImportData(map[u.defField := sid], e) && containsData == ContainsData(e.fields)
  }

  function DeliverAt(u: Setup, st: Run, i: nat, j: nat, k: nat, record: map<string, string>, containsData: bool): Run
    requires ValidEvent(u.orig, i, j, k) && u.orig[i].studyId.Some?
  {
    Deliver(st, i, j, k, u.orig[i].studyId.value, FormKey(u.orig[i].forms[j].name), record, containsData,
            u.respond(|st.sent|, record))
  }

  lemma DeliverLogged(u: Setup, sent0: seq<map<string, string>>, st: Run, i: nat, j: nat, k: nat, record: map<string, string>, containsData: bool)
    requires Sendable(u, st, i, j, k, record, containsData) && Logged(u, sent0, st)
    ensures Logged(u, sent0, DeliverAt(u, st, i, j, k, record, containsData))
  {
    var st' := DeliverAt(u, st, i, j, k, record, containsData);
    assert st'.requests == st.requests + [Request(i, j, k, u.respond(|st.sent|, record))];
    assert st'.sent == st.sent + [record];
    forall n | 0 <= n < |st'.requests| ensures Good(u, |sent0|, st'.requests, st'.sent, n) {
      if n < |st.requests| {
        assert Good(u, |sent0|, st.requests, st.sent, n);
        assert st'.requests[n] == st.requests[n];
        assert st'.sent[|sent0| + n] == st.sent[|sent0| + n];
      }
    }
  }

  lemma DeliverOrdered(u: Setup, st: Run, i: nat, j: nat, k: nat, record: map<string, string>, containsData: bool)
    requires ValidEvent(u.orig, i, j, k) && u.orig[i].studyId.Some?
    requires Ordered(st.requests) && Below(st.requests, i, j, k)
    ensures var st' := DeliverAt(u, st, i, j, k, record, containsData);
      Ordered(st'.requests) && Below(st'.requests, i, j, k + 1)
  {
  }

  lemma AcceptedAtStep(reqs: seq<Request>, r: Request, i: nat, j: nat, k: nat)
    ensures AcceptedAt(reqs + [r], i, j, k) <==>
      AcceptedAt(reqs, i, j, k) || ((r.person, r.form, r.event) == (i, j, k) && r.response == Accepted)
  {
    var reqs' := reqs + [r];
    if AcceptedAt(reqs', i, j, k) {
      var n :| 0 <= n < |reqs'| && reqs'[n].person == i && reqs'[n].form == j && reqs'[n].event == k
        && reqs'[n].response == Accepted;
      if n < |reqs| {
        assert reqs[n] == reqs'[n];
      }
    }
    if AcceptedAt(reqs, i, j, k) {
      var n :| 0 <= n < |reqs| && reqs[n].person == i && reqs[n].form == j && reqs[n].event == k
        && reqs[n].response == Accepted;
      assert reqs'[n] == reqs[n];
    }
    assert reqs'[|reqs|] == r;
  }

  /** Marking the event at (i, j, k) changes that event's status and
      nothing else. */
  lemma MarkSentAt(t: seq<Person>, i: nat, j: nat, k: nat)
    requires ValidEvent(t, i, j, k)
    ensures var t' := MarkSent(t, i, j, k);
      && |t'| == |t|
      && (forall i' :: 0 <= i' < |t| ==>
            t'[i'].studyId == t[i'].studyId && |t'[i'].forms| == |t[i'].forms|
            && forall j' :: 0 <= j' < |t[i'].forms| ==>
                 t'[i'].forms[j'].name == t[i'].forms[j'].name && |t'[i'].forms[j'].events| == |t[i'].forms[j'].events|)
      && forall i': nat, j': nat, k': nat :: ValidEvent(t, i', j', k') ==>
           t'[i'].forms[j'].events[k'] ==
             if (i', j', k') == (i, j, k) then t[i].forms[j].events[k].(status := Some(SENT)) else t[i'].forms[j'].events[k']
  {
  }

  lemma DeliverTree(u: Setup, st: Run, i: nat, j: nat, k: nat, record: map<string, string>, containsData: bool)
    requires ValidEvent(u.orig, i, j, k) && u.orig[i].studyId.Some?
    requires TreeState(u, st)
    ensures TreeState(u, DeliverAt(u, st, i, j, k, record, containsData))
  {
    var st' := DeliverAt(u, st, i, j, k, record, containsData);
    var r := Request(i, j, k, u.respond(|st.sent|, record));
    assert st'.requests == st.requests + [r];
    forall i': nat, j': nat, k': nat | ValidEvent(u.orig, i', j', k') {
      AcceptedAtStep(st.requests, r, i', j', k');
    }
    if r.response == Accepted {
      assert st'.tree == MarkSent(st.tree, i, j, k);
      MarkSentAt(st.tree, i, j, k);
    } else {
      assert st'.tree == st.tree;
    }
  }

  lemma AcceptedCountStep(reqs: seq<Request>, r: Request)
    ensures AcceptedCount(reqs + [r]) == AcceptedCount(reqs) + if r.response == Accepted then 1 else 0
  {
    assert (reqs + [r])[..|reqs|] == reqs;
  }

  lemma DeliverStores(u: Setup, stores0: seq<seq<Person>>, st: Run, i: nat, j: nat, k: nat, record: map<string, string>, containsData: bool)
    requires ValidEvent(u.orig, i, j, k) && u.orig[i].studyId.Some?
    requires StoreState(stores0, st)
    ensures StoreState(stores0, DeliverAt(u, st, i, j, k, record, containsData))
  {
    var st' := DeliverAt(u, st, i, j, k, record, containsData);
    var response := u.respond(|st.sent|, record);
    AcceptedCountStep(st.requests, Request(i, j, k, response));
    assert st'.requests == st.requests + [Request(i, j, k, response)];
    if response == Accepted {
      assert st'.stores == st.stores + [st'.tree];
      assert st'.stores[..|stores0|] == st.stores[..|stores0|];
    } else {
      assert st'.stores == st.stores && st'.tree == st.tree;
    }
  }

  lemma CountKeyStep(orig: seq<Person>, reqs: seq<Request>, r: Request, key: string)
    ensures CountKey(orig, reqs + [r], key) == CountKey(orig, reqs, key) + if Counted(orig, r, key) then 1 else 0
  {
    assert (reqs + [r])[..|reqs|] == reqs;
  }

  lemma CountSubjectStep(orig: seq<Person>, reqs: seq<Request>, r: Request, sid: string, key: string)
    requires r.person < |orig|
    ensures CountSubject(orig, reqs + [r], sid, key) == CountSubject(orig, reqs, sid, key)
      + if Counted(orig, r, key) && orig[r.person].studyId == Some(sid) then 1 else 0
  {
    assert (reqs + [r])[..|reqs|] == reqs;
  }

  lemma ErrorsOfStep(reqs: seq<Request>, r: Request)
    ensures ErrorsOf(reqs + [r]) == ErrorsOf(reqs) + match r.response case Rejected(Some(body)) => Messages(body) case _ => []
  {
    assert (reqs + [r])[..|reqs|] == reqs;
  }

  /** The report a request leaves: the same counters unless it was accepted
      with data, when its form key is counted once more. */
  lemma DeliverReportShape(u: Setup, st: Run, i: nat, j: nat, k: nat, record: map<string, string>, containsData: bool)
    requires ValidEvent(u.orig, i, j, k) && u.orig[i].studyId.Some?
    ensures var st' := DeliverAt(u, st, i, j, k, record, containsData);
      var counted := if u.respond(|st.sent|, record) == Accepted && containsData
                     then Count(st.report, u.orig[i].studyId.value, FormKey(u.orig[i].forms[j].name)) else st.report;
      st'.report.formDetails == counted.formDetails && st'.report.subjectDetails == counted.subjectDetails
      && st'.requests == st.requests + [Request(i, j, k, u.respond(|st.sent|, record))]
  {
  }

  lemma DeliverCountKeys(u: Setup, st: Run, i: nat, j: nat, k: nat, record: map<string, string>, containsData: bool)
    requires Sendable(u, st, i, j, k, record, containsData)
    requires forall key :: Get(st.report.formDetails, key) == CountKey(u.orig, st.requests, key)
    ensures var st' := DeliverAt(u, st, i, j, k, record, containsData);
      forall key :: Get(st'.report.formDetails, key) == CountKey(u.orig, st'.requests, key)
  {
    var r := Request(i, j, k, u.respond(|st.sent|, record));
    DeliverReportShape(u, st, i, j, k, record, containsData);
    forall key' {
      CountKeyStep(u.orig, st.requests, r, key');
    }
  }

  lemma DeliverCountSubjects(u: Setup, st: Run, i: nat, j: nat, k: nat, record: map<string, string>, containsData: bool)
    requires Sendable(u, st, i, j, k, record, containsData)
    requires forall sid, key :: Get(Subject(st.report, sid), key) == CountSubject(u.orig, st.requests, sid, key)
    ensures var st' := DeliverAt(u, st, i, j, k, record, containsData);
      forall sid, key :: Get(Subject(st'.report, sid), key) == CountSubject(u.orig, st'.requests, sid, key)
  {
    var r := Request(i, j, k, u.respond(|st.sent|, record));
    DeliverReportShape(u, st, i, j, k, record, containsData);
    forall sid', key' {
      CountSubjectStep(u.orig, st.requests, r, sid', key');
    }
  }

  lemma DeliverReport(u: Setup, st: Run, i: nat, j: nat, k: nat, record: map<string, string>, containsData: bool)
    requires Sendable(u, st, i, j, k, record, containsData) && ReportState(u, st)
    ensures ReportState(u, DeliverAt(u, st, i, j, k, record, containsData))
  {
    var r := Request(i, j, k, u.respond(|st.sent|, record));
    DeliverReportShape(u, st, i, j, k, record, containsData);
    ErrorsOfStep(st.requests, r);
    DeliverCountKeys(u, st, i, j, k, record, containsData);
    DeliverCountSubjects(u, st, i, j, k, record, containsData);
  }

  lemma DeliverInv(u: Setup, sent0: seq<map<string, string>>, stores0: seq<seq<Person>>, st: Run, i: nat, j: nat, k: nat, record: map<string, string>,
                   containsData: bool)
    requires Sendable(u, st, i, j, k, record, containsData)
    requires Inv(u, sent0, stores0, st) && Below(st.requests, i, j, k)
    ensures var st' := DeliverAt(u, st, i, j, k, record, containsData);
      Inv(u, sent0, stores0, st') && Below(st'.requests, i, j, k + 1)
      && st'.report.totalSubjects == st.report.totalSubjects
  {
    DeliverLogged(u, sent0, st, i, j, k, record, containsData);
    DeliverOrdered(u, st, i, j, k, record, containsData);
    DeliverTree(u, st, i, j, k, record, containsData);
    DeliverStores(u, stores0, st, i, j, k, record, containsData);
    DeliverReport(u, st, i, j, k, record, containsData);
  }

  // ---------------------------------------------------------------------
  // The loops

  lemma BelowMonotone(reqs: seq<Request>, i: nat, j: nat, k: nat, i': nat, j': nat, k': nat)
    requires Below(reqs, i, j, k)
    requires i < i' || (i == i' && (j < j' || (j == j' && k <= k')))
    ensures Below(reqs, i', j', k')
  {
  }

  /** The invariant does not depend on the exception. */
  lemma InvFailure(u: Setup, sent0: seq<map<string, string>>, stores0: seq<seq<Person>>, st: Run, failure: Option<string>)
    requires Inv(u, sent0, stores0, st)
    ensures Inv(u, sent0, stores0, st.(failure := failure))
  {
    var st' := st.(failure := failure);
    assert st'.requests == st.requests && st'.sent == st.sent && st'.tree == st.tree;
    assert st'.stores == st.stores && st'.report == st.report;
  }

  /** Nor on the number of persons visited. */
  lemma InvTotal(u: Setup, sent0: seq<map<string, string>>, stores0: seq<seq<Person>>, st: Run, total: nat)
    requires Inv(u, sent0, stores0, st)
    ensures Inv(u, sent0, stores0, st.(report := st.report.(totalSubjects := total)))
  {
    var st' := st.(report := st.report.(totalSubjects := total));
    assert st'.requests == st.requests && st'.sent == st.sent && st'.tree == st.tree && st'.stores == st.stores;
    assert st'.report.errors == st.report.errors && st'.report.formDetails == st.report.formDetails;
    assert forall sid :: Subject(st'.report, sid) == Subject(st.report, sid);
  }

  lemma EventStepInv(u: Setup, sent0: seq<map<string, string>>, stores0: seq<seq<Person>>, st: Run, i: nat, j: nat, k: nat)
    requires ValidEvent(u.orig, i, j, k) && u.orig[i].studyId.Some?
    requires u.orig[i].studyId.value != "" && u.orig[i].forms[j].name != ""
    requires Inv(u, sent0, stores0, st) && Below(st.requests, i, j, k) && SkipPrefix(u, i, j, k)
    ensures var step := EventStep(u, st, i, j, k);
      Inv(u, sent0, stores0, step.0) && Below(step.0.requests, i, j, k + 1)
      && step.0.report.totalSubjects == st.report.totalSubjects
      && (!step.1 && step.0.failure.None? ==> SkipPrefix(u, i, j, k + 1))
  {
    var e := u.orig[i].forms[j].events[k];
    var sid := u.orig[i].studyId.value;
    var step := EventStep(u, st, i, j, k);
    BelowMonotone(st.requests, i, j, k, i, j, k + 1);
    var imported := ImportDataJson(map[u.defField := sid], e, u.orig);
    if e.status == Some(SENT) {
      assert step == (st, false);
    } else if imported.Err? {
      assert step == (st.(failure := Some(imported.error)), false);
      InvFailure(u, sent0, stores0, st, Some(imported.error));
    } else {
      var record := ImportData(map[u.defField := sid], e);
      var containsData := ContainsData(e.fields);
      assert imported == Ok((record, containsData));
      if u.skipBlanks && !containsData {
        assert step == (st, true);
      } else {
        assert step.0 == DeliverAt(u, st, i, j, k, record, containsData) && !step.1;
        assert Sendable(u, st, i, j, k, record, containsData);
        DeliverInv(u, sent0, stores0, st, i, j, k, record, containsData);
      }
    }
  }

  lemma {:induction false} EventsFromInv(u: Setup, sent0: seq<map<string, string>>, stores0: seq<seq<Person>>, st: Run, i: nat, j: nat, k: nat)
    requires i < |u.orig| && j < |u.orig[i].forms| && k <= |u.orig[i].forms[j].events| && u.orig[i].studyId.Some?
    requires u.orig[i].studyId.value != "" && u.orig[i].forms[j].name != ""
    requires Inv(u, sent0, stores0, st) && Below(st.requests, i, j, k) && SkipPrefix(u, i, j, k)
    ensures var st' := EventsFrom(u, st, i, j, k);
      Inv(u, sent0, stores0, st') && Below(st'.requests, i, j + 1, 0)
      && st'.report.totalSubjects == st.report.totalSubjects
    decreases |u.orig[i].forms[j].events| - k
  {
    if st.failure.None? && k < |u.orig[i].forms[j].events| {
      EventStepInv(u, sent0, stores0, st, i, j, k);
      var step := EventStep(u, st, i, j, k);
      var next := step.0;
      if step.1 {
        assert EventsFrom(u, st, i, j, k) == next;
        BelowMonotone(next.requests, i, j, k + 1, i, j + 1, 0);
      } else if next.failure.Some? {
        assert EventsFrom(u, st, i, j, k) == EventsFrom(u, next, i, j, k + 1) == next;
        BelowMonotone(next.requests, i, j, k + 1, i, j + 1, 0);
      } else {
        assert EventsFrom(u, st, i, j, k) == EventsFrom(u, next, i, j, k + 1);
        EventsFromInv(u, sent0, stores0, next, i, j, k + 1);
      }
    } else {
      BelowMonotone(st.requests, i, j, k, i, j + 1, 0);
    }
  }

  lemma FormStartInv(u: Setup, sent0: seq<map<string, string>>, stores0: seq<seq<Person>>, st: Run, i: nat, j: nat)
    requires i < |u.orig| && j < |u.orig[i].forms| && u.orig[i].studyId.Some?
    requires Inv(u, sent0, stores0, st)
    ensures var st' := FormStart(u, st, i, j);
      Inv(u, sent0, stores0, st') && st'.requests == st.requests && st'.report.totalSubjects == st.report.totalSubjects
      && (st'.failure.None? ==> u.orig[i].studyId.value != "" && u.orig[i].forms[j].name != "")
  {
    var st' := FormStart(u, st, i, j);
    if u.orig[i].forms[j].name != "" {
      var sid := u.orig[i].studyId.value;
      var key := FormKey(u.orig[i].forms[j].name);
      assert st'.tree == st.tree && st'.stores == st.stores && st'.sent == st.sent && st'.requests == st.requests;
      forall key' ensures Get(st'.report.formDetails, key') == Get(st.report.formDetails, key') {
      }
      forall sid', key' ensures Get(Subject(st'.report, sid'), key') == Get(Subject(st.report, sid'), key') {
      }
    }
  }

  lemma {:induction false} FormsFromInv(u: Setup, sent0: seq<map<string, string>>, stores0: seq<seq<Person>>, st: Run, i: nat, j: nat)
    requires i < |u.orig| && j <= |u.orig[i].forms| && u.orig[i].studyId.Some?
    requires Inv(u, sent0, stores0, st) && Below(st.requests, i, j, 0)
    ensures var st' := FormsFrom(u, st, i, j);
      Inv(u, sent0, stores0, st') && Below(st'.requests, i + 1, 0, 0)
      && st'.report.totalSubjects == st.report.totalSubjects
    decreases |u.orig[i].forms| - j
  {
    if st.failure.None? && j < |u.orig[i].forms| {
      FormStartInv(u, sent0, stores0, st, i, j);
      var st1 := FormStart(u, st, i, j);
      if st1.failure.None? {
        EventsFromInv(u, sent0, stores0, st1, i, j, 0);
      }
      FormsFromInv(u, sent0, stores0, EventsFrom(u, st1, i, j, 0), i, j + 1);
    } else {
      BelowMonotone(st.requests, i, j, 0, i + 1, 0, 0);
    }
  }

  lemma PersonStepInv(u: Setup, sent0: seq<map<string, string>>, stores0: seq<seq<Person>>, st: Run, i: nat)
    requires i < |u.orig| && Inv(u, sent0, stores0, st) && Below(st.requests, i, 0, 0)
    ensures Inv(u, sent0, stores0, PersonStep(u, st, i))
  {
    var st1 := st.(report := st.report.(totalSubjects := st.report.totalSubjects + 1));
    InvTotal(u, sent0, stores0, st, st.report.totalSubjects + 1);
    if u.orig[i].studyId.Some? {
      assert PersonStep(u, st, i) == FormsFrom(u, st1, i, 0);
      FormsFromInv(u, sent0, stores0, st1, i, 0);
    } else {
      assert PersonStep(u, st, i) == st1.(failure := Some(MISSING_STUDY_ID));
      InvFailure(u, sent0, stores0, st1, Some(MISSING_STUDY_ID));
    }
  }

  lemma PersonStepOrder(u: Setup, sent0: seq<map<string, string>>, stores0: seq<seq<Person>>, st: Run, i: nat)
    requires i < |u.orig| && Inv(u, sent0, stores0, st) && Below(st.requests, i, 0, 0)
    ensures var st' := PersonStep(u, st, i);
      Below(st'.requests, i + 1, 0, 0)
      && (st'.failure.None? ==> st'.report.totalSubjects == st.report.totalSubjects + 1)
  {
    var st1 := st.(report := st.report.(totalSubjects := st.report.totalSubjects + 1));
    InvTotal(u, sent0, stores0, st, st.report.totalSubjects + 1);
    if u.orig[i].studyId.Some? {
      assert PersonStep(u, st, i) == FormsFrom(u, st1, i, 0);
      FormsFromInv(u, sent0, stores0, st1, i, 0);
    } else {
      assert PersonStep(u, st, i) == st1.(failure := Some(MISSING_STUDY_ID));
      BelowMonotone(st.requests, i, 0, 0, i + 1, 0, 0);
    }
  }

  lemma {:induction false} PersonsFromInv(u: Setup, sent0: seq<map<string, string>>, stores0: seq<seq<Person>>, st: Run, i: nat)
    returns (st': Run)
    requires i <= |u.orig| && Inv(u, sent0, stores0, st) && Below(st.requests, i, 0, 0)
    ensures st' == PersonsFrom(u, st, i)
    ensures Inv(u, sent0, stores0, st')
    ensures st'.failure.None? && st.failure.None? ==> st'.report.totalSubjects == st.report.totalSubjects + |u.orig| - i
    decreases |u.orig| - i
  {
    if st.failure.None? && i < |u.orig| {
      PersonStepInv(u, sent0, stores0, st, i);
      PersonStepOrder(u, sent0, stores0, st, i);
      var next := PersonStep(u, st, i);
      st' := PersonsFromInv(u, sent0, stores0, next, i + 1);
      if next.failure.Some? {
        assert st' == next;
      }
    } else {
      st' := st;
    }
  }



  // ---------------------------------------------------------------------
  // The whole upload

  /** Every property above holds of a whole upload run, started from a
      repository holding `stores` and a client that has sent `sent`,
      whether the run ends with the report or with an exception: the
      records sent, their order, the statuses, the snapshots, the report's
      errors and counters. On success every person was counted. */
  lemma OutputInv(u: Setup, stores: seq<seq<Person>>, sent: seq<map<string, string>>)
    ensures var run := Output(u, stores, sent);
      Inv(u, sent, stores, run)
      && (run.failure.None? ==> run.report.totalSubjects == |u.orig|)
  {
    var st := Start(u, stores, sent);
    forall key ensures Get(st.report.formDetails, key) == CountKey(u.orig, st.requests, key) {
    }
    assert Inv(u, sent, stores, st);
    if FormlessFirst(u.orig) {
      InvTotal(u, sent, stores, st, 1);
      InvFailure(u, sent, stores, st.(report := st.report.(totalSubjects := 1)), Some(UNBOUND_KEY));
    } else {
      var run := PersonsFromInv(u, sent, stores, st, 0);
    }
  }

  /** A first person with a study id and no forms is counted, and the run
      then raises on the unbound `study_id_key` before any request. */
  lemma FirstPersonWithoutFormsRaises(u: Setup, stores: seq<seq<Person>>, sent: seq<map<string, string>>)
    requires |u.orig| > 0 && u.orig[0].studyId.Some? && u.orig[0].forms == []
    ensures var run := Output(u, stores, sent);
      run.failure == Some(UNBOUND_KEY) && run.requests == [] && run.tree == u.orig
      && run.stores == stores && run.sent == sent && run.report.totalSubjects == 1
  {
  }

  /** Re-running the upload on a tree whose events are all marked sent
      sends nothing and leaves the tree, the repository, the client's log
      and every counter as they were. */
  lemma NothingLeftToSend(u: Setup, stores: seq<seq<Person>>, sent: seq<map<string, string>>)
    requires forall i: nat, j: nat, k: nat :: ValidEvent(u.orig, i, j, k) ==> u.orig[i].forms[j].events[k].status == Some(SENT)
    ensures var run := Output(u, stores, sent);
      run.requests == [] && run.tree == u.orig && run.stores == stores && run.sent == sent
      && run.report.errors == []
      && (forall key :: Get(run.report.formDetails, key) == 0)
      && (forall sid, key :: Get(Subject(run.report, sid), key) == 0)
  {
    var run := Output(u, stores, sent);
    OutputInv(u, stores, sent);
    assert run.requests == [] || Good(u, |sent|, run.requests, run.sent, 0);
    assert run.requests == [];
    assert |run.tree| == |u.orig|;
    forall i | 0 <= i < |u.orig| ensures run.tree[i] == u.orig[i] {
      forall j | 0 <= j < |u.orig[i].forms| ensures run.tree[i].forms[j] == u.orig[i].forms[j] {
        forall k | 0 <= k < |u.orig[i].forms[j].events|
          ensures run.tree[i].forms[j].events[k] == u.orig[i].forms[j].events[k]
        {
          assert ValidEvent(u.orig, i, j, k);
        }
        assert run.tree[i].forms[j].events == u.orig[i].forms[j].events;
      }
      assert run.tree[i].forms == u.orig[i].forms;
    }
    assert run.stores[..|stores|] == stores;
  }
}
