/** `verify_and_correct_collection_date`: a subject without a specimen
    collection date gets one derived from its result date (four days
    earlier), and the result date element is dropped. */
module Collection {
  import opened Common
  import opened Records

  const DATE_TIME_STAMP := "DATE_TIME_STAMP"
  const RESULT_DATE := "RESULT_DATE"

  /** The source parses the result date with the configured format,
      subtracts four days and prints the resulting datetime with `str()`;
      that is the `shift` parameter here, None where parsing raises. */
  type DateShift = string -> Option<string>

  /** What is done to one subject: its new children and whether its
      collection date was blank. */
  datatype Corrected = Corrected(rec: Elems, blank: bool)

  /** One subject; None where the date conversion raises. */
  function CorrectDate(s: Elems, shift: DateShift): Option<Corrected>
  {
    if DATE_TIME_STAMP in s && RESULT_DATE in s then
      if s[DATE_TIME_STAMP] == "" then
        match shift(s[RESULT_DATE])
        case None => None
        case Some(d) => Some(Corrected(s[DATE_TIME_STAMP := d] - {RESULT_DATE}, true))
      else Some(Corrected(s - {RESULT_DATE}, false))
    else if RESULT_DATE in s then
      match shift(s[RESULT_DATE])
      case None => None
      case Some(d) => Some(Corrected((s - {RESULT_DATE})[DATE_TIME_STAMP := d], true))
    else Some(Corrected(s, false))
  }

  /** A subject whose conversion raises. */
  predicate Raises(s: Elems, shift: DateShift)
  {
    RESULT_DATE in s && (DATE_TIME_STAMP !in s || s[DATE_TIME_STAMP] == "") && shift(s[RESULT_DATE]).None?
  }

  /** A subject that counts as blank. */
  predicate Blank(s: Elems)
  {
    RESULT_DATE in s && (DATE_TIME_STAMP !in s || s[DATE_TIME_STAMP] == "")
  }

  /** Nothing else changes: every other child keeps its text, the only
      child that can appear is the collection date, and a collection date
      that was not blank keeps its text. */
  predicate OthersKept(s: Elems, t: Elems)
  {
    && (forall tag :: tag in s && tag != RESULT_DATE && tag != DATE_TIME_STAMP ==> tag in t && t[tag] == s[tag])
    && (forall tag :: tag in t ==> tag in s || tag == DATE_TIME_STAMP)
    && (!Blank(s) && DATE_TIME_STAMP in s ==> DATE_TIME_STAMP in t && t[DATE_TIME_STAMP] == s[DATE_TIME_STAMP])
  }

  /** The loop so far: the rewritten subjects, the two counters, and
      whether it raised (after which later subjects stay as they were). */
  datatype DateRun = DateRun(out: seq<Elems>, total: nat, blank: nat, failed: bool)

  function CorrectAll(subjects: seq<Elems>, shift: DateShift): (r: DateRun)
    ensures |r.out| == |subjects|
    decreases |subjects|
  {
    if subjects == [] then DateRun([], 0, 0, false)
    else
      var pre := CorrectAll(subjects[..|subjects| - 1], shift);
      var s := subjects[|subjects| - 1];
      if pre.failed then pre.(out := pre.out + [s])
      else
        match CorrectDate(s, shift)
        case None => pre.(out := pre.out + [s], failed := true)
        case Some(c) => DateRun(pre.out + [c.rec], pre.total + 1, pre.blank + (if c.blank then 1 else 0), false)
  }

  /** The number of blank subjects. */
  function CountBlank(subjects: seq<Elems>): nat
    decreases |subjects|
  {
    if subjects == [] then 0
    else CountBlank(subjects[..|subjects| - 1]) + (if Blank(subjects[|subjects| - 1]) then 1 else 0)
  }

  /** One subject: the conversion raises exactly on a blank subject whose
      result date does not parse; otherwise the result date is gone, a
      collection date is present where there was a result date, a blank
      subject gets the shifted result date, and a subject without a result
      date is left alone. No other child changes. */
  lemma CorrectDateSpec(s: Elems, shift: DateShift)
    ensures CorrectDate(s, shift).None? <==> Raises(s, shift)
    ensures CorrectDate(s, shift).Some? ==>
      var c := CorrectDate(s, shift).value;
      && c.blank == Blank(s)
      && RESULT_DATE !in c.rec
      && (RESULT_DATE in s ==> DATE_TIME_STAMP in c.rec)
      && (Blank(s) ==> c.rec[DATE_TIME_STAMP] == shift(s[RESULT_DATE]).value)
      && (RESULT_DATE !in s ==> c.rec == s)
      && OthersKept(s, c.rec)
  {
  }

  /** Exactly the subjects that need a conversion which raises make the
      pass raise. */
  lemma {:induction false} CorrectAllFails(subjects: seq<Elems>, shift: DateShift)
    ensures CorrectAll(subjects, shift).failed <==> exists k :: 0 <= k < |subjects| && Raises(subjects[k], shift)
    decreases |subjects|
  {
    if subjects != [] {
      var pre := subjects[..|subjects| - 1];
      CorrectAllFails(pre, shift);
      assert forall k :: 0 <= k < |pre| ==> pre[k] == subjects[k];
      CorrectDateSpec(subjects[|subjects| - 1], shift);
    }
  }

  /** A pass that does not raise counts every subject, counts the blank
      ones as blank, and rewrites every subject as `CorrectDateSpec` says. */
  lemma {:induction false} CorrectAllSpec(subjects: seq<Elems>, shift: DateShift)
    requires !CorrectAll(subjects, shift).failed
    ensures var r := CorrectAll(subjects, shift);
      && r.total == |subjects|
      && r.blank == CountBlank(subjects)
      && r.blank <= r.total
      && forall k :: 0 <= k < |subjects| ==>
           && RESULT_DATE !in r.out[k]
           && (RESULT_DATE in subjects[k] ==> DATE_TIME_STAMP in r.out[k])
           && (Blank(subjects[k]) ==> shift(subjects[k][RESULT_DATE]).Some?
                                      && r.out[k][DATE_TIME_STAMP] == shift(subjects[k][RESULT_DATE]).value)
           && (RESULT_DATE !in subjects[k] ==> r.out[k] == subjects[k])
           && OthersKept(subjects[k], r.out[k])
    decreases |subjects|
  {
    if subjects != [] {
      var pre := subjects[..|subjects| - 1];
      var last := subjects[|subjects| - 1];
      CorrectAllSpec(pre, shift);
      CorrectDateSpec(last, shift);
      var p := CorrectAll(pre, shift);
      var c := CorrectDate(last, shift).value;
      assert CorrectAll(subjects, shift) == DateRun(p.out + [c.rec], p.total + 1, p.blank + (if c.blank then 1 else 0), false);
      assert forall k :: 0 <= k < |pre| ==> pre[k] == subjects[k];
    }
  }

  /** After the loop has raised, it leaves the remaining subjects alone. */
  lemma {:induction false} CorrectAllAfterFailure(subjects: seq<Elems>, shift: DateShift, k: nat)
    requires k <= |subjects| && CorrectAll(subjects[..k], shift).failed
    ensures CorrectAll(subjects, shift).failed
    ensures CorrectAll(subjects, shift).out == CorrectAll(subjects[..k], shift).out + subjects[k..]
    decreases |subjects|
  {
    if k < |subjects| {
      var pre := subjects[..|subjects| - 1];
      assert pre[..k] == subjects[..k];
      CorrectAllAfterFailure(pre, shift, k);
      assert subjects[k..] == pre[k..] + [subjects[|subjects| - 1]];
    } else {
      assert subjects[..k] == subjects;
    }
  }

  /** The summary dictionary the function returns. */
  datatype Summary = Summary(total: nat, blank: nat)

  /** The loop body for one subject; None where the conversion raises. */
  method CorrectSubject(subject: Elems, shift: DateShift) returns (c: Option<Corrected>)
    ensures c == CorrectDate(subject, shift)
  {
    var s := subject;
    var blank := false;
    if DATE_TIME_STAMP in s && RESULT_DATE in s {
      if s[DATE_TIME_STAMP] == "" {
        var collected := shift(s[RESULT_DATE]);
        if collected.None? {
          return None;
        }
        s := s[DATE_TIME_STAMP := collected.value];
        blank := true;
      }
      s := s - {RESULT_DATE};
    } else if RESULT_DATE in s {
      var collected := shift(s[RESULT_DATE]);
      if collected.None? {
        return None;
      }
      s := (s - {RESULT_DATE})[DATE_TIME_STAMP := collected.value];
      blank := true;
    }
    c := Some(Corrected(s, blank));
  }

  method VerifyAndCorrectCollectionDate(data: RawData, shift: DateShift) returns (r: Result<Summary>)
    modifies data
    ensures var run := CorrectAll(old(data.subjects), shift);
      data.subjects == run.out && (r.Ok? <==> !run.failed)
      && (r.Ok? ==> r.value == Summary(run.total, run.blank))
  {
    var total: nat := 0;
    var blank: nat := 0;
    ghost var subjects := data.subjects;
    var i := 0;
    while i < |data.subjects|
      invariant 0 <= i <= |subjects| == |data.subjects|
      invariant !CorrectAll(subjects[..i], shift).failed
      invariant CorrectAll(subjects[..i], shift).total == total
      invariant CorrectAll(subjects[..i], shift).blank == blank
      invariant data.subjects == CorrectAll(subjects[..i], shift).out + subjects[i..]
    {
      ghost var prev := CorrectAll(subjects[..i], shift);
      assert subjects[..i + 1][..i] == subjects[..i];
      assert data.subjects[i] == subjects[i];
      var c := CorrectSubject(data.subjects[i], shift);
      if c.None? {
        assert CorrectAll(subjects[..i + 1], shift).out == prev.out + [subjects[i]];
        CorrectAllAfterFailure(subjects, shift, i + 1);
        KeepFirstOfRest(prev.out, subjects[i..]);
        assert subjects[i..][1..] == subjects[i + 1..];
        return Err("time data does not match format");
      }
      total := total + 1;
      if c.value.blank {
        blank := blank + 1;
      }
      assert CorrectAll(subjects[..i + 1], shift).out == prev.out + [c.value.rec];
      ReplaceFirstOfRest(prev.out, c.value.rec, subjects[i..]);
      assert subjects[i..][1..] == subjects[i + 1..];
      data.subjects := data.subjects[i := c.value.rec];
      i := i + 1;
    }
    assert subjects[..i] == subjects;
    assert subjects[i..] == [];
    r := Ok(Summary(total, blank));
  }
}
