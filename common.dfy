/** Small shared vocabulary: optional values, results with an error message,
    and the string helpers the pipeline needs (prefix test, Python's string
    ordering, decimal rendering of counters). */
module Common {

  datatype Option<T> = None | Some(value: T)

  /** An operation that either produces a value or raises with a message. */
  datatype Result<T> = Ok(value: T) | Err(error: string)

  /** `convert_none_type_object_to_empty_string`: a missing text reads as "". */
  function OrEmpty(o: Option<string>): (s: string)
    ensures o.None? ==> s == ""
    ensures o.Some? ==> s == o.value
  {
    match o
    case None => ""
    case Some(t) => t
  }

  /** The position of the first occurrence of `name`, if any. */
  function FirstIndex(names: seq<string>, name: string): (r: Option<nat>)
    ensures r.Some? ==> r.value < |names| && names[r.value] == name
    ensures r.Some? ==> forall l :: 0 <= l < r.value ==> names[l] != name
    ensures r.None? ==> forall l :: 0 <= l < |names| ==> names[l] != name
    decreases |names|
  {
    if names == [] then None
    else
      var pre := FirstIndex(names[..|names| - 1], name);
      if pre.Some? then pre
      else if names[|names| - 1] == name then Some(|names| - 1)
      else None
  }

  /** An occurrence with no earlier one is the first occurrence. */
  lemma FirstIndexOf(names: seq<string>, name: string, i: nat)
    requires i < |names| && names[i] == name
    requires forall l :: 0 <= l < i ==> names[l] != name
    ensures FirstIndex(names, name) == Some(i)
  {
  }

  /** The only distinction `OrEmpty` loses is the one between a missing
      text and an empty one: two texts read alike exactly when they are
      equal or both are missing or empty. */
  lemma OrEmptyConflates(a: Option<string>, b: Option<string>)
    ensures OrEmpty(a) == OrEmpty(b) <==> a == b || (a in {None, Some("")} && b in {None, Some("")})
  {
  }

  /** `str.startswith`. */
  predicate StartsWith(s: string, prefix: string)
  {
    |prefix| <= |s| && s[..|prefix|] == prefix
  }

  /** Python's ordering of strings: lexicographic by character code. */
  predicate StrLe(a: string, b: string)
    decreases |a|
  {
    |a| == 0 || (|b| > 0 && (a[0] < b[0] || (a[0] == b[0] && StrLe(a[1..], b[1..]))))
  }

  lemma {:induction false} StrLeReflexive(a: string)
    ensures StrLe(a, a)
    decreases |a|
  {
    if |a| > 0 {
      StrLeReflexive(a[1..]);
    }
  }

  lemma {:induction false} StrLeTotal(a: string, b: string)
    ensures StrLe(a, b) || StrLe(b, a)
    decreases |a|
  {
    if |a| > 0 && |b| > 0 && a[0] == b[0] {
      StrLeTotal(a[1..], b[1..]);
    }
  }

  lemma {:induction false} StrLeAntisymmetric(a: string, b: string)
    requires StrLe(a, b) && StrLe(b, a)
    ensures a == b
    decreases |a|
  {
    if |a| > 0 {
      StrLeAntisymmetric(a[1..], b[1..]);
      assert a == [a[0]] + a[1..];
      assert b == [b[0]] + b[1..];
    }
  }

  lemma {:induction false} StrLeTransitive(a: string, b: string, c: string)
    requires StrLe(a, b) && StrLe(b, c)
    ensures StrLe(a, c)
    decreases |a|
  {
    if |a| > 0 && a[0] == b[0] && b[0] == c[0] {
      StrLeTransitive(a[1..], b[1..], c[1..]);
    }
  }

  function DigitChar(d: nat): char
    requires d < 10
  {
    "0123456789"[d]
  }

  /** `str(n)` for a counter. */
  function NatToString(n: nat): (s: string)
    ensures |s| > 0
    ensures forall k :: 0 <= k < |s| ==> '0' <= s[k] <= '9'
    decreases n
  {
    if n < 10 then [DigitChar(n)] else NatToString(n / 10) + [DigitChar(n % 10)]
  }

  /** Moving the first unprocessed element to the processed part. */
  lemma KeepFirstOfRest<T>(done: seq<T>, rest: seq<T>)
    requires |rest| > 0
    ensures (done + [rest[0]]) + rest[1..] == done + rest
  {
  }

  /** Overwriting the first unprocessed element extends the processed part. */
  lemma ReplaceFirstOfRest<T>(done: seq<T>, x: T, rest: seq<T>)
    requires |rest| > 0
    ensures (done + rest)[|done| := x] == (done + [x]) + rest[1..]
  {
  }
}
