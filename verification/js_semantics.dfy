/** The few pieces of JavaScript semantics the server's logic rests on:
    the values a JSON request body can carry, strict equality against them,
    truthiness of a header, `Array.prototype.find`, `String.prototype.indexOf`
    and `String.prototype.replace` with a string pattern and an empty replacement. */
module JsSemantics {
  import opened Wrappers

  /** A field read out of a parsed JSON body. A field the client did not send is
      `Undefined`. Objects, arrays and non-integer numbers are `Other`: none of
      them is ever strictly equal (`===`) to a string or to an integer. */
  datatype Value = Undefined | Null | Bool(b: bool) | Num(n: int) | Str(s: string) | Other

  /** JavaScript truthiness of an optional string header: `undefined` and `''` are falsy. */
  predicate Truthy(header: Option<string>)
  {
    header.Some? && header.value != []
  }

  /** `s.find(p)`: the first element, in sequence order, that satisfies `p`. */
  function Find<T>(s: seq<T>, p: T -> bool): (r: Option<T>)
    ensures r.None? <==> forall i :: 0 <= i < |s| ==> !p(s[i])
    ensures r.Some? ==> exists i :: 0 <= i < |s| && s[i] == r.value && p(s[i]) &&
                                    forall j :: 0 <= j < i ==> !p(s[j])
  {
    if |s| == 0 then None
    else if p(s[0]) then Some(s[0])
    else
      var r := Find(s[1..], p);
      assert forall i :: 1 <= i < |s| ==> s[1..][i - 1] == s[i];
      r
  }

  /** `pat` occurs in `s` starting at index `i`. */
  predicate OccursAt(s: string, pat: string, i: nat)
  {
    i + |pat| <= |s| && s[i..i + |pat|] == pat
  }

  /** `s.indexOf(pat, from)`, with `None` for JavaScript's -1. */
  function IndexFrom(s: string, pat: string, from: nat): (r: Option<nat>)
    requires from <= |s|
    ensures r.Some? ==> from <= r.value && OccursAt(s, pat, r.value) &&
                        forall j :: from <= j < r.value ==> !OccursAt(s, pat, j)
    ensures r.None? ==> forall j :: from <= j <= |s| ==> !OccursAt(s, pat, j)
    decreases |s| - from
  {
    if OccursAt(s, pat, from) then Some(from)
    else if from == |s| then None
    else IndexFrom(s, pat, from + 1)
  }

  /** `s.indexOf(pat)`: the first index at which `pat` occurs, or `None`. */
  function IndexOf(s: string, pat: string): (r: Option<nat>)
    ensures r.Some? ==> OccursAt(s, pat, r.value) &&
                        forall j :: 0 <= j < r.value ==> !OccursAt(s, pat, j)
    ensures r.None? ==> forall j :: 0 <= j <= |s| ==> !OccursAt(s, pat, j)
  {
    IndexFrom(s, pat, 0)
  }

  /** `s.replace(pat, '')` with a string pattern: only the FIRST occurrence of
      `pat`, wherever it stands in `s`, is cut out; without one `s` is returned.
      (A non-empty replacement text, with its `$` patterns, is not modelled.) */
  function CutFirst(s: string, pat: string): (r: string)
    ensures (forall j :: 0 <= j <= |s| ==> !OccursAt(s, pat, j)) ==> r == s
    ensures forall i: nat :: OccursAt(s, pat, i) && (forall j :: 0 <= j < i ==> !OccursAt(s, pat, j)) ==>
              r == s[..i] + s[i + |pat|..]
  {
    match IndexOf(s, pat)
    case None => s
    case Some(i) => s[..i] + s[i + |pat|..]
  }

  /** Removing a pattern that is a prefix leaves exactly what follows it. */
  lemma StripPrefix(pat: string, rest: string)
    ensures CutFirst(pat + rest, pat) == rest
  {
  }

  /** Removing the first occurrence of a pattern that stands after some text `before`
      (and nowhere earlier) splices `before` and `after` together. */
  lemma StripInner(before: string, pat: string, after: string)
    requires forall j :: 0 <= j < |before| ==> !OccursAt(before + pat + after, pat, j)
    ensures CutFirst(before + pat + after, pat) == before + after
  {
    var s := before + pat + after;
    var i := |before|;
    assert s[..i] == before;
    assert s[i..i + |pat|] == pat;
    assert s[i + |pat|..] == after;
    assert IndexOf(s, pat) == Some(i) by {
      assert OccursAt(s, pat, i);
    }
  }
}
