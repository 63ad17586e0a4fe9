/** The two helpers of Go's `strings` package that the module uses. */
module Strings {

  /** strings.HasSuffix: `s` ends with `suffix`. */
  predicate HasSuffix(s: string, suffix: string)
  {
    |suffix| <= |s| && s[|s| - |suffix|..] == suffix
  }

  /** strings.Join: the elements of `elems` with `sep` between each neighbouring pair. */
  function Join(elems: seq<string>, sep: string): (r: string)
    ensures |elems| == 0 ==> r == ""
    ensures |elems| > 0 ==> |r| == SumLengths(elems) + (|elems| - 1) * |sep|
    ensures |elems| > 0 ==> r[..|elems[0]|] == elems[0]
  {
    if |elems| == 0 then ""
    else if |elems| == 1 then elems[0]
    else elems[0] + sep + Join(elems[1..], sep)
  }

  /** Total length of the strings in `elems`. */
  function SumLengths(elems: seq<string>): nat
  {
    if |elems| == 0 then 0 else |elems[0]| + SumLengths(elems[1..])
  }

  /** Joining a list of four strings spells out the three separators. */
  lemma JoinFour(a: string, b: string, c: string, d: string, sep: string)
    ensures Join([a, b, c, d], sep) == a + sep + b + sep + c + sep + d
  {
    assert [a, b, c, d][1..] == [b, c, d];
    assert [b, c, d][1..] == [c, d];
    assert [c, d][1..] == [d];
    assert Join([c, d], sep) == c + sep + d;
    assert Join([b, c, d], sep) == b + sep + (c + sep + d);
  }
}
