/** Two traversals the core performs over a map's iteration order:
    the search for the first entry that matches, and string building. */
module Seqs {
  import opened Errors

  /** Index of the first element satisfying `f`, the way a for-each loop
      with an early return finds it; None when no element does. */
  function FirstIndexWhere<T>(s: seq<T>, f: T -> bool): (r: Option<nat>)
    ensures r.Some? ==> r.value < |s| && f(s[r.value])
    ensures r.Some? ==> forall j :: 0 <= j < r.value ==> !f(s[j])
    ensures r.None? <==> forall j :: 0 <= j < |s| ==> !f(s[j])
  {
    if s == [] then None
    else if f(s[0]) then Some(0)
    else
      match FirstIndexWhere(s[1..], f)
      case None => None
      case Some(k) => Some(k + 1)
  }

  /** The one index the search can answer: the first match. */
  lemma FirstIndexWhereIs<T>(s: seq<T>, f: T -> bool, i: nat)
    requires i < |s| && f(s[i])
    requires forall j :: 0 <= j < i ==> !f(s[j])
    ensures FirstIndexWhere(s, f) == Some(i)
  {
  }

  /** The text a StringBuilder holds after appending `f(x)` for every `x` of `s`, in order. */
  function Concat<T>(s: seq<T>, f: T -> string): string
  {
    if s == [] then "" else f(s[0]) + Concat(s[1..], f)
  }

  /** Appending two runs of a loop yields the concatenation of their texts. */
  lemma {:induction false} ConcatAppend<T>(a: seq<T>, b: seq<T>, f: T -> string)
    ensures Concat(a + b, f) == Concat(a, f) + Concat(b, f)
  {
    if a == [] {
      assert a + b == b;
    } else {
      assert (a + b)[0] == a[0];
      assert (a + b)[1..] == a[1..] + b;
      ConcatAppend(a[1..], b, f);
    }
  }

  /** One more iteration appends one more element's text. */
  lemma ConcatStep<T>(s: seq<T>, i: nat, f: T -> string)
    requires i < |s|
    ensures Concat(s[..i + 1], f) == Concat(s[..i], f) + f(s[i])
  {
    assert s[..i + 1] == s[..i] + [s[i]];
    ConcatAppend(s[..i], [s[i]], f);
    assert Concat([s[i]], f) == f(s[i]) + Concat([], f);
  }

  /** Wherever the text of a run is embedded, each element's text sits right
      after the texts of the elements before it. */
  lemma ConcatEmbedded<T>(head: string, s: seq<T>, tail: string, f: T -> string, i: nat)
    requires i < |s|
    ensures var r, k := head + Concat(s, f) + tail, |head| + |Concat(s[..i], f)|;
      k + |f(s[i])| <= |r| && r[k..k + |f(s[i])|] == f(s[i])
  {
    ConcatSplit(s, f, i);
    var before, x, after := Concat(s[..i], f), f(s[i]), Concat(s[i + 1..], f);
    var r := head + before + x + (after + tail);
    assert head + Concat(s, f) + tail == r;
    assert r[|head| + |before|..|head| + |before| + |x|] == x;
  }

  /** Every element's text appears in the whole text, between the texts of
      the elements before it and those after it. */
  lemma ConcatSplit<T>(s: seq<T>, f: T -> string, i: nat)
    requires i < |s|
    ensures Concat(s, f) == Concat(s[..i], f) + f(s[i]) + Concat(s[i + 1..], f)
  {
    assert s == s[..i + 1] + s[i + 1..];
    ConcatAppend(s[..i + 1], s[i + 1..], f);
    ConcatStep(s, i, f);
  }
}
