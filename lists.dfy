/** The array operations the components build on: `filter`, `findIndex` and
    `map`, as functions over sequences, with the facts the rest of the model
    uses about them. */
module Lists {

  datatype Option<T> = None | Some(value: T)

  /** `Array.prototype.filter`: the elements of `s` that satisfy `f`, in order. */
  function Filter<T>(s: seq<T>, f: T -> bool): (r: seq<T>)
    ensures |r| <= |s|
    ensures forall x :: x in r ==> x in s && f(x)
  {
    if s == [] then [] else (if f(s[0]) then [s[0]] else []) + Filter(s[1..], f)
  }

  /** `Array.prototype.findIndex`: the smallest index whose element satisfies
      `f`, or `None` (JavaScript's -1) when there is none. */
  function FindIndex<T>(s: seq<T>, f: T -> bool): (r: Option<nat>)
    ensures r.Some? ==> r.value < |s| && f(s[r.value])
    ensures r.Some? ==> forall j :: 0 <= j < r.value ==> !f(s[j])
    ensures r.None? <==> forall j :: 0 <= j < |s| ==> !f(s[j])
  {
    if s == [] then None
    else if f(s[0]) then Some(0)
    else match FindIndex(s[1..], f)
      case Some(i) => Some(i + 1)
      case None => None
  }

  /** `Array.prototype.map`. */
  function Map<A, B>(s: seq<A>, f: A -> B): (r: seq<B>)
    ensures |r| == |s|
  {
    seq(|s|, i requires 0 <= i < |s| => f(s[i]))
  }

  // ---------------------------------------------------------------------------
  // Properties

  /** Filtering keeps every element that satisfies the predicate. */
  lemma {:induction false} FilterComplete<T>(s: seq<T>, f: T -> bool, x: T)
    requires x in s && f(x)
    ensures x in Filter(s, f)
  {
    if s[0] != x {
      FilterComplete(s[1..], f, x);
    }
  }

  /** Filtering a concatenation filters each part: filtering keeps order. */
  lemma {:induction false} FilterConcat<T>(a: seq<T>, b: seq<T>, f: T -> bool)
    ensures Filter(a + b, f) == Filter(a, f) + Filter(b, f)
  {
    if a == [] {
      assert a + b == b;
    } else {
      assert (a + b)[0] == a[0];
      assert (a + b)[1..] == a[1..] + b;
      FilterConcat(a[1..], b, f);
    }
  }

  /** Filtering a sequence with a known head. */
  lemma FilterCons<T>(a: T, t: seq<T>, f: T -> bool)
    ensures Filter([a] + t, f) == (if f(a) then [a] else []) + Filter(t, f)
  {
    assert ([a] + t)[0] == a;
    assert ([a] + t)[1..] == t;
  }

  /** Two sequences of which one is empty commute in front of a third. */
  lemma SwapEmpty<T>(a: seq<T>, b: seq<T>, c: seq<T>)
    requires a == [] || b == []
    ensures a + (b + c) == b + (a + c)
  {
  }

  /** Filtering with a predicate every element satisfies changes nothing. */
  lemma {:induction false} FilterAll<T>(s: seq<T>, f: T -> bool)
    requires forall i :: 0 <= i < |s| ==> f(s[i])
    ensures Filter(s, f) == s
  {
    if s != [] {
      FilterAll(s[1..], f);
    }
  }

  /** Filtering with a predicate no element satisfies leaves nothing. */
  lemma {:induction false} FilterNone<T>(s: seq<T>, f: T -> bool)
    requires forall i :: 0 <= i < |s| ==> !f(s[i])
    ensures Filter(s, f) == []
  {
    if s != [] {
      FilterNone(s[1..], f);
    }
  }

  /** Filtering twice with the same predicate is filtering once. */
  lemma FilterIdempotent<T>(s: seq<T>, f: T -> bool)
    ensures Filter(Filter(s, f), f) == Filter(s, f)
  {
    var r := Filter(s, f);
    forall i | 0 <= i < |r|
      ensures f(r[i])
    {
      assert r[i] in r;
    }
    FilterAll(r, f);
  }

  /** The length of a filter is the number of elements that satisfy the predicate. */
  function CountWhere<T>(s: seq<T>, f: T -> bool): nat {
    if s == [] then 0 else (if f(s[0]) then 1 else 0) + CountWhere(s[1..], f)
  }

  lemma {:induction false} FilterLength<T>(s: seq<T>, f: T -> bool)
    ensures |Filter(s, f)| == CountWhere(s, f)
  {
    if s != [] {
      FilterLength(s[1..], f);
    }
  }

  /** The first match that `FindIndex` reports heads the filtered sequence, and
      an empty search means an empty filter. */
  lemma {:induction false} FindIndexHeadsFilter<T>(s: seq<T>, f: T -> bool)
    ensures FindIndex(s, f).None? ==> Filter(s, f) == []
    ensures FindIndex(s, f).Some? ==>
              Filter(s, f) == [s[FindIndex(s, f).value]] + Filter(s[FindIndex(s, f).value + 1..], f)
  {
    if s != [] && !f(s[0]) {
      FindIndexHeadsFilter(s[1..], f);
      if FindIndex(s[1..], f).Some? {
        var i := FindIndex(s[1..], f).value;
        assert s[1..][i + 1..] == s[i + 2..];
      }
    }
  }

  /** Overwriting the first element that satisfies `f` with another such
      element puts the new one at the head of the filter. */
  lemma FilterReplaceFirst<T>(s: seq<T>, f: T -> bool, i: nat, x: T)
    requires i < |s| && f(s[i]) && f(x)
    requires forall j :: 0 <= j < i ==> !f(s[j])
    ensures Filter(s[i := x], f) == [x] + Filter(s[i + 1..], f)
  {
    var pre := s[..i];
    var post := s[i + 1..];
    assert s[i := x] == pre + ([x] + post);
    FilterConcat(pre, [x] + post, f);
    forall j | 0 <= j < |pre|
      ensures !f(pre[j])
    {
      assert pre[j] == s[j];
    }
    FilterNone(pre, f);
    assert ([x] + post)[1..] == post;
  }

  /** Mapping a concatenation maps each part. */
  lemma MapConcat<A, B>(a: seq<A>, b: seq<A>, f: A -> B)
    ensures Map(a + b, f) == Map(a, f) + Map(b, f)
  {
  }
}
