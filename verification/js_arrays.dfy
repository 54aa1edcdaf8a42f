/** The JavaScript array operations the simple server's route handlers use:
    `findIndex` (and `find`, which is `findIndex` followed by an index) and the
    `filter(x => x._id !== id)` that deletes records by id. */
module JsArrays {
  import opened JsValues

  /** `s.findIndex(p)`: the index of the first element satisfying `p`, or -1. */
  function FindIndex<T>(s: seq<T>, p: T -> bool): (r: int)
    ensures -1 <= r < |s|
    ensures r == -1 ==> forall i :: 0 <= i < |s| ==> !p(s[i])
    ensures r != -1 ==> p(s[r]) && forall i :: 0 <= i < r ==> !p(s[i])
  {
    if |s| == 0 then -1
    else if p(s[0]) then 0
    else
      var k := FindIndex(s[1..], p);
      if k == -1 then -1 else k + 1
  }

  /** `s.filter(x => idOf(x) !== id)`: the elements whose id differs from `id`,
      in their original order. The contract fixes which elements survive and how
      many are dropped; `FilterOutAppend` fixes their order. */
  function FilterOut<T(==)>(s: seq<T>, idOf: T -> Value, id: Value): (r: seq<T>)
    ensures |r| == |s| - CountId(s, idOf, id)
    ensures forall i :: 0 <= i < |r| ==> r[i] in s && idOf(r[i]) != id
    ensures forall i :: 0 <= i < |s| && idOf(s[i]) != id ==> s[i] in r
    ensures (forall i :: 0 <= i < |s| ==> idOf(s[i]) != id) ==> r == s
  {
    if |s| == 0 then []
    else if idOf(s[0]) == id then FilterOut(s[1..], idOf, id)
    else [s[0]] + FilterOut(s[1..], idOf, id)
  }

  /** Filtering distributes over concatenation; with the one-element cases of
      the definition this fixes the order of the survivors. */
  lemma {:induction false} FilterOutAppend<T>(a: seq<T>, b: seq<T>, idOf: T -> Value, id: Value)
    ensures FilterOut(a + b, idOf, id) == FilterOut(a, idOf, id) + FilterOut(b, idOf, id)
  {
    if |a| == 0 {
      assert a + b == b;
    } else {
      assert (a + b)[1..] == a[1..] + b;
      FilterOutAppend(a[1..], b, idOf, id);
    }
  }

  /** Deleting the same id twice leaves what deleting it once left: no survivor
      carries the id, so the second filter returns its input unchanged. */
  lemma FilterOutIdempotent<T>(s: seq<T>, idOf: T -> Value, id: Value)
    ensures FilterOut(FilterOut(s, idOf, id), idOf, id) == FilterOut(s, idOf, id)
  {
  }

  /** The number of elements carrying `id`: the ones a deletion drops. */
  function CountId<T>(s: seq<T>, idOf: T -> Value, id: Value): (n: nat)
    ensures n <= |s|
    ensures n == 0 <==> forall i :: 0 <= i < |s| ==> idOf(s[i]) != id
  {
    if |s| == 0 then 0
    else (if idOf(s[0]) == id then 1 else 0) + CountId(s[1..], idOf, id)
  }
}
