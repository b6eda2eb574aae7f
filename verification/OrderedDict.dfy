/** A Python dict with string keys: iteration is in insertion order, and setting an existing key keeps its place. */
module OrderedDict {
  import opened Text

  function Without(s: seq<string>, x: string): (r: seq<string>)
    ensures forall y :: y in r <==> y in s && y != x
    ensures |r| <= |s|
  {
    if s == [] then []
    else Without(s[..|s| - 1], x) + if s[|s| - 1] == x then [] else [s[|s| - 1]]
  }

  lemma {:induction false} WithoutKeepsDistinct(s: seq<string>, x: string)
    requires NoDuplicates(s)
    ensures NoDuplicates(Without(s, x))
  {
    if s != [] {
      var init, last := s[..|s| - 1], s[|s| - 1];
      WithoutKeepsDistinct(init, x);
      assert last !in init;
      assert last !in Without(init, x);
    }
  }

  /** What is left keeps its order. */
  lemma {:induction false} WithoutKeepsOrder(s: seq<string>, x: string) returns (at: seq<int>)
    ensures ReadOff(s, at, Without(s, x))
  {
    at := [];
    if s != [] {
      var init, last := s[..|s| - 1], s[|s| - 1];
      at := WithoutKeepsOrder(init, x);
      ReadOffSnoc(init, at, Without(init, x), last);
      assert s == init + [last];
      if last != x { at := at + [|init|]; }
    }
  }

  datatype Dict<V> = Dict(order: seq<string>, entries: map<string, V>) {

    ghost predicate Valid() {
      NoDuplicates(order) && forall k :: k in order <==> k in entries
    }

    /** `d[k] = v` */
    function Put(k: string, v: V): (r: Dict<V>)
      ensures Valid() ==> r.Valid()
      ensures r.entries == entries[k := v]
      ensures order <= r.order && |r.order| <= |order| + 1
    {
      Dict(if k in entries then order else order + [k], entries[k := v])
    }

    /** `d.pop(k, None)` */
    function Pop(k: string): (r: Dict<V>)
      ensures Valid() ==> r.Valid()
      ensures r.entries == entries - {k}
    {
      WithoutKeepsDistinctIfDistinct(order, k);
      Dict(Without(order, k), entries - {k})
    }
  }

  lemma WithoutKeepsDistinctIfDistinct(s: seq<string>, x: string)
    ensures NoDuplicates(s) ==> NoDuplicates(Without(s, x))
  {
    if NoDuplicates(s) { WithoutKeepsDistinct(s, x); }
  }
}
