/** Types shared by every module: machine-width integers, bytes and an option type. */
module Prelude {

  const U32_LIMIT: int := 0x1_0000_0000
  const U64_LIMIT: int := 0x1_0000_0000_0000_0000

  type U32 = x: int | 0 <= x < 0x1_0000_0000
  type U64 = x: int | 0 <= x < 0x1_0000_0000_0000_0000
  type I64 = x: int | -0x8000_0000_0000_0000 <= x < 0x8000_0000_0000_0000

  newtype Byte = x: int | 0 <= x < 256

  type Data = seq<Byte>

  datatype Option<+T> = None | Some(value: T) {

    predicate IsFailure() {
      None?
    }

    function PropagateFailure<U>(): Option<U>
      requires None?
    {
      None
    }

    function Extract(): T
      requires Some?
    {
      value
    }
  }

  /** Applies a partial function to every element, all or nothing. */
  function TryMap<A, B>(f: A -> Option<B>, items: seq<A>): (r: Option<seq<B>>)
    ensures r.Some? ==> |r.value| == |items| && forall i | 0 <= i < |items| :: f(items[i]) == Some(r.value[i])
    ensures r.None? ==> exists i | 0 <= i < |items| :: f(items[i]) == None
  {
    if items == [] then Some([])
    else
      var n := |items| - 1;
      var front := TryMap(f, items[..n]);
      if front.None? then
        assert exists i | 0 <= i < n :: f(items[..n][i]) == None;
        None
      else
        var last :- f(items[n]);
        Some(front.value + [last])
  }

  lemma {:induction false} TryMapIs<A, B>(f: A -> Option<B>, items: seq<A>, values: seq<B>)
    requires |values| == |items| && forall i | 0 <= i < |items| :: f(items[i]) == Some(values[i])
    ensures TryMap(f, items) == Some(values)
  {
    assert TryMap(f, items).Some?;
    assert TryMap(f, items).value == values;
  }

  /** Growing a prefix of some items by one. */
  lemma {:induction false} TakeSteps<T>(base: seq<T>, items: seq<T>, j: nat)
    requires j <= |items|
    ensures j < |items| ==> base + items[..j + 1] == base + items[..j] + [items[j]]
    ensures base + items[..0] == base && items[..|items|] == items
  {
    if j < |items| { assert items[..j + 1] == items[..j] + [items[j]]; }
  }
}
