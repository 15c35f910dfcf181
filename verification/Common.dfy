/** Types and folds shared by the models of the kernel-facing programs. */
module Common {

  type Byte = b: int | 0 <= b < 256

  /** An address of a heap block, as malloc returns it. */
  type Ptr = nat

  datatype Option<+T> = None | Some(value: T)

  function Zeroes(n: nat): (z: seq<Byte>)
    ensures |z| == n
  {
    seq(n, _ => 0)
  }

  /** The total weight of the records in a heap of blocks. */
  ghost function Sum<V>(heap: map<Ptr, V>, weight: V -> nat): nat
    decreases |heap|
  {
    if heap == map[] then 0
    else
      var p :| p in heap;
      weight(heap[p]) + Sum(heap - {p}, weight)
  }

  /** The order in which the blocks are added up does not matter. */
  lemma {:induction false} SumRemove<V>(heap: map<Ptr, V>, weight: V -> nat, p: Ptr)
    requires p in heap
    ensures Sum(heap, weight) == weight(heap[p]) + Sum(heap - {p}, weight)
    decreases |heap|
  {
    var q :| q in heap && Sum(heap, weight) == weight(heap[q]) + Sum(heap - {q}, weight);
    if p != q {
      SumRemove(heap - {q}, weight, p);
      SumRemove(heap - {p}, weight, q);
      assert heap - {p} - {q} == heap - {q} - {p};
    }
  }

  lemma SumPut<V>(heap: map<Ptr, V>, weight: V -> nat, p: Ptr, v: V)
    ensures Sum(heap[p := v], weight) == weight(v) + Sum(heap - {p}, weight)
  {
    SumRemove(heap[p := v], weight, p);
    assert heap[p := v] - {p} == heap - {p};
  }

  /** Replacing one record changes the total by the difference of its weights. */
  lemma SumUpdate<V>(heap: map<Ptr, V>, weight: V -> nat, p: Ptr, v: V)
    requires p in heap
    ensures Sum(heap[p := v], weight) == Sum(heap, weight) - weight(heap[p]) + weight(v)
  {
    SumPut(heap, weight, p, v);
    SumRemove(heap, weight, p);
  }

  lemma SumFresh<V>(heap: map<Ptr, V>, weight: V -> nat, p: Ptr, v: V)
    requires p !in heap
    ensures Sum(heap[p := v], weight) == Sum(heap, weight) + weight(v)
  {
    SumPut(heap, weight, p, v);
    assert heap - {p} == heap;
  }
}
