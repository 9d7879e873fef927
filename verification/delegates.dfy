/**
 * Multicast delegates, the way the client keeps event handlers: an
 * invocation list to which `+=` appends a handler and from which `-=` takes
 * out the last occurrence of one. An empty list stands for the null delegate.
 */
module Delegates {
  /** An event handler; two handlers are the same delegate when their targets are. */
  datatype Handler = Handler(target: nat)

  /** The position of the last occurrence of `h`, or -1 when there is none. */
  function LastIndex(list: seq<Handler>, h: Handler): (k: int)
    ensures -1 <= k < |list|
    ensures k == -1 <==> h !in list
    ensures k >= 0 ==> list[k] == h && forall j :: k < j < |list| ==> list[j] != h
    decreases |list|
  {
    if list == [] then -1
    else if list[|list| - 1] == h then |list| - 1
    else LastIndex(list[..|list| - 1], h)
  }

  /**
   * `list -= h`: the last occurrence of the handler leaves the list, the
   * others keep their order; a handler that is not there changes nothing.
   */
  function RemoveLast(list: seq<Handler>, h: Handler): (r: seq<Handler>)
    ensures h !in list ==> r == list
    ensures h in list ==> |r| == |list| - 1
    ensures multiset(r) == multiset(list) - multiset{h}
  {
    var k := LastIndex(list, h);
    if k < 0 then list
    else
      assert list == list[..k] + [h] + list[k + 1..];
      list[..k] + list[k + 1..]
  }

  /** Removing a handler right after adding it gives the list back. */
  lemma RemoveUndoesAdd(list: seq<Handler>, h: Handler)
    ensures RemoveLast(list + [h], h) == list
  {
    assert (list + [h])[..|list|] == list;
  }

  /** The list becomes empty (the delegate null) exactly when it held only that handler. */
  lemma RemoveToEmpty(list: seq<Handler>, h: Handler)
    ensures RemoveLast(list, h) == [] <==> list == [] || list == [h]
  {
    if list == [h] {
      assert RemoveLast(list, h) == [];
    }
    if RemoveLast(list, h) == [] && list != [] {
      assert h in list;
      assert |list| == 1;
      assert list[0] == h;
    }
  }
}
