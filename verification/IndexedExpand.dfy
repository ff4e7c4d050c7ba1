/** Expanding a list into index-value pairs in the space it occupies. */
module IndexedExpand {
  /** What a stack slot holds: a scalar, or a new index. */
  datatype Item = Scalar(value: int) | Index(index: nat)

  /** The pairs, as a list of their own. */
  function Pairs(items: seq<Item>): seq<Item> {
    if items == [] then []
    else Pairs(items[..|items| - 1]) + [Index(|items| - 1), items[|items| - 1]]
  }

  lemma {:induction false} PairsAt(items: seq<Item>, i: nat)
    requires i < |items|
    ensures |Pairs(items)| == 2 * |items|
    ensures Pairs(items)[2 * i] == Index(i) && Pairs(items)[2 * i + 1] == items[i]
  {
    var n := |items| - 1;
    if n > 0 {
      PairsAt(items[..n], if i < n then i else 0);
    }
  }

  lemma {:induction false} PairsLength(items: seq<Item>)
    ensures |Pairs(items)| == 2 * |items|
  {
    if items != [] { PairsLength(items[..|items| - 1]); }
  }

  /** The stack when the items from `index` on have been expanded. */
  ghost function Expanding(was: seq<Item>, base: nat, items: nat, index: nat): seq<Item>
    requires index <= items && base + 2 * items <= |was|
  {
    PairsLength(was[base..base + items]);
    was[..base + 2 * index] + Pairs(was[base..base + items])[2 * index..] + was[base + 2 * items..]
  }

  lemma ExpandingNext(was: seq<Item>, base: nat, items: nat, index: nat)
    requires index < items && base + 2 * items <= |was|
    ensures var now := Expanding(was, base, items, index + 1);
            && |now| == |was| && now[base + index] == was[base + index]
            && now[base + index * 2 + 1 := was[base + index]][base + index * 2 := Index(index)] == Expanding(was, base, items, index)
  {
    var a := was[base..base + items];
    PairsAt(a, index);
    assert a[index] == was[base + index];
    hide Pairs;
  }

  lemma ExpandingEnds(was: seq<Item>, base: nat, items: nat)
    requires base + 2 * items <= |was|
    ensures Expanding(was, base, items, items) == was
    ensures var now := Expanding(was, base, items, 0);
            |now| == |was| && now[..base] == was[..base] && now[base..base + 2 * items] == Pairs(was[base..base + items])
            && now[base + 2 * items..] == was[base + 2 * items..]
  {
    PairsLength(was[base..base + items]);
    hide Pairs;
  }

  /** The loop from the last item down: no argument is overwritten before it is
      read, and nothing outside the result is touched. */
  method Expand(stack: array<Item>, base: nat, items: nat)
    requires base + 2 * items <= stack.Length
    modifies stack
    ensures stack[base..base + 2 * items] == Pairs(old(stack[base..base + items]))
    ensures stack[..base] == old(stack[..base]) && stack[base + 2 * items..] == old(stack[base + 2 * items..])
  {
    hide Pairs, Expanding;
    ghost var was := stack[..];
    assert was[base..base + items] == stack[base..base + items];
    ExpandingEnds(was, base, items);
    var index: nat := items;
    while index > 0
      invariant index <= items && stack[..] == Expanding(was, base, items, index)
    {
      index := index - 1;
      ExpandingNext(was, base, items, index);
      assert stack[base + index] == stack[..][base + index];
      stack[base + index * 2 + 1] := stack[base + index];
      stack[base + index * 2] := Index(index);
    }
    assert stack[base..base + 2 * items] == stack[..][base..base + 2 * items];
    assert stack[..base] == stack[..][..base] && stack[base + 2 * items..] == stack[..][base + 2 * items..];
  }
}
