/** The pattern the catalogue pages share: a drop-down whose `All` entry shows every item and
    whose other entries keep the items with that field value, and the drop-down's options,
    the distinct field values in first-appearance order. */
module Catalogue {
  import Seqs

  /** The drop-down entry that disables the filter. */
  const All := "All"

  /** `choice === 'All' ? items : items.filter(x => key(x) === choice)`. */
  function FilterBy<T(!new)>(items: seq<T>, key: T -> string, choice: string): (r: seq<T>)
    ensures choice == All ==> r == items
    ensures choice != All ==> forall x :: x in r <==> x in items && key(x) == choice
    ensures choice != All ==> forall x :: multiset(r)[x] == if key(x) == choice then multiset(items)[x] else 0
    ensures Seqs.IsSubsequence(r, items)
  {
    if choice == All then
      Seqs.SubsequenceRefl(items);
      items
    else
      Seqs.Filter(items, (x: T) => key(x) == choice)
  }

  /** `items.map(key)`. */
  function Keys<T>(items: seq<T>, key: T -> string): (r: seq<string>)
    ensures |r| == |items|
    ensures forall i :: 0 <= i < |items| ==> r[i] == key(items[i])
  {
    seq(|items|, i requires 0 <= i < |items| => key(items[i]))
  }

  /** `Array.from(new Set(items.map(key)))`. */
  function Options<T>(items: seq<T>, key: T -> string): (r: seq<string>)
    ensures Seqs.Distinct(r)
    ensures forall x :: x in items ==> key(x) in r
    ensures forall v :: v in r ==> exists x :: x in items && key(x) == v
    ensures Seqs.FirstOccurrenceOrder(r, Keys(items, key))
  {
    var all := Keys(items, key);
    assert forall x :: x in items ==> key(x) in all by {
      forall x | x in items ensures key(x) in all {
        var i :| 0 <= i < |items| && items[i] == x;
        assert all[i] == key(x);
      }
    }
    Seqs.Dedup(all)
  }

  /** Choosing any offered option keeps at least one item. */
  lemma OptionNonEmpty<T(!new)>(items: seq<T>, key: T -> string, choice: string)
    requires choice in Options(items, key)
    ensures FilterBy(items, key, choice) != []
  {
    var x :| x in items && key(x) == choice;
    if choice != All {
      assert x in FilterBy(items, key, choice);
    }
  }
}
