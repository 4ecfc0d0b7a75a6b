/**
 * The stored entity and the three array operations the request handler runs
 * over the loaded list: `find` by id, `filter` out an id, and the
 * `name || item.name` rename.
 */
module Items {
  import opened Wrappers

  /** One record of items.json. */
  datatype Item = Item(id: int, name: string)

  /** JavaScript truthiness of the request's `name` field: present and not the empty string. */
  predicate Truthy(name: Option<string>) {
    name.Some? && name.value != ""
  }

  /** The position of the first item whose id is `id` (what `items.find` returns), or None. */
  function FindIndex(items: seq<Item>, id: int): (r: Option<nat>)
    ensures r.Some? ==> r.value < |items| && items[r.value].id == id
    ensures r.Some? ==> forall j :: 0 <= j < r.value ==> items[j].id != id
    ensures r.None? ==> forall j :: 0 <= j < |items| ==> items[j].id != id
    decreases |items|
  {
    if items == [] then None
    else if items[0].id == id then Some(0)
    else
      match FindIndex(items[1..], id)
      case None => None
      case Some(i) => Some(i + 1)
  }

  /** How many items carry the id. */
  function CountId(items: seq<Item>, id: int): (n: nat)
    ensures n <= |items|
    ensures n == 0 <==> forall j :: 0 <= j < |items| ==> items[j].id != id
    decreases |items|
  {
    if items == [] then 0
    else CountId(items[..|items| - 1], id) + (if items[|items| - 1].id == id then 1 else 0)
  }

  /** `items.filter(item => item.id !== id)`: every item with another id, in order. */
  function RemoveId(items: seq<Item>, id: int): (r: seq<Item>)
    ensures |r| == |items| - CountId(items, id)
    ensures forall x :: x in r ==> x.id != id
    decreases |items|
  {
    if items == [] then []
    else
      var init := items[..|items| - 1];
      var last := items[|items| - 1];
      assert items == init + [last];
      RemoveId(init, id) + (if last.id != id then [last] else [])
  }

  /** `item.name = name || item.name`: the id stays, the name changes only to a truthy one. */
  function Rename(item: Item, name: Option<string>): (r: Item)
    ensures r.id == item.id
  {
    if Truthy(name) then item.(name := name.value) else item
  }

  /** Filtering distributes over concatenation, so the kept items keep their relative order. */
  lemma {:induction false} RemoveIdAppend(a: seq<Item>, b: seq<Item>, id: int)
    ensures RemoveId(a + b, id) == RemoveId(a, id) + RemoveId(b, id)
    decreases |b|
  {
    if b != [] {
      var b' := b[..|b| - 1];
      var last := b[|b| - 1];
      var tail := if last.id != id then [last] else [];
      assert (a + b)[..|a + b| - 1] == a + b';
      assert (a + b)[|a + b| - 1] == last;
      assert RemoveId(a + b, id) == RemoveId(a + b', id) + tail;
      assert RemoveId(b, id) == RemoveId(b', id) + tail;
      RemoveIdAppend(a, b', id);
    } else {
      assert a + b == a;
    }
  }

  /** Every item with another id is kept exactly as often as it occurs. */
  lemma {:induction false} RemoveIdKeepsOthers(items: seq<Item>, id: int, x: Item)
    requires x.id != id
    ensures multiset(RemoveId(items, id))[x] == multiset(items)[x]
    decreases |items|
  {
    if items != [] {
      var init := items[..|items| - 1];
      var last := items[|items| - 1];
      assert items == init + [last];
      RemoveIdKeepsOthers(init, id, x);
    }
  }

  /** Filtering a list without the id leaves it as it is. */
  lemma {:induction false} RemoveIdNoMatch(items: seq<Item>, id: int)
    requires forall j :: 0 <= j < |items| ==> items[j].id != id
    ensures RemoveId(items, id) == items
    decreases |items|
  {
    if items != [] {
      RemoveIdNoMatch(items[..|items| - 1], id);
      assert items[..|items| - 1] + [items[|items| - 1]] == items;
    }
  }

  /** Filtering twice removes nothing more. */
  lemma RemoveIdIdempotent(items: seq<Item>, id: int)
    ensures RemoveId(RemoveId(items, id), id) == RemoveId(items, id)
  {
    var r := RemoveId(items, id);
    assert forall j :: 0 <= j < |r| ==> r[j] in r;
    RemoveIdNoMatch(r, id);
  }
}
