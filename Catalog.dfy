/** The items table, as the ledger, the dashboard and the importers read it. */
module Catalog {
  import opened Common

  type ItemId = int

  datatype Item = Item(id: ItemId, name: string, reorderLevel: int)

  /** items.id is the table's primary key. */
  ghost predicate DistinctIds(items: seq<Item>) {
    forall i, j :: 0 <= i < j < |items| ==> items[i].id != items[j].id
  }

  /** The name of the item with the given id, as an inner JOIN on items.id
      finds it. */
  function NameOf(items: seq<Item>, id: ItemId): (r: Option<string>)
    ensures r.None? <==> forall i :: 0 <= i < |items| ==> items[i].id != id
    ensures r.Some? ==> exists i :: 0 <= i < |items| && items[i].id == id && items[i].name == r.value
  {
    if items == [] then None
    else if items[0].id == id then Some(items[0].name)
    else
      var r := NameOf(items[1..], id);
      assert forall i :: 0 < i < |items| ==> items[i] == items[1..][i - 1];
      r
  }

  /** The dictionary `{norm(item.name): item.id for item in items}`, built in
      table order: where two items normalise alike the later one wins. */
  function NameLookup(items: seq<Item>, norm: string -> string): map<string, ItemId>
    decreases |items|
  {
    if items == [] then map[]
    else NameLookup(items[..|items| - 1], norm)[norm(items[|items| - 1].name) := items[|items| - 1].id]
  }

  /** No later item shares the normalised name of item i. */
  ghost predicate LastOfItsName(items: seq<Item>, norm: string -> string, i: int)
    requires 0 <= i < |items|
  {
    forall j :: i < j < |items| ==> norm(items[j].name) != norm(items[i].name)
  }

  /** Every item's normalised name is a key, every key is some item's
      normalised name, and a key maps to the last item carrying it. */
  lemma {:induction false} NameLookupSpec(items: seq<Item>, norm: string -> string)
    ensures forall i :: 0 <= i < |items| ==> norm(items[i].name) in NameLookup(items, norm)
    ensures forall k :: k in NameLookup(items, norm) ==>
              exists i :: 0 <= i < |items| && norm(items[i].name) == k && items[i].id == NameLookup(items, norm)[k]
    ensures forall i :: 0 <= i < |items| && LastOfItsName(items, norm, i) ==>
              NameLookup(items, norm)[norm(items[i].name)] == items[i].id
    decreases |items|
  {
    if items != [] {
      var n := |items| - 1;
      var front := items[..n];
      NameLookupSpec(front, norm);
      assert forall i :: 0 <= i < n ==> front[i] == items[i];
      forall i | 0 <= i < n && LastOfItsName(items, norm, i)
        ensures LastOfItsName(front, norm, i)
      {
      }
    }
  }
}
