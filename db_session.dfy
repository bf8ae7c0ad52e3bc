/**
 * The placeholder database of the backend (backend/app/db/session.py):
 * DummyDB keeps named collections of dictionary items and finds items by
 * their "id" entry with linear scans. Items are maps from keys to JSON-like
 * values; `item.get(key)` is `Lookup`, which gives Null for a missing key.
 */
module DbSession {
  import opened Wrappers

  /** A value stored under a key of an item; Null is Python's None. */
  datatype Value = Null | Str(s: string) | Num(n: int) | Bool(b: bool)

  type Item = map<string, Value>

  /** `item.get(key)`. */
  function Lookup(item: Item, key: string): (v: Value)
    ensures key !in item ==> v == Null
    ensures key in item ==> v == item[key]
  {
    if key in item then item[key] else Null
  }

  /** The position of the first item whose "id" equals `id`. */
  function FirstMatch(items: seq<Item>, id: Value): (r: Option<nat>)
    ensures r.Some? ==> r.value < |items| && Lookup(items[r.value], "id") == id
    ensures r.Some? ==> forall j :: 0 <= j < r.value ==> Lookup(items[j], "id") != id
    ensures r.None? <==> forall j :: 0 <= j < |items| ==> Lookup(items[j], "id") != id
  {
    if items == [] then None
    else if Lookup(items[0], "id") == id then Some(0)
    else
      match FirstMatch(items[1..], id)
      case None => None
      case Some(k) => Some(k + 1)
  }

  /** Adding an item never changes which item an id finds first: ids are
      not checked for uniqueness, so the earliest-added item keeps winning
      and a newly added one is found only when its id was new. */
  lemma FirstMatchAppend(items: seq<Item>, item: Item, id: Value)
    ensures FirstMatch(items, id).Some? ==> FirstMatch(items + [item], id) == FirstMatch(items, id)
    ensures FirstMatch(items, id).None? && Lookup(item, "id") == id ==>
      FirstMatch(items + [item], id) == Some(|items|)
    ensures FirstMatch(items, id).None? && Lookup(item, "id") != id ==> FirstMatch(items + [item], id) == None
  {
    var s := items + [item];
    assert forall j :: 0 <= j < |items| ==> s[j] == items[j];
    assert s[|items|] == item;
    var r := FirstMatch(s, id);
    if FirstMatch(items, id).Some? {
      var k := FirstMatch(items, id).value;
      assert Lookup(s[k], "id") == id;
      assert r.Some?;
      assert r.value <= k;
      assert r.value >= k by {
        assert Lookup(s[r.value], "id") == id;
      }
    } else if Lookup(item, "id") == id {
      assert Lookup(s[|items|], "id") == id;
      assert r.Some?;
      assert r.value >= |items| by {
        assert Lookup(s[r.value], "id") == id;
      }
    }
  }

  /** One filter of `list`: the items whose value for `key` is `value`. */
  function KeepWhere(items: seq<Item>, key: string, value: Value): (r: seq<Item>)
    ensures |r| <= |items|
    ensures forall i :: 0 <= i < |r| ==> Lookup(r[i], key) == value && r[i] in items
  {
    if items == [] then []
    else (if Lookup(items[0], key) == value then [items[0]] else []) + KeepWhere(items[1..], key, value)
  }

  /** An item passes every filter. */
  predicate MatchesAll(item: Item, filters: seq<(string, Value)>) {
    forall j :: 0 <= j < |filters| ==> Lookup(item, filters[j].0) == filters[j].1
  }

  /** The items that pass every filter, in collection order. */
  function Select(items: seq<Item>, filters: seq<(string, Value)>): (r: seq<Item>)
    ensures |r| <= |items|
    ensures forall i :: 0 <= i < |r| ==> MatchesAll(r[i], filters)
  {
    if items == [] then []
    else (if MatchesAll(items[0], filters) then [items[0]] else []) + Select(items[1..], filters)
  }

  lemma {:induction false} SelectCount(items: seq<Item>, filters: seq<(string, Value)>, x: Item)
    ensures multiset(Select(items, filters))[x] == if MatchesAll(x, filters) then multiset(items)[x] else 0
  {
    if items != [] {
      var head := if MatchesAll(items[0], filters) then [items[0]] else [];
      assert multiset(items) == multiset([items[0]]) + multiset(items[1..]) by {
        assert items == [items[0]] + items[1..];
      }
      assert multiset(Select(items, filters)) == multiset(head) + multiset(Select(items[1..], filters));
      SelectCount(items[1..], filters, x);
    }
  }

  /** Applying one more filter to a selection selects by all of them. */
  lemma {:induction false} KeepWhereSelect(items: seq<Item>, filters: seq<(string, Value)>, key: string, value: Value)
    ensures KeepWhere(Select(items, filters), key, value) == Select(items, filters + [(key, value)])
  {
    var fs := filters + [(key, value)];
    if items != [] {
      KeepWhereSelect(items[1..], filters, key, value);
      assert MatchesAll(items[0], fs) <==> MatchesAll(items[0], filters) && Lookup(items[0], key) == value by {
        assert forall j :: 0 <= j < |filters| ==> fs[j] == filters[j];
        assert fs[|filters|] == (key, value);
      }
      var head := if MatchesAll(items[0], filters) then [items[0]] else [];
      KeepWhereConcat(head, Select(items[1..], filters), key, value);
    }
  }

  /** The selection keeps collection order: selecting from a concatenation
      selects from each part, one after the other, and a single item is
      kept exactly when it passes every filter. */
  lemma {:induction false} SelectConcat(a: seq<Item>, b: seq<Item>, filters: seq<(string, Value)>)
    ensures Select(a + b, filters) == Select(a, filters) + Select(b, filters)
    ensures forall x :: Select([x], filters) == if MatchesAll(x, filters) then [x] else []
  {
    forall x ensures Select([x], filters) == if MatchesAll(x, filters) then [x] else [] {
      assert [x][1..] == [];
    }
    if a == [] {
      assert a + b == b;
    } else {
      var head := if MatchesAll(a[0], filters) then [a[0]] else [];
      assert (a + b)[0] == a[0];
      assert (a + b)[1..] == a[1..] + b;
      SelectConcat(a[1..], b, filters);
      ConcatAssoc(head, Select(a[1..], filters), Select(b, filters));
    }
  }

  /** One filter pass keeps collection order. */
  lemma {:induction false} KeepWhereConcat(a: seq<Item>, b: seq<Item>, key: string, value: Value)
    ensures KeepWhere(a + b, key, value) == KeepWhere(a, key, value) + KeepWhere(b, key, value)
  {
    if a == [] {
      assert a + b == b;
    } else {
      assert (a + b)[0] == a[0];
      assert (a + b)[1..] == a[1..] + b;
      KeepWhereConcat(a[1..], b, key, value);
    }
  }

  lemma {:induction false} SelectNoFilters(items: seq<Item>)
    ensures Select(items, []) == items
  {
    if items != [] {
      SelectNoFilters(items[1..]);
    }
  }

  /** A sequence without its element at `i`. */
  function RemoveAt(items: seq<Item>, i: nat): (r: seq<Item>)
    requires i < |items|
    ensures |r| == |items| - 1
    ensures forall j :: 0 <= j < i ==> r[j] == items[j]
    ensures forall j :: i <= j < |r| ==> r[j] == items[j + 1]
  {
    items[..i] + items[i + 1..]
  }

  class DummyDB {
    var data: map<string, seq<Item>>

    constructor ()
      ensures data == map[]
    {
      data := map[];
    }

    /** `add`: appends the item to its collection, creating the collection
        when it is missing, and returns the item. */
    method Add(collection: string, item: Item) returns (r: Item)
      modifies this
      ensures r == item
      ensures collection in old(data) ==> data == old(data)[collection := old(data)[collection] + [item]]
      ensures collection !in old(data) ==> data == old(data)[collection := [item]]
    {
      if collection !in data {
        data := data[collection := []];
        assert data[collection] + [item] == [item];
      }
      data := data[collection := data[collection] + [item]];
      r := item;
    }

    /** `get`: the first item of the collection with that id, if any. */
    method Get(collection: string, itemId: Value) returns (r: Option<Item>)
      ensures collection !in data ==> r == None
      ensures collection in data ==>
        r == (match FirstMatch(data[collection], itemId)
              case None => None
              case Some(k) => Some(data[collection][k]))
    {
      if collection !in data {
        return None;
      }
      var items := data[collection];
      var i := 0;
      while i < |items|
        invariant 0 <= i <= |items|
        invariant forall j :: 0 <= j < i ==> Lookup(items[j], "id") != itemId
      {
        if Lookup(items[i], "id") == itemId {
          assert FirstMatch(items, itemId) == Some(i);
          return Some(items[i]);
        }
        i := i + 1;
      }
      r := None;
    }

    /** `list`: with no filters (None or an empty dictionary) the whole
        collection; otherwise the items matching every filter, in order.
        The filters are the dictionary's items, keys distinct. */
    method List(collection: string, filters: Option<seq<(string, Value)>>) returns (r: seq<Item>)
      ensures collection !in data ==> r == []
      ensures collection in data && (filters.None? || filters.value == []) ==> r == data[collection]
      ensures collection in data && filters.Some? ==> r == Select(data[collection], filters.value)
    {
      if collection !in data {
        return [];
      }
      if filters.None? || filters.value == [] {
        SelectNoFilters(data[collection]);
        return data[collection];
      }
      var fs := filters.value;
      r := data[collection];
      SelectNoFilters(r);
      var i := 0;
      while i < |fs|
        invariant 0 <= i <= |fs|
        invariant r == Select(data[collection], fs[..i])
      {
        var (key, value) := fs[i];
        KeepWhereSelect(data[collection], fs[..i], key, value);
        assert fs[..i + 1] == fs[..i] + [(key, value)];
        r := KeepWhere(r, key, value);
        i := i + 1;
      }
      assert fs[..|fs|] == fs;
    }

    /** `update`: merges the updates into the first item with that id
        (the updates win on shared keys) and returns it; without such an
        item nothing changes and None is returned. */
    method Update(collection: string, itemId: Value, updates: Item) returns (r: Option<Item>)
      modifies this
      ensures collection !in old(data) ==> r == None && data == old(data)
      ensures collection in old(data) && FirstMatch(old(data)[collection], itemId).None? ==>
        r == None && data == old(data)
      ensures collection in old(data) && FirstMatch(old(data)[collection], itemId).Some? ==>
        var k := FirstMatch(old(data)[collection], itemId).value;
        var merged := old(data)[collection][k] + updates;
        && data == old(data)[collection := old(data)[collection][k := merged]]
        && r == Some(merged)
    {
      if collection !in data {
        return None;
      }
      var items := data[collection];
      var i := 0;
      while i < |items|
        invariant 0 <= i <= |items|
        invariant data == old(data)
        invariant forall j :: 0 <= j < i ==> Lookup(items[j], "id") != itemId
      {
        if Lookup(items[i], "id") == itemId {
          assert FirstMatch(items, itemId) == Some(i);
          var merged := items[i] + updates;
          data := data[collection := items[i := merged]];
          return Some(merged);
        }
        i := i + 1;
      }
      r := None;
    }

    /** `delete`: removes the first item with that id and answers true;
        without such an item nothing changes and it answers false. */
    method Delete(collection: string, itemId: Value) returns (deleted: bool)
      modifies this
      ensures collection !in old(data) ==> !deleted && data == old(data)
      ensures collection in old(data) ==>
        (deleted <==> FirstMatch(old(data)[collection], itemId).Some?)
      ensures !deleted ==> data == old(data)
      ensures deleted ==>
        collection in old(data) && FirstMatch(old(data)[collection], itemId).Some? &&
        data == old(data)[collection := RemoveAt(old(data)[collection], FirstMatch(old(data)[collection], itemId).value)]
    {
      if collection !in data {
        return false;
      }
      var items := data[collection];
      var i := 0;
      while i < |items|
        invariant 0 <= i <= |items|
        invariant data == old(data)
        invariant forall j :: 0 <= j < i ==> Lookup(items[j], "id") != itemId
      {
        if Lookup(items[i], "id") == itemId {
          assert FirstMatch(items, itemId) == Some(i);
          data := data[collection := RemoveAt(items, i)];
          return true;
        }
        i := i + 1;
      }
      deleted := false;
    }
  }

  /** Deleting takes out exactly one occurrence of the first item with the
      id: every other item stays, as often as it was there. */
  lemma DeleteRemovesOne(items: seq<Item>, id: Value)
    requires FirstMatch(items, id).Some?
    ensures var k := FirstMatch(items, id).value;
      multiset(RemoveAt(items, k)) + multiset{items[k]} == multiset(items)
  {
    var k := FirstMatch(items, id).value;
    var r := RemoveAt(items, k);
    assert r == items[..k] + items[k + 1..];
    assert items == items[..k] + ([items[k]] + items[k + 1..]);
    calc {
      multiset(items);
      multiset(items[..k]) + multiset([items[k]] + items[k + 1..]);
      multiset(items[..k]) + multiset{items[k]} + multiset(items[k + 1..]);
      multiset(r) + multiset{items[k]};
    }
  }
}
