/** The finite map that a list of elements with distinct keys stands for. */
module HashMapModel {
  import opened Handles

  ghost predicate UniqueKeys(items: seq<Handle>) {
    forall i, j :: 0 <= i < j < |items| ==> items[i].key != items[j].key
  }

  ghost predicate HasKey(items: seq<Handle>, key: Key) {
    exists i :: 0 <= i < |items| && items[i].key == key
  }

  /** The element of each key; a later element would win over an earlier one. */
  ghost function MapOf(items: seq<Handle>): map<Key, Handle> {
    if items == [] then map[]
    else MapOf(items[..|items| - 1])[items[|items| - 1].key := items[|items| - 1]]
  }

  lemma {:induction false} MapOfLookup(items: seq<Handle>)
    requires UniqueKeys(items)
    ensures forall key :: key in MapOf(items) <==> HasKey(items, key)
    ensures forall i :: 0 <= i < |items| ==> items[i].key in MapOf(items) && MapOf(items)[items[i].key] == items[i]
    decreases |items|
  {
    if items != [] {
      var n := |items| - 1;
      var init := items[..n];
      MapOfLookup(init);
      forall key ensures key in MapOf(items) <==> HasKey(items, key) {
        if HasKey(init, key) {
          var i :| 0 <= i < n && init[i].key == key;
          assert items[i].key == key;
        }
        if HasKey(items, key) && key != items[n].key {
          var i :| 0 <= i < |items| && items[i].key == key;
          assert init[i].key == key;
        }
      }
      forall i | 0 <= i < |items| ensures items[i].key in MapOf(items) && MapOf(items)[items[i].key] == items[i] {
        if i < n {
          assert init[i] == items[i];
        }
      }
    }
  }

  /** A fresh key is added to the map. */
  lemma MapOfAdd(items: seq<Handle>, h: Handle)
    ensures UniqueKeys(items) && h.key !in MapOf(items) ==>
      UniqueKeys(items + [h]) && MapOf(items + [h]) == MapOf(items)[h.key := h]
  {
    if UniqueKeys(items) && h.key !in MapOf(items) {
      MapOfLookup(items);
      assert (items + [h])[..|items|] == items;
      forall i | 0 <= i < |items| ensures items[i].key != h.key {
        assert items[i].key in MapOf(items);
      }
    }
  }

  lemma CutKeys(items: seq<Handle>, rest: seq<Handle>, i: nat)
    requires UniqueKeys(items) && i < |items| && rest == items[..i] + items[i + 1..]
    ensures UniqueKeys(rest)
    ensures forall key :: HasKey(rest, key) <==> HasKey(items, key) && key != items[i].key
    ensures forall k :: 0 <= k < |rest| ==> HasKey(items, rest[k].key) && rest[k] in items
  {
    assert forall k :: 0 <= k < |rest| ==> rest[k] == items[if k < i then k else k + 1];
    forall key | HasKey(items, key) && key != items[i].key ensures HasKey(rest, key) {
      var k :| 0 <= k < |items| && items[k].key == key;
      assert rest[if k < i then k else k - 1].key == key;
    }
    forall key | HasKey(rest, key) ensures HasKey(items, key) && key != items[i].key {
      var k :| 0 <= k < |rest| && rest[k].key == key;
      assert items[if k < i then k else k + 1].key == key;
    }
  }

  /** A deleted element's key leaves the map, and nothing else does. */
  lemma MapOfCut(items: seq<Handle>, i: nat)
    requires i < |items|
    ensures var rest := items[..i] + items[i + 1..];
      UniqueKeys(items) ==> UniqueKeys(rest) && MapOf(rest) == MapOf(items) - {items[i].key}
  {
    if UniqueKeys(items) {
      hide MapOf;
      var rest := items[..i] + items[i + 1..];
      CutKeys(items, rest, i);
      MapOfLookup(items);
      MapOfLookup(rest);
      hide UniqueKeys;
      forall key | key in MapOf(rest) ensures MapOf(rest)[key] == MapOf(items)[key] {
        var k :| 0 <= k < |rest| && rest[k].key == key;
        var j :| 0 <= j < |items| && items[j] == rest[k];
      }
    }
  }

  /** With distinct keys there is only one element a search can have found. */
  lemma FoundInMap(items: seq<Handle>, key: Key, out: Handle?)
    requires UniqueKeys(items)
    requires out != null ==> out in items && out.key == key
    requires out == null ==> forall h :: h in items ==> h.key != key
    ensures out == null <==> key !in MapOf(items)
    ensures out != null ==> MapOf(items)[key] == out
  {
    MapOfLookup(items);
  }
}
