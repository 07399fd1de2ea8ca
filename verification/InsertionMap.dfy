/** A JavaScript `Map` keyed by strings: entries in insertion order, with its meaning as a finite map. */
module InsertionMap {
  import opened Results

  datatype Slot<V> = Slot(key: string, item: V)

  type Table<V> = seq<Slot<V>>

  function AsMap<V>(t: Table<V>): map<string, V> {
    if t == [] then map[] else AsMap(t[1..])[t[0].key := t[0].item]
  }

  /** No key stands in two entries. */
  predicate Valid<V>(t: Table<V>) {
    t != [] ==> t[0].key !in AsMap(t[1..]) && Valid(t[1..])
  }

  function Get<V>(t: Table<V>, key: string): Option<V> {
    if t == [] then None else if t[0].key == key then Some(t[0].item) else Get(t[1..], key)
  }

  function Set<V>(t: Table<V>, key: string, item: V): Table<V> {
    if t == [] then [Slot(key, item)]
    else if t[0].key == key then [Slot(key, item)] + t[1..]
    else [t[0]] + Set(t[1..], key, item)
  }

  function Delete<V>(t: Table<V>, key: string): Table<V> {
    if t == [] then [] else if t[0].key == key then t[1..] else [t[0]] + Delete(t[1..], key)
  }

  function Items<V>(t: Table<V>): seq<V> {
    if t == [] then [] else [t[0].item] + Items(t[1..])
  }

  lemma {:induction false} GetMeaning<V>(t: Table<V>, key: string)
    ensures Get(t, key) == if key in AsMap(t) then Some(AsMap(t)[key]) else None
  {
    if t != [] {
      GetMeaning(t[1..], key);
    }
  }

  /** `set` keeps the position of a key that is present and appends one that is not. */
  lemma {:induction false} SetMeaning<V>(t: Table<V>, key: string, item: V)
    requires Valid(t)
    ensures Valid(Set(t, key, item)) && AsMap(Set(t, key, item)) == AsMap(t)[key := item]
    ensures key !in AsMap(t) ==> Set(t, key, item) == t + [Slot(key, item)]
  {
    if t != [] {
      SetMeaning(t[1..], key, item);
    }
  }

  lemma {:induction false} DeleteMeaning<V>(t: Table<V>, key: string)
    requires Valid(t)
    ensures Valid(Delete(t, key)) && AsMap(Delete(t, key)) == AsMap(t) - {key}
  {
    if t != [] {
      DeleteMeaning(t[1..], key);
    }
  }

  /** When distinct keys hold distinct items, the items in order are the values of the map, each once. */
  lemma {:induction false} ItemsMeaning<V>(t: Table<V>)
    requires Valid(t)
    requires forall k, l :: k in AsMap(t) && l in AsMap(t) && k != l ==> AsMap(t)[k] != AsMap(t)[l]
    ensures multiset(Items(t)) == multiset(AsMap(t).Values)
  {
    if t != [] {
      var m, rest := AsMap(t), AsMap(t[1..]);
      assert forall k :: k in rest ==> k in m && m[k] == rest[k];
      ItemsMeaning(t[1..]);
      var key := t[0].key;
      assert m[key] == t[0].item && key !in rest;
      forall v | v in rest.Values ensures v in m.Values && v != t[0].item {
        var k :| k in rest && rest[k] == v;
        assert m[k] == v && k != key;
      }
      forall v | v in m.Values ensures v in rest.Values || v == t[0].item {
        var k :| k in m && m[k] == v;
        if k != key {
          assert rest[k] == v;
        }
      }
      assert key in m;
      assert m.Values == rest.Values + {t[0].item};
    }
  }
}
