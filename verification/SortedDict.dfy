/** The dictionary with sorted keys of `shinken/sorteddict.py`: a plain dictionary and a
    sorted list of its keys that every operation has to keep together. */
module SortedDicts {
  import opened Options
  import opened Lists

  /** Keys are compared as integers. */
  type Key = int

  // ----- Lists of keys -----

  predicate Increasing(s: seq<Key>) {
    forall i, j :: 0 <= i < j < |s| ==> s[i] < s[j]
  }

  predicate Ascending(s: seq<Key>) {
    forall i, j :: 0 <= i < j < |s| ==> s[i] <= s[j]
  }

  function Elements(s: seq<Key>): set<Key> {
    set k | k in s
  }

  /** The list holds the keys of the dictionary, each once, in order. */
  predicate Indexes<V>(s: seq<Key>, d: map<Key, V>) {
    Increasing(s) && Elements(s) == d.Keys
  }

  /** bisect_left */
  function BisectLeft(s: seq<Key>, x: Key): (i: nat)
    ensures i <= |s| && (i < |s| ==> s[i] >= x) && forall k :: 0 <= k < i ==> s[k] < x
  {
    if s == [] || s[0] >= x then 0 else 1 + BisectLeft(s[1..], x)
  }

  /** bisect_right */
  function BisectRight(s: seq<Key>, x: Key): (i: nat)
    ensures i <= |s| && (i < |s| ==> s[i] > x) && forall k :: 0 <= k < i ==> s[k] <= x
  {
    if s == [] || s[0] > x then 0 else 1 + BisectRight(s[1..], x)
  }

  /** insort */
  function Insort(s: seq<Key>, x: Key): seq<Key> {
    var i := BisectRight(s, x);
    s[..i] + [x] + s[i..]
  }

  /** `del s[bisect_left(s, x)]` */
  function Drop(s: seq<Key>, x: Key): seq<Key>
    requires BisectLeft(s, x) < |s|
  {
    var i := BisectLeft(s, x);
    s[..i] + s[i + 1..]
  }

  lemma InsortKeeps(s: seq<Key>, x: Key)
    requires Ascending(s)
    ensures Ascending(Insort(s, x)) && Elements(Insort(s, x)) == Elements(s) + {x}
    ensures Increasing(Insort(s, x)) <==> Increasing(s) && x !in s
  {
    var i := BisectRight(s, x);
    assert s == s[..i] + s[i..];
    InsortAscending(s, x);
    if Increasing(Insort(s, x)) {
      SplicedBack(s[..i], x, s[i..], s, Insort(s, x));
    }
    ElementsWith(s[..i], x, s[i..], s, Insort(s, x));
  }

  lemma InsortAscending(s: seq<Key>, x: Key)
    requires Ascending(s)
    ensures Ascending(Insort(s, x))
    ensures Increasing(s) && x !in s ==> Increasing(Insort(s, x))
  {
    var n, r := BisectRight(s, x), Insort(s, x);
    forall i, j | 0 <= i < j < |r|
      ensures r[i] <= r[j] && (Increasing(s) && x !in s ==> r[i] < r[j])
    {
      if j > n {
        assert r[j] == s[j - 1] >= s[n];
      }
      if i < n {
        assert r[i] == s[i];
      } else if i > n {
        assert r[i] == s[i - 1];
      }
    }
  }

  lemma ElementsWith(a: seq<Key>, x: Key, b: seq<Key>, s: seq<Key>, r: seq<Key>)
    requires s == a + b && r == a + [x] + b
    ensures Elements(r) == Elements(s) + {x}
  {
  }

  lemma SplicedBack(a: seq<Key>, x: Key, b: seq<Key>, s: seq<Key>, r: seq<Key>)
    requires s == a + b && r == a + [x] + b && Increasing(r)
    ensures Increasing(s) && x !in s
  {
    var n := |a|;
    assert r[n] == x;
    forall i, j | 0 <= i < j < |s| ensures s[i] < s[j] {
      assert r[if i < n then i else i + 1] < r[if j < n then j else j + 1];
    }
    forall i | 0 <= i < |s| ensures s[i] != x {
      assert s[i] == r[if i < n then i else i + 1];
    }
  }

  lemma Located(s: seq<Key>, x: Key)
    requires Increasing(s) && x in s
    ensures BisectLeft(s, x) < |s| && s[BisectLeft(s, x)] == x
  {
    var j :| 0 <= j < |s| && s[j] == x;
  }

  lemma DropKeeps(s: seq<Key>, x: Key)
    requires Increasing(s) && x in s
    ensures BisectLeft(s, x) < |s|
    ensures Increasing(Drop(s, x)) && Elements(Drop(s, x)) == Elements(s) - {x}
  {
    var i := BisectLeft(s, x);
    Located(s, x);
    assert s == s[..i] + [x] + s[i + 1..];
    SplicedBack(s[..i], x, s[i + 1..], Drop(s, x), s);
    ElementsWith(s[..i], x, s[i + 1..], Drop(s, x), s);
    assert x !in Elements(Drop(s, x));
  }

  lemma LastDropped(s: seq<Key>)
    requires Increasing(s) && s != []
    ensures var r := s[..|s| - 1];
            Increasing(r) && Elements(r) == Elements(s) - {s[|s| - 1]} && s[|s| - 1] in Elements(s)
  {
    var r := s[..|s| - 1];
    assert forall k :: 0 <= k < |r| ==> r[k] == s[k];
  }

  lemma EmptyElements(s: seq<Key>)
    ensures Elements(s) == {} <==> s == []
  {
    if s != [] {
      assert s[0] in Elements(s);
    }
  }

  /** The sorted list is determined by the dictionary. */
  lemma {:induction false} SortedUnique(s: seq<Key>, t: seq<Key>)
    requires Increasing(s) && Increasing(t) && Elements(s) == Elements(t)
    ensures s == t
    decreases |s|
  {
    EmptyElements(s);
    EmptyElements(t);
    if s != [] {
      var a, b := s[|s| - 1], t[|t| - 1];
      LastDropped(s);
      LastDropped(t);
      assert a in t && b in s;
      assert a == b;
      SortedUnique(s[..|s| - 1], t[..|t| - 1]);
      assert s == s[..|s| - 1] + [a] && t == t[..|t| - 1] + [b];
    }
  }

  // ----- Updates from pairs -----

  function Updated<V>(d: map<Key, V>, pairs: seq<(Key, V)>): (r: map<Key, V>)
    ensures forall k :: k in r.Keys <==> k in d.Keys || exists i :: 0 <= i < |pairs| && pairs[i].0 == k
  {
    if pairs == [] then d
    else
      var last := pairs[|pairs| - 1];
      var r := Updated(d, pairs[..|pairs| - 1]);
      r[last.0 := last.1]
  }

  /** A key has the value of its last pair. */
  lemma {:induction false} UpdatedLast<V>(d: map<Key, V>, pairs: seq<(Key, V)>, i: nat)
    requires i < |pairs| && forall j :: i < j < |pairs| ==> pairs[j].0 != pairs[i].0
    ensures pairs[i].0 in Updated(d, pairs) && Updated(d, pairs)[pairs[i].0] == pairs[i].1
    decreases |pairs|
  {
    var init := pairs[..|pairs| - 1];
    if i < |init| {
      assert init[i] == pairs[i];
      UpdatedLast(d, init, i);
    }
  }

  /** A key without a pair keeps its value. */
  lemma {:induction false} UpdatedOther<V>(d: map<Key, V>, pairs: seq<(Key, V)>, k: Key)
    requires forall i :: 0 <= i < |pairs| ==> pairs[i].0 != k
    ensures (k in Updated(d, pairs) <==> k in d) && (k in d ==> Updated(d, pairs)[k] == d[k])
    decreases |pairs|
  {
    if pairs != [] {
      UpdatedOther(d, pairs[..|pairs| - 1], k);
    }
  }

  /** The keys of the pairs that the dictionary does not have, in order. */
  function NewKeys<V>(d: map<Key, V>, pairs: seq<(Key, V)>): (r: seq<Key>)
    ensures forall k :: k in r <==> k !in d && exists i :: 0 <= i < |pairs| && pairs[i].0 == k
  {
    if pairs == [] then []
    else
      var last := pairs[|pairs| - 1].0;
      var r := NewKeys(d, pairs[..|pairs| - 1]);
      if last in d then r else r + [last]
  }

  /** New keys are distinct exactly if only keys that are there already come twice. */
  lemma {:induction false} NewKeysDistinct<V>(d: map<Key, V>, pairs: seq<(Key, V)>)
    ensures Distinct(NewKeys(d, pairs)) <==> forall i, j :: 0 <= i < j < |pairs| && pairs[i].0 == pairs[j].0 ==> pairs[i].0 in d
    decreases |pairs|
  {
    if pairs != [] {
      var init, last := pairs[..|pairs| - 1], pairs[|pairs| - 1].0;
      NewKeysDistinct(d, init);
      if last !in d {
        DistinctLast(NewKeys(d, init), last, NewKeys(d, pairs));
      }
      RepeatedLast(d, pairs);
    }
  }

  /** One more pair may repeat a key that comes before it. */
  lemma RepeatedLast<V>(d: map<Key, V>, pairs: seq<(Key, V)>)
    requires pairs != []
    ensures var init, last := pairs[..|pairs| - 1], pairs[|pairs| - 1].0;
            (forall i, j :: 0 <= i < j < |pairs| && pairs[i].0 == pairs[j].0 ==> pairs[i].0 in d) <==>
              && (forall i, j :: 0 <= i < j < |init| && init[i].0 == init[j].0 ==> init[i].0 in d)
              && (last !in d ==> forall i :: 0 <= i < |init| ==> init[i].0 != last)
  {
    var init := pairs[..|pairs| - 1];
    assert forall i :: 0 <= i < |init| ==> init[i] == pairs[i];
  }

  function InsortAll(s: seq<Key>, keys: seq<Key>): seq<Key> {
    if keys == [] then s else Insort(InsortAll(s, keys[..|keys| - 1]), keys[|keys| - 1])
  }

  lemma {:induction false} InsortAllElements(s: seq<Key>, keys: seq<Key>)
    requires Increasing(s)
    ensures Ascending(InsortAll(s, keys)) && Elements(InsortAll(s, keys)) == Elements(s) + Elements(keys)
    decreases |keys|
  {
    if keys != [] {
      var init, last := keys[..|keys| - 1], keys[|keys| - 1];
      InsortAllElements(s, init);
      InsortOnto(InsortAll(s, init), last, Elements(s), init, keys);
    } else {
      assert Elements(keys) == {};
    }
  }

  lemma InsortOnto(r: seq<Key>, last: Key, e: set<Key>, init: seq<Key>, keys: seq<Key>)
    requires Ascending(r) && keys != [] && init == keys[..|keys| - 1] && last == keys[|keys| - 1]
    requires Elements(r) == e + Elements(init)
    ensures Ascending(Insort(r, last)) && Elements(Insort(r, last)) == e + Elements(keys)
  {
    InsortKeeps(r, last);
    assert keys == init + [last] + [] && init == init + [];
    ElementsWith(init, last, [], init, keys);
  }

  lemma {:induction false} InsortAllKeeps(s: seq<Key>, keys: seq<Key>)
    requires Increasing(s) && forall i :: 0 <= i < |keys| ==> keys[i] !in s
    ensures Increasing(InsortAll(s, keys)) <==> Distinct(keys)
    decreases |keys|
  {
    if keys != [] {
      var init, last := keys[..|keys| - 1], keys[|keys| - 1];
      InsortAllKeeps(s, init);
      InsortAllElements(s, init);
      InsortKeeps(InsortAll(s, init), last);
      assert last in InsortAll(s, init) <==> last in Elements(s) + Elements(init);
      DistinctLast(init, last, keys);
    }
  }

  lemma DistinctLast(init: seq<Key>, last: Key, keys: seq<Key>)
    requires keys == init + [last]
    ensures Distinct(keys) <==> Distinct(init) && last !in init
  {
    if Distinct(keys) {
      forall i, j | 0 <= i < j < |init| ensures init[i] != init[j] {
        assert keys[i] != keys[j];
      }
      forall i | 0 <= i < |init| ensures init[i] != last {
        assert keys[i] != keys[|init|];
      }
    }
  }

  /** The update keeps the index exactly if the new keys are distinct. */
  lemma UpdateIndexes<V>(s: seq<Key>, d: map<Key, V>, pairs: seq<(Key, V)>)
    requires Indexes(s, d)
    ensures var r := InsortAll(s, NewKeys(d, pairs));
            Elements(r) == Updated(d, pairs).Keys && (Indexes(r, Updated(d, pairs)) <==> Distinct(NewKeys(d, pairs)))
  {
    var keys := NewKeys(d, pairs);
    forall i | 0 <= i < |keys| ensures keys[i] !in s {
      assert keys[i] in keys;
      assert keys[i] !in Elements(s);
    }
    InsortAllElements(s, keys);
    InsortAllKeeps(s, keys);
    var r := InsortAll(s, keys);
    forall k ensures k in Elements(r) <==> k in Updated(d, pairs).Keys {
      assert k in Elements(s) <==> k in d.Keys;
    }
  }

  /** Pairs with distinct keys, such as those of a mapping, have distinct new keys. */
  lemma {:induction false} MappingDistinct<V>(d: map<Key, V>, pairs: seq<(Key, V)>)
    requires forall i, j :: 0 <= i < j < |pairs| ==> pairs[i].0 != pairs[j].0
    ensures Distinct(NewKeys(d, pairs))
    decreases |pairs|
  {
    if pairs != [] {
      var init, last := pairs[..|pairs| - 1], pairs[|pairs| - 1].0;
      MappingDistinct(d, init);
      assert forall i :: 0 <= i < |init| ==> init[i].0 != last;
      assert last !in NewKeys(d, init);
    }
  }

  // ----- The dictionary -----

  class SortedDict<V(0)> {
    var dict: map<Key, V>
    var sortedKeys: seq<Key>

    predicate Valid()
      reads this
    {
      Indexes(sortedKeys, dict)
    }

    constructor (pairs: seq<(Key, V)>)
      ensures Valid() && dict == Updated(map[], pairs)
    {
      var d := Updated(map[], pairs);
      var keys: seq<Key> := [];
      for i := 0 to |pairs|
        invariant Increasing(keys) && forall k :: k in Elements(keys) <==> exists j :: 0 <= j < i && pairs[j].0 == k
      {
        var key := pairs[i].0;
        assert key in keys <==> key in Elements(keys);
        if key !in keys {
          InsortKeeps(keys, key);
          keys := Insort(keys, key);
        }
      }
      dict, sortedKeys := d, keys;
    }

    /** `self[key] = value` */
    method SetItem(key: Key, value: V)
      requires Valid()
      modifies this
      ensures Valid() && dict == old(dict)[key := value]
    {
      var isNew := key !in dict;
      dict := dict[key := value];
      InsortKeeps(sortedKeys, key);
      assert key in sortedKeys <==> key in Elements(sortedKeys);
      if isNew {
        sortedKeys := Insort(sortedKeys, key);
      }
    }

    /** `del self[key]`; a missing key is a KeyError and changes nothing. */
    method DelItem(key: Key) returns (found: bool)
      requires Valid()
      modifies this
      ensures Valid() && found == (key in old(dict)) && dict == old(dict) - {key}
    {
      found := key in dict;
      if found {
        assert key in Elements(sortedKeys);
        DropKeeps(sortedKeys, key);
        dict := dict - {key};
        sortedKeys := Drop(sortedKeys, key);
      }
    }

    method Clear()
      requires Valid()
      modifies this
      ensures Valid() && dict == map[]
    {
      dict := map[];
      sortedKeys := [];
      assert Elements([]) == {};
    }

    /** `None` is the KeyError, or the caller's default. */
    method Pop(key: Key) returns (r: Option<V>)
      requires Valid()
      modifies this
      ensures Valid() && dict == old(dict) - {key}
      ensures r == if key in old(dict) then Some(old(dict)[key]) else None
    {
      if key in dict {
        assert key in Elements(sortedKeys);
        DropKeeps(sortedKeys, key);
        sortedKeys := Drop(sortedKeys, key);
        r := Some(dict[key]);
        dict := dict - {key};
      } else {
        r := None;
      }
    }

    /** The pair with the largest key; a KeyError on an empty dictionary. */
    method PopItem() returns (r: Option<(Key, V)>)
      requires Valid()
      modifies this
      ensures Valid() && (r.None? <==> old(dict) == map[])
      ensures r.Some? ==> && r.value.0 in old(dict) && r.value.1 == old(dict)[r.value.0]
                          && (forall k :: k in old(dict) ==> k <= r.value.0)
                          && dict == old(dict) - {r.value.0}
      ensures r.None? ==> dict == old(dict)
    {
      EmptyIff();
      if sortedKeys == [] {
        r := None;
      } else {
        LastDropped(sortedKeys);
        assert forall k :: k in dict ==> k in Elements(sortedKeys);
        var key := sortedKeys[|sortedKeys| - 1];
        sortedKeys := sortedKeys[..|sortedKeys| - 1];
        r := Some((key, dict[key]));
        dict := dict - {key};
      }
    }

    method SetDefault(key: Key, default: V) returns (r: V)
      requires Valid()
      modifies this
      ensures Valid() && key in dict && r == dict[key]
      ensures dict == if key in old(dict) then old(dict) else old(dict)[key := default]
    {
      InsortKeeps(sortedKeys, key);
      assert key in sortedKeys <==> key in Elements(sortedKeys);
      if key !in dict {
        sortedKeys := Insort(sortedKeys, key);
        dict := dict[key := default];
      }
      r := dict[key];
    }

    /** From pairs; a mapping is given by the pairs of its distinct keys. */
    method Update(pairs: seq<(Key, V)>)
      requires Valid()
      modifies this
      ensures dict == Updated(old(dict), pairs) && Elements(sortedKeys) == dict.Keys
      ensures forall i :: 0 <= i < |pairs| && (forall j :: i < j < |pairs| ==> pairs[j].0 != pairs[i].0) ==>
                            pairs[i].0 in dict && dict[pairs[i].0] == pairs[i].1
      ensures forall k :: (forall i :: 0 <= i < |pairs| ==> pairs[i].0 != k) ==>
                            (k in dict <==> k in old(dict)) && (k in dict ==> dict[k] == old(dict)[k])
      ensures Valid() <==> Distinct(NewKeys(old(dict), pairs))
      ensures Valid() <==> forall i, j :: 0 <= i < j < |pairs| && pairs[i].0 == pairs[j].0 ==> pairs[i].0 in old(dict)
    {
      NewKeysDistinct(dict, pairs);
      forall i | 0 <= i < |pairs| && forall j :: i < j < |pairs| ==> pairs[j].0 != pairs[i].0 {
        UpdatedLast(dict, pairs, i);
      }
      forall k: Key | forall i :: 0 <= i < |pairs| ==> pairs[i].0 != k {
        UpdatedOther(dict, pairs, k);
      }
      var newKeys := CollectNew(pairs);
      UpdateIndexes(sortedKeys, dict, pairs);
      dict := Updated(dict, pairs);
      InsortNew(newKeys);
    }

    method CollectNew(pairs: seq<(Key, V)>) returns (newKeys: seq<Key>)
      ensures newKeys == NewKeys(dict, pairs)
    {
      newKeys := [];
      for i := 0 to |pairs|
        invariant newKeys == NewKeys(dict, pairs[..i])
      {
        assert pairs[..i + 1][..i] == pairs[..i];
        if pairs[i].0 !in dict {
          newKeys := newKeys + [pairs[i].0];
        }
      }
      assert pairs[..|pairs|] == pairs;
    }

    method InsortNew(newKeys: seq<Key>)
      modifies this`sortedKeys
      ensures sortedKeys == InsortAll(old(sortedKeys), newKeys)
    {
      for i := 0 to |newKeys|
        invariant sortedKeys == InsortAll(old(sortedKeys), newKeys[..i])
      {
        assert newKeys[..i + 1][..i] == newKeys[..i];
        sortedKeys := Insort(sortedKeys, newKeys[i]);
      }
      assert newKeys[..|newKeys|] == newKeys;
    }

    // ----- Ordered access -----

    lemma EmptyIff()
      requires Valid()
      ensures sortedKeys == [] <==> dict == map[]
    {
      EmptyElements(sortedKeys);
      assert dict == map[] <==> dict.Keys == {};
    }

    /** The list of keys, in order or in reverse order. */
    function Order(reverse: bool): (r: seq<Key>)
      reads this
      ensures |r| == |sortedKeys|
      ensures forall i :: 0 <= i < |r| ==> r[i] == sortedKeys[if reverse then |r| - 1 - i else i]
    {
      if reverse then seq(|sortedKeys|, i requires 0 <= i < |sortedKeys| reads this => sortedKeys[|sortedKeys| - 1 - i])
      else sortedKeys
    }

    /** The order holds every key once, rising or falling. */
    lemma OrderHolds(reverse: bool)
      requires Valid()
      ensures forall k :: k in dict <==> k in Order(reverse)
      ensures var r := Order(reverse); forall i, j :: 0 <= i < j < |r| ==> if reverse then r[i] > r[j] else r[i] < r[j]
    {
      var n, r := |sortedKeys|, Order(reverse);
      forall k ensures k in dict <==> k in r {
        assert k in dict <==> k in Elements(sortedKeys);
        if k in sortedKeys {
          var j :| 0 <= j < n && sortedKeys[j] == k;
          assert r[if reverse then n - 1 - j else j] == k;
        }
      }
    }

    /** iteritems, and with it every ordered accessor */
    method Items(reverse: bool) returns (r: seq<(Key, V)>)
      requires Valid()
      ensures |r| == |Order(reverse)|
      ensures forall i :: 0 <= i < |r| ==> r[i].0 == Order(reverse)[i] && r[i].0 in dict && r[i].1 == dict[r[i].0]
      ensures forall k :: k in dict <==> k in Order(reverse)
    {
      var keys := Order(reverse);
      OrderHolds(reverse);
      r := [];
      for i := 0 to |keys|
        invariant |r| == i
        invariant forall k :: 0 <= k < i ==> r[k].0 == keys[k] && r[k].0 in dict && r[k].1 == dict[r[k].0]
      {
        assert keys[i] in keys;
        r := r + [(keys[i], dict[keys[i]])];
      }
    }

    method LargestItem() returns (r: Option<(Key, V)>)
      requires Valid()
      ensures r.None? <==> dict == map[]
      ensures r.Some? ==> r.value.0 in dict && r.value.1 == dict[r.value.0] && forall k :: k in dict ==> k <= r.value.0
    {
      EmptyIff();
      if sortedKeys == [] {
        return None;
      }
      var key := sortedKeys[|sortedKeys| - 1];
      assert key in Elements(sortedKeys);
      assert forall k :: k in dict ==> k in Elements(sortedKeys);
      return Some((key, dict[key]));
    }

    method SmallestItem() returns (r: Option<(Key, V)>)
      requires Valid()
      ensures r.None? <==> dict == map[]
      ensures r.Some? ==> r.value.0 in dict && r.value.1 == dict[r.value.0] && forall k :: k in dict ==> r.value.0 <= k
    {
      EmptyIff();
      if sortedKeys == [] {
        return None;
      }
      var key := sortedKeys[0];
      assert key in Elements(sortedKeys);
      assert forall k :: k in dict ==> k in Elements(sortedKeys);
      return Some((key, dict[key]));
    }
  }
}
