/** Records of the directory store (pets and user profiles) and the two ways
    the client code indexes fetched lists of them: a JavaScript `Map` keyed by
    a platform identifier, where a later `set` with the same key replaces the
    value but keeps the key's first insertion position. */
module Directory {
  import opened Common

  /** A `pet_master` row, reduced to the fields the appointment workflow reads. */
  datatype Pet = Pet(
    petPlatformId: string,
    ownerPlatformId: string,   // the pet's `user_platform_id`
    name: string,
    species: string,
    breed: string
  )

  /** A `profiles` row (pet owner or staff member). */
  datatype Profile = Profile(
    userPlatformId: string,
    firstName: string,
    lastName: string,
    email: string
  )

  function PetKey(p: Pet): string { p.petPlatformId }
  function PetOwnerKey(p: Pet): string { p.ownerPlatformId }
  function ProfileKey(p: Profile): string { p.userPlatformId }

  function Get<K, V>(m: map<K, V>, k: K): Option<V> {
    if k in m then Some(m[k]) else None
  }

  /** A `Map` built from the list keyed by `key`: a later element replaces an
      earlier one with the same key. */
  function Index<T>(xs: seq<T>, key: T -> string): map<string, T>
  {
    if xs == [] then map[] else Index(xs[..|xs| - 1], key)[key(xs[|xs| - 1]) := xs[|xs| - 1]]
  }

  /** The same map filled element by element: elements whose key is falsy
      are skipped. */
  function IndexTruthy<T>(xs: seq<T>, key: T -> string): map<string, T>
  {
    Index(xs, key) - {""}
  }

  /** `xs[i]` is the last element of `xs` whose key is `k`. */
  ghost predicate LastWithKey<T>(xs: seq<T>, key: T -> string, k: string, i: int) {
    0 <= i < |xs| && key(xs[i]) == k && forall j :: i < j < |xs| ==> key(xs[j]) != k
  }

  /** The index has a key exactly when some element carries it, and holds the
      last such element. */
  lemma {:induction false} IndexHoldsLast<T>(xs: seq<T>, key: T -> string, k: string)
    ensures k in Index(xs, key) <==> exists i :: 0 <= i < |xs| && key(xs[i]) == k
    ensures k in Index(xs, key) ==> exists i :: LastWithKey(xs, key, k, i) && Index(xs, key)[k] == xs[i]
  {
    if xs != [] {
      var n := |xs| - 1;
      var init := xs[..n];
      IndexHoldsLast(init, key, k);
      if key(xs[n]) == k {
        assert LastWithKey(xs, key, k, n);
      } else {
        if exists i :: 0 <= i < |xs| && key(xs[i]) == k {
          var i :| 0 <= i < |xs| && key(xs[i]) == k;
          assert i < n && init[i] == xs[i];
        }
        if k in Index(init, key) {
          var i :| LastWithKey(init, key, k, i) && Index(init, key)[k] == init[i];
          assert LastWithKey(xs, key, k, i);
        }
      }
    }
  }

  /** The value found under key `k` is the last element carrying `k`, and it
      is found exactly when some element carries `k`. */
  lemma LookupIsLast<T>(xs: seq<T>, key: T -> string, k: string)
    ensures Get(Index(xs, key), k).Some? <==> exists i :: 0 <= i < |xs| && key(xs[i]) == k
    ensures Get(Index(xs, key), k).Some? ==>
      exists i :: LastWithKey(xs, key, k, i) && Get(Index(xs, key), k).value == xs[i]
  {
    IndexHoldsLast(xs, key, k);
  }

  /** The keys of that element-by-element map, in insertion order: each
      truthy key at its first occurrence. */
  function KeysInOrder<T>(xs: seq<T>, key: T -> string): (ks: seq<string>)
    ensures forall j :: 0 <= j < |ks| ==> ks[j] in IndexTruthy(xs, key)
  {
    if xs == [] then []
    else
      var ks := KeysInOrder(xs[..|xs| - 1], key);
      var k := key(xs[|xs| - 1]);
      if k == "" || k in ks then ks else ks + [k]
  }

  /** The values of that map, read back in key insertion order. */
  function ValuesInOrder<T>(xs: seq<T>, key: T -> string): (vs: seq<T>)
  {
    var ks := KeysInOrder(xs, key);
    var m := IndexTruthy(xs, key);
    seq(|ks|, j requires 0 <= j < |ks| => m[ks[j]])
  }

  ghost predicate Distinct(ks: seq<string>) {
    forall i, j :: 0 <= i < j < |ks| ==> ks[i] != ks[j]
  }

  /** The insertion-ordered keys are distinct and are exactly the truthy keys
      that occur in the list. */
  lemma {:induction false} KeysInOrderSpec<T>(xs: seq<T>, key: T -> string)
    ensures Distinct(KeysInOrder(xs, key))
    ensures forall k :: k in KeysInOrder(xs, key) <==> k != "" && exists i :: 0 <= i < |xs| && key(xs[i]) == k
  {
    if xs != [] {
      var n := |xs| - 1;
      var init := xs[..n];
      KeysInOrderSpec(init, key);
      forall k ensures k in KeysInOrder(xs, key) <==> k != "" && exists i :: 0 <= i < |xs| && key(xs[i]) == k {
        if k != "" && exists i :: 0 <= i < |xs| && key(xs[i]) == k {
          var i :| 0 <= i < |xs| && key(xs[i]) == k;
          if i < n {
            assert init[i] == xs[i];
          }
        }
        if k in KeysInOrder(init, key) {
          var i :| 0 <= i < |init| && key(init[i]) == k;
          assert xs[i] == init[i];
        }
      }
    }
  }

  /** The keys come out in first-insertion order: wherever the later key
      `ks[b]` occurs in the list, the earlier key `ks[a]` occurs before it. */
  lemma {:induction false} KeysInFirstOccurrenceOrder<T>(xs: seq<T>, key: T -> string, a: nat, b: nat)
    requires a < b < |KeysInOrder(xs, key)|
    ensures forall j :: 0 <= j < |xs| && key(xs[j]) == KeysInOrder(xs, key)[b] ==>
      exists i :: 0 <= i < j && key(xs[i]) == KeysInOrder(xs, key)[a]
  {
    var n := |xs| - 1;
    var init := xs[..n];
    var ks := KeysInOrder(xs, key);
    var ks' := KeysInOrder(init, key);
    KeysInOrderSpec(init, key);
    assert a < |ks'| && ks[a] == ks'[a];
    forall j | 0 <= j < |xs| && key(xs[j]) == ks[b]
      ensures exists i :: 0 <= i < j && key(xs[i]) == ks[a]
    {
      if b < |ks'| {
        assert ks[b] == ks'[b];
        KeysInFirstOccurrenceOrder(init, key, a, b);
        var j' := j;
        if j == n {
          assert ks'[b] in ks';
          j' :| 0 <= j' < |init| && key(init[j']) == ks[b];
        }
        assert init[j'] == xs[j'];
        var i :| 0 <= i < j' && key(init[i]) == ks[a];
        assert xs[i] == init[i];
      } else {
        assert ks[b] !in ks';
        forall i | 0 <= i < n
          ensures key(xs[i]) != ks[b]
        {
          assert xs[i] == init[i];
        }
        assert ks'[a] in ks';
        var i :| 0 <= i < |init| && key(init[i]) == ks[a];
        assert xs[i] == init[i];
      }
    }
  }

  /** The values in insertion order: no two share a key, none has a falsy key,
      every truthy key of the list is represented, and each value is the last
      element of the list carrying its key. */
  lemma ValuesInOrderSpec<T>(xs: seq<T>, key: T -> string)
    ensures forall a, b :: 0 <= a < b < |ValuesInOrder(xs, key)| ==>
      key(ValuesInOrder(xs, key)[a]) != key(ValuesInOrder(xs, key)[b])
    ensures forall a :: 0 <= a < |ValuesInOrder(xs, key)| ==> key(ValuesInOrder(xs, key)[a]) != ""
    ensures forall i :: 0 <= i < |xs| && key(xs[i]) != "" ==>
      exists a :: 0 <= a < |ValuesInOrder(xs, key)| && key(ValuesInOrder(xs, key)[a]) == key(xs[i])
    ensures forall a :: 0 <= a < |ValuesInOrder(xs, key)| ==>
      exists i :: LastWithKey(xs, key, key(ValuesInOrder(xs, key)[a]), i) && ValuesInOrder(xs, key)[a] == xs[i]
    ensures |ValuesInOrder(xs, key)| == |KeysInOrder(xs, key)|
    ensures forall a :: 0 <= a < |ValuesInOrder(xs, key)| ==> key(ValuesInOrder(xs, key)[a]) == KeysInOrder(xs, key)[a]
  {
    var ks := KeysInOrder(xs, key);
    var vs := ValuesInOrder(xs, key);
    KeysInOrderSpec(xs, key);
    forall a | 0 <= a < |vs|
      ensures key(vs[a]) == ks[a]
      ensures exists i :: LastWithKey(xs, key, ks[a], i) && vs[a] == xs[i]
    {
      IndexHoldsLast(xs, key, ks[a]);
    }
    forall i | 0 <= i < |xs| && key(xs[i]) != ""
      ensures exists a :: 0 <= a < |vs| && key(vs[a]) == key(xs[i])
    {
      assert key(xs[i]) in ks;
      var a :| 0 <= a < |ks| && ks[a] == key(xs[i]);
      assert key(vs[a]) == ks[a];
    }
  }
}
