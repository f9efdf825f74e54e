/**
 * A PHP associative array with string keys, as an ordered list of entries
 * whose keys are distinct: `$a[$k] = $v` (Put), `unset($a[$k])` (Unset) and the
 * plugin's `unshift_assoc($a, $k, $v)` (UnshiftAssoc, the entry moved or
 * inserted at the front).
 */
module PhpArray {
  import opened Wrappers

  datatype Entry<V> = Entry(key: string, value: V)

  type Dict<V> = seq<Entry<V>>

  /** `$a[$k]` when it is set. */
  function Lookup<V>(d: Dict<V>, k: string): Option<V> {
    if d == [] then None
    else if d[0].key == k then Some(d[0].value)
    else Lookup(d[1..], k)
  }

  /** `isset($a[$k])` for non-null values; `array_key_exists`. */
  predicate HasKey<V>(d: Dict<V>, k: string) {
    Lookup(d, k).Some?
  }

  /** The keys in order; `array_keys`. */
  function Keys<V>(d: Dict<V>): (ks: seq<string>)
    ensures |ks| == |d|
    ensures forall i :: 0 <= i < |d| ==> ks[i] == d[i].key
  {
    seq(|d|, i requires 0 <= i < |d| => d[i].key)
  }

  /** No key occurs twice; every PHP array has this shape. */
  predicate Distinct<V>(d: Dict<V>) {
    d == [] || (!HasKey(d[1..], d[0].key) && Distinct(d[1..]))
  }

  /** `$a[$k] = $v`: overwrite in place when `k` is set, otherwise append. */
  function Put<V>(d: Dict<V>, k: string, v: V): Dict<V> {
    if d == [] then [Entry(k, v)]
    else if d[0].key == k then [Entry(k, v)] + d[1..]
    else [d[0]] + Put(d[1..], k, v)
  }

  /** `$a[$k] = $v` sets `k`, keeps every other key, overwrites in place or appends, and keeps keys distinct. */
  lemma {:induction false} PutSpec<V>(d: Dict<V>, k: string, v: V)
    ensures var r := Put(d, k, v);
            && Lookup(r, k) == Some(v)
            && (forall k' :: k' != k ==> Lookup(r, k') == Lookup(d, k'))
            && |r| == (if HasKey(d, k) then |d| else |d| + 1)
            && (HasKey(d, k) ==> Keys(r) == Keys(d))
            && (!HasKey(d, k) ==> r == d + [Entry(k, v)])
            && (Distinct(d) ==> Distinct(r))
  {
    var r := Put(d, k, v);
    if d == [] {
      assert r == [Entry(k, v)];
      assert r[1..] == [];
    } else if d[0].key == k {
      assert r[0] == Entry(k, v) && r[1..] == d[1..];
      assert Keys(r) == Keys(d) by {
        forall i | 0 <= i < |d| ensures Keys(r)[i] == Keys(d)[i] {
          if i > 0 { assert r[i] == d[i]; }
        }
      }
    } else {
      var rest := Put(d[1..], k, v);
      PutSpec(d[1..], k, v);
      assert r[0] == d[0] && r[1..] == rest;
      if HasKey(d, k) {
        assert HasKey(d[1..], k);
        assert Keys(r) == Keys(d) by {
          forall i | 0 <= i < |d| ensures Keys(r)[i] == Keys(d)[i] {
            if i > 0 {
              assert r[i] == rest[i - 1] && d[i] == d[1..][i - 1];
              assert Keys(rest)[i - 1] == Keys(d[1..])[i - 1];
            }
          }
        }
      } else {
        assert !HasKey(d[1..], k);
        assert d == [d[0]] + d[1..];
      }
      if Distinct(d) {
        assert Lookup(rest, d[0].key) == Lookup(d[1..], d[0].key);
      }
    }
  }

  /** `unset($a[$k])`. */
  function Unset<V>(d: Dict<V>, k: string): Dict<V> {
    if d == [] then []
    else if d[0].key == k then Unset(d[1..], k)
    else [d[0]] + Unset(d[1..], k)
  }

  /** `unset($a[$k])` removes `k`, keeps every other key, and keeps keys distinct. */
  lemma {:induction false} UnsetSpec<V>(d: Dict<V>, k: string)
    ensures var r := Unset(d, k);
            && !HasKey(r, k)
            && (forall k' :: k' != k ==> Lookup(r, k') == Lookup(d, k'))
            && |r| <= |d|
            && (!HasKey(d, k) ==> r == d)
            && (Distinct(d) ==> Distinct(r))
  {
    if d != [] {
      var rest := Unset(d[1..], k);
      UnsetSpec(d[1..], k);
      if d[0].key != k {
        var r := [d[0]] + rest;
        assert r[0] == d[0] && r[1..] == rest;
        if !HasKey(d, k) {
          assert d == [d[0]] + d[1..];
        }
        if Distinct(d) {
          assert Lookup(rest, d[0].key) == Lookup(d[1..], d[0].key);
        }
      }
    }
  }

  /** `unshift_assoc($a, $k, $v)`: the entry for `k` becomes the first, the others keep their order. */
  function UnshiftAssoc<V>(d: Dict<V>, k: string, v: V): Dict<V> {
    [Entry(k, v)] + Unset(d, k)
  }

  /** After `unshift_assoc` the entry for `k` is first, the rest is `d` without `k`, and keys stay distinct. */
  lemma UnshiftAssocSpec<V>(d: Dict<V>, k: string, v: V)
    ensures var r := UnshiftAssoc(d, k, v);
            && |r| >= 1 && r[0] == Entry(k, v) && r[1..] == Unset(d, k)
            && Lookup(r, k) == Some(v)
            && (forall k' :: k' != k ==> Lookup(r, k') == Lookup(d, k'))
            && (Distinct(d) ==> Distinct(r))
  {
    var r := UnshiftAssoc(d, k, v);
    UnsetSpec(d, k);
    assert r[0] == Entry(k, v) && r[1..] == Unset(d, k);
  }

  /** Unsetting the key of the first entry drops that entry and unsets the rest. */
  lemma UnsetHead<V>(e: Entry<V>, rest: Dict<V>)
    ensures Unset([e] + rest, e.key) == Unset(rest, e.key)
  {
    var d := [e] + rest;
    assert d[0] == e && d[1..] == rest;
  }

  /** Storing the same key and value twice leaves one entry. */
  lemma {:induction false} PutTwice<V>(d: Dict<V>, k: string, v: V)
    ensures Put(Put(d, k, v), k, v) == Put(d, k, v)
  {
    if d != [] && d[0].key != k {
      PutTwice(d[1..], k, v);
    }
  }

  /** Pushing the same key and value to the front twice leaves one entry, in front. */
  lemma UnshiftAssocTwice<V>(d: Dict<V>, k: string, v: V)
    ensures UnshiftAssoc(UnshiftAssoc(d, k, v), k, v) == UnshiftAssoc(d, k, v)
  {
    var once := UnshiftAssoc(d, k, v);
    UnsetHead(Entry(k, v), Unset(d, k));
    UnsetSpec(d, k);
    UnsetSpec(Unset(d, k), k);
  }

  lemma {:induction false} LookupAppend<V>(a: Dict<V>, b: Dict<V>, k: string)
    ensures Lookup(a + b, k) == if HasKey(a, k) then Lookup(a, k) else Lookup(b, k)
  {
    if a == [] {
      assert a + b == b;
    } else {
      assert (a + b)[0] == a[0];
      assert (a + b)[1..] == a[1..] + b;
      LookupAppend(a[1..], b, k);
    }
  }

  lemma {:induction false} UnsetAppend<V>(a: Dict<V>, b: Dict<V>, k: string)
    ensures Unset(a + b, k) == Unset(a, k) + Unset(b, k)
  {
    if a == [] {
      assert a + b == b;
    } else {
      assert (a + b)[0] == a[0];
      assert (a + b)[1..] == a[1..] + b;
      UnsetAppend(a[1..], b, k);
    }
  }

  /** In a PHP array, a key set in one part of it is set in no other part. */
  lemma {:induction false} DistinctSplit<V>(a: Dict<V>, b: Dict<V>, k: string)
    requires Distinct(a + b)
    ensures Distinct(a) && Distinct(b)
    ensures HasKey(a, k) ==> !HasKey(b, k)
  {
    if a == [] {
      assert a + b == b;
    } else {
      assert (a + b)[0] == a[0];
      assert (a + b)[1..] == a[1..] + b;
      DistinctSplit(a[1..], b, k);
      DistinctSplit(a[1..], b, a[0].key);
      LookupAppend(a[1..], b, a[0].key);
    }
  }
}
