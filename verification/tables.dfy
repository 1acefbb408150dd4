/**
 * A plain JavaScript object used as a dictionary with string keys: the
 * property values, and the order in which a `for…in` loop visits the keys.
 */
module Tables {

  /** Every key is listed once: the last key is not listed before it, and so on back to the first. */
  predicate Distinct(s: seq<string>)
    decreases |s|
  {
    |s| == 0 || (s[|s| - 1] !in s[..|s| - 1] && Distinct(s[..|s| - 1]))
  }

  /** Appending a key not yet listed keeps the keys distinct. */
  lemma DistinctAppend(s: seq<string>, k: string)
    requires Distinct(s) && k !in s
    ensures Distinct(s + [k])
  {
    assert (s + [k])[..|s|] == s;
  }

  /** In a list of distinct keys, no key is listed before its own position. */
  lemma {:induction false} DistinctPrefix(s: seq<string>, i: int)
    requires Distinct(s) && 0 <= i < |s|
    ensures s[i] !in s[..i]
    decreases |s|
  {
    if i < |s| - 1 {
      var init := s[..|s| - 1];
      DistinctPrefix(init, i);
      assert init[..i] == s[..i];
    }
  }

  /** `x` is listed somewhere before `y` in `s`. */
  ghost predicate Before(s: seq<string>, x: string, y: string)
  {
    exists a, b :: 0 <= a < b < |s| && s[a] == x && s[b] == y
  }

  /**
   * A subsequence `r` of `s`, listed in the order of `s`, stays in order when
   * a key is appended to `s`, and to `r` as well (`r'`) or not.
   */
  lemma BeforeAppend(s: seq<string>, last: string, r: seq<string>, r': seq<string>)
    requires forall x :: x in r ==> x in s
    requires forall i, j :: 0 <= i < j < |r| ==> Before(s, r[i], r[j])
    requires r' == r || r' == r + [last]
    ensures forall i, j :: 0 <= i < j < |r'| ==> Before(s + [last], r'[i], r'[j])
  {
    var t := s + [last];
    forall i, j | 0 <= i < j < |r'| ensures Before(t, r'[i], r'[j]) {
      if j < |r| {
        assert Before(s, r[i], r[j]);
        var a, b :| 0 <= a < b < |s| && s[a] == r[i] && s[b] == r[j];
        assert t[a] == r'[i] && t[b] == r'[j];
      } else {
        assert r'[i] == r[i] && r[i] in r;
        var a :| 0 <= a < |s| && s[a] == r[i];
        assert t[a] == r'[i] && t[|s|] == r'[j];
      }
    }
  }

  /** The names of the properties of `Object.prototype`, `__proto__` included. */
  const ObjectPrototypeNames: set<string> := {
    "constructor", "__proto__", "toString", "toLocaleString",
    "valueOf", "hasOwnProperty", "isPrototypeOf", "propertyIsEnumerable",
    "__defineGetter__", "__defineSetter__", "__lookupGetter__", "__lookupSetter__"
  }

  /**
   * The names a plain object inherits from `Object.prototype`: reading
   * `obj[name]` finds one of its members even when `obj` has no such key.
   */
  predicate IsInheritedName(k: string)
  {
    k in ObjectPrototypeNames
  }

  /** `s` with every occurrence of `k` dropped, the rest in their order. */
  function Without(s: seq<string>, k: string): (r: seq<string>)
    ensures forall x :: x in r <==> x in s && x != k
    ensures Distinct(s) ==> Distinct(r)
    ensures |r| <= |s|
    decreases |s|
  {
    if s == [] then []
    else
      var init := s[..|s| - 1];
      var last := s[|s| - 1];
      assert s == init + [last];
      var rest := Without(init, k);
      if last == k then rest
      else
        assert Distinct(s) ==> Distinct(rest + [last]) by {
          if Distinct(s) {
            DistinctAppend(rest, last);
          }
        }
        rest + [last]
  }

  datatype Table<V> = Table(keys: seq<string>, entries: map<string, V>)
  {
    /** The iteration order lists exactly the keys that are present, each once. */
    predicate Valid()
    {
      && Distinct(keys)
      && (forall k :: k in keys ==> k in entries)
      && (forall k :: k in entries ==> k in keys)
    }

    /**
     * The assignment `obj[k] = v`: a key already present keeps its place in
     * the iteration order, a new key is visited last.
     */
    function Put(k: string, v: V): (r: Table<V>)
      requires Valid()
      ensures r.Valid()
      ensures r.entries == entries[k := v]
      ensures k in entries ==> r.keys == keys
      ensures k !in entries ==> r.keys == keys + [k]
    {
      if k in entries then Table(keys, entries[k := v])
      else Table(keys + [k], entries[k := v])
    }

    /** The statement `delete obj[k]`: no effect when `k` is absent. */
    function Remove(k: string): (r: Table<V>)
      requires Valid()
      ensures r.Valid()
      ensures r.entries == entries - {k}
      ensures r.keys == Without(keys, k)
    {
      Table(Without(keys, k), entries - {k})
    }
  }

  /** The object literal `{}`. */
  function Empty<V>(): (r: Table<V>)
    ensures r.Valid() && r.keys == [] && r.entries == map[]
  {
    Table([], map[])
  }
}
