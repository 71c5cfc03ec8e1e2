/** Python dictionaries remember the order in which keys were first
    inserted; reassigning an existing key keeps its position. The orchestrator's
    result tree, the classification and the configuration's `langs` section
    are all such dictionaries, and their order decides the order of dispatch
    and of the report. */
module OrderedDicts {

  /** Keys in insertion order, and the values they map to. */
  datatype ODict<K(!new), V> = ODict(keys: seq<K>, vals: map<K, V>)
  {
    ghost predicate Valid()
    {
      && (forall i, j :: 0 <= i < j < |keys| ==> keys[i] != keys[j])
      && (forall i :: 0 <= i < |keys| ==> keys[i] in vals)
      && (forall k :: k in vals ==> k in keys)
    }
  }

  /** A well-formed dictionary: no key twice, and the order lists exactly the
      keys that have values. */
  type Dict<K(!new), V> = d: ODict<K, V> | d.Valid() witness ODict([], map[])

  function Empty<K(!new), V>(): (d: Dict<K, V>)
    ensures |d.keys| == 0 && d.vals == map[]
  {
    ODict([], map[])
  }

  /** `d[k] = v`: a new key goes to the end, an existing key keeps its place. */
  function Put<K(!new), V>(d: Dict<K, V>, k: K, v: V): (r: Dict<K, V>)
    ensures r.vals == d.vals[k := v]
    ensures k in d.vals ==> r.keys == d.keys
    ensures k !in d.vals ==> r.keys == d.keys + [k]
  {
    if k in d.vals then ODict(d.keys, d.vals[k := v]) else ODict(d.keys + [k], d.vals[k := v])
  }

  /** The position of a key in the order. */
  ghost function IndexOf<K(!new), V>(d: Dict<K, V>, k: K): (i: nat)
    requires k in d.vals
    ensures i < |d.keys| && d.keys[i] == k
  {
    var i :| 0 <= i < |d.keys| && d.keys[i] == k; i
  }

  ghost predicate Distinct<T>(s: seq<T>)
  {
    forall i, j :: 0 <= i < j < |s| ==> s[i] != s[j]
  }

  /** The elements of `s` in order of first occurrence: the key order a
      dictionary ends with after `d[x] = ...` for each `x` of `s` in turn. */
  function FirstOccurrences<T(==)>(s: seq<T>): seq<T>
  {
    if s == [] then []
    else
      var d := FirstOccurrences(s[..|s| - 1]);
      if s[|s| - 1] in d then d else d + [s[|s| - 1]]
  }

  /** Keeping first occurrences loses no element and adds none. */
  lemma {:induction false} FirstOccurrencesElements<T>(s: seq<T>)
    ensures forall x :: x in FirstOccurrences(s) <==> x in s
  {
    if s != [] {
      FirstOccurrencesElements(s[..|s| - 1]);
      assert s == s[..|s| - 1] + [s[|s| - 1]];
    }
  }

  /** A sequence without repetitions is its own first occurrences. */
  lemma {:induction false} FirstOccurrencesOfDistinct<T>(s: seq<T>)
    requires Distinct(s)
    ensures FirstOccurrences(s) == s
  {
    if s != [] {
      var init := s[..|s| - 1];
      FirstOccurrencesOfDistinct(init);
      assert s[|s| - 1] !in init;
      assert s == init + [s[|s| - 1]];
    }
  }

  /** One more assignment: the key order grows by the new key unless it is
      already there. */
  lemma FirstOccurrencesStep<T>(s: seq<T>, j: nat)
    requires j < |s|
    ensures FirstOccurrences(s[..j + 1]) ==
      if s[j] in FirstOccurrences(s[..j]) then FirstOccurrences(s[..j]) else FirstOccurrences(s[..j]) + [s[j]]
  {
    assert s[..j + 1][..j] == s[..j];
  }
}
