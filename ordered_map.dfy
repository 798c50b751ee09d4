/**
 * The JSON objects of the document as Python holds them after loading:
 * name/value pairs in insertion order. Lookups are linear scans with
 * first-match semantics, as `list.index` has.
 */
module OrderedMap {
  import opened Wrappers

  type OMap<V> = seq<(string, V)>

  /** The keys in document order (`d.keys()`). */
  function Names<V>(m: OMap<V>): seq<string>
  {
    seq(|m|, i requires 0 <= i < |m| => m[i].0)
  }

  /** The values in document order (`d.values()`). */
  function Values<V>(m: OMap<V>): seq<V>
  {
    seq(|m|, i requires 0 <= i < |m| => m[i].1)
  }

  ghost predicate Distinct<T>(s: seq<T>)
  {
    forall i, j :: 0 <= i < j < |s| ==> s[i] != s[j]
  }

  /** Python's `list.index(x)`: the position of the first element equal to x, or nothing. */
  function FirstIndex<T(==)>(s: seq<T>, x: T): (r: Option<nat>)
    ensures r.None? <==> forall j :: 0 <= j < |s| ==> s[j] != x
    ensures r.Some? ==> r.value < |s| && s[r.value] == x
    ensures r.Some? ==> forall j :: 0 <= j < r.value ==> s[j] != x
  {
    if |s| == 0 then None
    else if s[0] == x then Some(0)
    else match FirstIndex(s[1..], x)
      case None => None
      case Some(k) => Some(k + 1)
  }

  /** The first-match index is determined by its defining property. */
  lemma FirstIndexIs<T>(s: seq<T>, x: T, i: nat)
    requires i < |s| && s[i] == x
    requires forall j :: 0 <= j < i ==> s[j] != x
    ensures FirstIndex(s, x) == Some(i)
  {
    var r := FirstIndex(s, x);
    assert r.Some?;
  }

  /** `d[k]` for a key that may be missing. */
  function Lookup<V>(m: OMap<V>, k: string): (r: Option<V>)
    ensures r.None? <==> k !in Names(m)
    ensures r.Some? ==> exists i :: 0 <= i < |m| && m[i].0 == k && m[i].1 == r.value
  {
    match FirstIndex(Names(m), k)
    case None => None
    case Some(i) => Some(m[i].1)
  }

  /**
   * `d[k] = v`: an existing key keeps its place and gets the new value,
   * a new key is appended at the end.
   */
  function Put<V>(m: OMap<V>, k: string, v: V): (r: OMap<V>)
    ensures Lookup(r, k) == Some(v)
    ensures forall j :: j != k ==> Lookup(r, j) == Lookup(m, j)
    ensures Names(r) == if k in Names(m) then Names(m) else Names(m) + [k]
    ensures Distinct(Names(m)) ==> Distinct(Names(r))
    ensures |m| <= |r| <= |m| + 1
    ensures forall i :: 0 <= i < |r| ==> (i < |m| && r[i] == m[i]) || (r[i].0 == k && r[i].1 == v)
  {
    match FirstIndex(Names(m), k)
    case Some(i) =>
      var r := m[i := (k, v)];
      assert Names(r) == Names(m);
      FirstIndexIs(Names(r), k, i);
      r
    case None =>
      var r := m + [(k, v)];
      assert Names(r) == Names(m) + [k];
      FirstIndexIs(Names(r), k, |m|);
      assert forall j :: j != k ==> Lookup(r, j) == Lookup(m, j) by {
        forall j | j != k
          ensures Lookup(r, j) == Lookup(m, j)
        {
          var q := FirstIndex(Names(m), j);
          if q.Some? {
            FirstIndexIs(Names(r), j, q.value);
          }
        }
      }
      r
  }
}
