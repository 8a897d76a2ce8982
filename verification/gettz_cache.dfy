/** The two-tier cache of `gettz`: a weak tier that maps every name
    looked up to its zone for as long as the zone is alive, and a strong
    tier, an ordered dictionary of at most `size` recently used names
    (oldest first) that keeps their zones alive. Resolving a name without
    the cache (`nocache`: the environment, the file system, the zone
    database) is an oracle passed in. */
module GettzCache {

  import opened Base

  /** A zone object, known only by its identity and whether it is a
      `tzlocal` (which depends on the environment when built). */
  datatype Tz = Tz(id: nat, isLocal: bool)

  /** `gettz(name)`: the name, or `None` for the local zone. */
  type Key = Option<string>

  type Oracle = Key -> Option<Tz>

  /** The strong tier is kept as (name, zone) pairs, oldest first. */
  datatype Cache = Cache(weak: map<Key, Tz>, strong: seq<(Key, Tz)>, size: int)

  const DefaultSize: int := 8

  /** `GettzFunc.__init__`. */
  function Fresh(): (c: Cache)
    ensures Valid(c) && c.strong == [] && c.weak == map[] && c.size == DefaultSize
  {
    Cache(map[], [], DefaultSize)
  }

  predicate DistinctKeys(s: seq<(Key, Tz)>) {
    forall i, j :: 0 <= i < j < |s| ==> s[i].0 != s[j].0
  }

  /** The bound the strong tier keeps: a negative size empties it. */
  function Bound(size: int): nat {
    if size < 0 then 0 else size
  }

  /** The cache invariant: only cacheable answers are remembered; the
      strong tier has distinct names, respects its bound, and every zone
      it keeps alive is still in the weak tier under the same name. */
  predicate Valid(c: Cache) {
    && (forall key :: key in c.weak ==> Cacheable(key, Some(c.weak[key])))
    && DistinctKeys(c.strong)
    && |c.strong| <= Bound(c.size)
    && Covered(c.weak, c.strong)
  }

  /** Every strong entry is in the weak tier with the same zone. */
  predicate Covered(weak: map<Key, Tz>, strong: seq<(Key, Tz)>) {
    forall q :: q in strong ==> q.0 in weak && weak[q.0] == q.1
  }

  /** The zone the strong tier holds for a name, if any. */
  function Lookup(s: seq<(Key, Tz)>, key: Key): (r: Option<Tz>)
    ensures r.None? <==> forall k :: 0 <= k < |s| ==> s[k].0 != key
    ensures r.Some? ==> exists k :: 0 <= k < |s| && s[k] == (key, r.value)
    ensures DistinctKeys(s) ==> forall k :: 0 <= k < |s| && s[k].0 == key ==> r == Some(s[k].1)
  {
    if s == [] then None
    else if s[0].0 == key then Some(s[0].1)
    else
      var r := Lookup(s[1..], key);
      assert forall k :: 1 <= k < |s| ==> s[1..][k - 1] == s[k];
      r
  }

  /** The strong tier without the name, order otherwise kept. */
  function Remove(s: seq<(Key, Tz)>, key: Key): (r: seq<(Key, Tz)>)
    ensures |r| <= |s|
    ensures forall p :: p in r <==> p in s && p.0 != key
    ensures Lookup(s, key).None? ==> r == s
  {
    if s == [] then []
    else if s[0].0 == key then Remove(s[1..], key)
    else [s[0]] + Remove(s[1..], key)
  }

  /** The tail of a tier with distinct names has distinct names, none
      of them the head's. */
  lemma TailDistinct(s: seq<(Key, Tz)>)
    requires DistinctKeys(s) && s != []
    ensures DistinctKeys(s[1..])
    ensures forall p :: p in s[1..] ==> p.0 != s[0].0
  {
    forall i, j | 0 <= i < j < |s[1..]| ensures s[1..][i].0 != s[1..][j].0 {
      assert s[1..][i] == s[i + 1] && s[1..][j] == s[j + 1];
    }
  }

  /** A head whose name no later entry has keeps the names distinct. */
  lemma ConsDistinct(p: (Key, Tz), rest: seq<(Key, Tz)>)
    requires DistinctKeys(rest)
    requires forall q :: q in rest ==> q.0 != p.0
    ensures DistinctKeys([p] + rest)
  {
    forall i, j | 0 <= i < j < |[p] + rest| ensures ([p] + rest)[i].0 != ([p] + rest)[j].0 {
      assert ([p] + rest)[j] == rest[j - 1];
      if i > 0 {
        assert ([p] + rest)[i] == rest[i - 1];
      }
    }
  }

  /** Removing a name present once shortens the tier by one and keeps
      the names distinct. */
  lemma {:induction false} RemoveDistinct(s: seq<(Key, Tz)>, key: Key)
    requires DistinctKeys(s)
    ensures DistinctKeys(Remove(s, key))
    ensures Lookup(s, key).Some? ==> |Remove(s, key)| == |s| - 1
  {
    if s != [] {
      TailDistinct(s);
      RemoveDistinct(s[1..], key);
      if s[0].0 != key {
        ConsDistinct(s[0], Remove(s[1..], key));
      } else {
        assert Lookup(s[1..], key).None?;
      }
    }
  }

  /** In a tier with distinct names, removing a name cuts out exactly
      its one entry and keeps every other entry in its order. */
  lemma {:induction false} RemoveKeepsOrder(s: seq<(Key, Tz)>, key: Key, i: nat)
    requires DistinctKeys(s) && i < |s| && s[i].0 == key
    ensures Remove(s, key) == s[..i] + s[i + 1..]
    decreases i
  {
    TailDistinct(s);
    if i == 0 {
      assert Lookup(s[1..], key).None?;
    } else {
      RemoveKeepsOrder(s[1..], key, i - 1);
      ConsCut(s, i);
    }
  }

  lemma ConsCut(s: seq<(Key, Tz)>, i: nat)
    requires 0 < i < |s|
    ensures [s[0]] + (s[1..][..i - 1] + s[1..][i..]) == s[..i] + s[i + 1..]
  {
    assert s[1..][..i - 1] == s[1..i];
    assert s[1..][i..] == s[i + 1..];
    assert [s[0]] + s[1..i] == s[..i];
  }

  /** `strong[name] = strong.pop(name, rv)`: the name moves to the newest
      end, keeping the zone it had, or `rv` if it had none. */
  function Touch(s: seq<(Key, Tz)>, key: Key, rv: Tz): (r: seq<(Key, Tz)>)
    ensures |r| > 0 && r[|r| - 1] == (key, Lookup(s, key).GetOr(rv))
    ensures r[..|r| - 1] == Remove(s, key)
  {
    Remove(s, key) + [(key, Lookup(s, key).GetOr(rv))]
  }

  /** `popitem(last=False)` once when over the size. */
  function TrimOnce(s: seq<(Key, Tz)>, size: int): (r: seq<(Key, Tz)>)
    requires |s| > 0
    ensures |s| > size ==> r == s[1..]
    ensures |s| <= size ==> r == s
  {
    if |s| > size then s[1..] else s
  }

  /** Whether a freshly resolved zone is remembered: not the local zone
      asked for by `None`, not a `tzlocal`, not a failed lookup. */
  predicate Cacheable(name: Key, rv: Option<Tz>) {
    name.Some? && rv.Some? && !rv.value.isLocal
  }

  /** `GettzFunc.__call__`: the weak tier first, then the oracle. An
      uncacheable answer is returned with the cache untouched; otherwise
      the name becomes the newest entry of the strong tier, which then
      drops its oldest entry if over the size. */
  function Call(c: Cache, name: Key, nocache: Oracle): (r: (Option<Tz>, Cache))
    ensures name in c.weak ==> r.0 == Some(c.weak[name])
    ensures name !in c.weak ==> r.0 == nocache(name)
    ensures name !in c.weak && !Cacheable(name, nocache(name)) ==> r.1 == c
    ensures r.1.size == c.size
  {
    if name in c.weak then
      var rv := c.weak[name];
      (Some(rv), c.(strong := TrimOnce(Touch(c.strong, name, rv), c.size)))
    else
      var rv := nocache(name);
      if !Cacheable(name, rv) then (rv, c)
      else
        var weak := c.weak[name := rv.value];
        (rv, Cache(weak, TrimOnce(Touch(c.strong, name, rv.value), c.size), c.size))
  }

  /** The strong tier after a call that reaches it (a weak hit or a
      cacheable answer): the other names in their old order, then the
      name with its zone as the newest entry, and the oldest entry of
      that sequence dropped exactly when it holds more than `size`. */
  lemma CallMovesToNewest(c: Cache, name: Key, nocache: Oracle)
    requires Valid(c)
    requires name in c.weak || Cacheable(name, nocache(name))
    ensures var r := Call(c, name, nocache);
      var rest := Remove(c.strong, name);
      && r.0.Some?
      && |r.1.strong| == (if |rest| + 1 > c.size then |rest| else |rest| + 1)
      && r.1.strong == (rest + [(name, r.0.value)])[|rest| + 1 - |r.1.strong|..]
  {
    var z := CallStrong(c, name, nocache);
    TouchShape(c.strong, name, z);
    TrimShape(Touch(c.strong, name, z), c.size);
  }

  /** The zone a call that reaches the strong tier answers with, and the
      tier it leaves. */
  lemma CallStrong(c: Cache, name: Key, nocache: Oracle) returns (z: Tz)
    requires Valid(c)
    requires name in c.weak || Cacheable(name, nocache(name))
    ensures Call(c, name, nocache).0 == Some(z)
    ensures Lookup(c.strong, name).GetOr(z) == z
    ensures Call(c, name, nocache).1.strong == TrimOnce(Touch(c.strong, name, z), c.size)
  {
    CoveredLookup(c, name);
    z := Call(c, name, nocache).0.value;
  }

  lemma TrimShape(u: seq<(Key, Tz)>, size: int)
    requires |u| > 0
    ensures |TrimOnce(u, size)| == (if |u| > size then |u| - 1 else |u|)
    ensures TrimOnce(u, size) == u[|u| - |TrimOnce(u, size)|..]
  {
  }

  lemma TouchShape(s: seq<(Key, Tz)>, name: Key, z: Tz)
    requires Lookup(s, name).GetOr(z) == z
    ensures Touch(s, name, z) == Remove(s, name) + [(name, z)]
  {
  }

  /** A name the strong tier holds is in the weak tier with the same zone. */
  lemma CoveredLookup(c: Cache, name: Key)
    requires Valid(c)
    ensures Lookup(c.strong, name).Some? ==> name in c.weak && Lookup(c.strong, name).value == c.weak[name]
  {
    if Lookup(c.strong, name).Some? {
      var k :| 0 <= k < |c.strong| && c.strong[k] == (name, Lookup(c.strong, name).value);
      assert c.strong[k] in c.strong;
    }
  }

  /** The oldest entries dropped until at most `n` remain: the newest
      `n` entries, or none for a negative `n`. */
  function Newest(s: seq<(Key, Tz)>, n: int): (r: seq<(Key, Tz)>)
    ensures |r| == if |s| <= n then |s| else Bound(n)
  {
    if |s| <= n then s else s[|s| - Bound(n)..]
  }

  datatype SizeError = PopFromEmpty   // `popitem` on an empty dictionary

  /** `set_cache_size`: record the size, then drop the oldest entries
      while there are more than `size`. With a negative size the loop
      empties the tier and then pops from an empty dictionary, which
      raises after the cache has been changed. */
  method SetCacheSize(c: Cache, size: int) returns (r: Cache, err: Option<SizeError>)
    ensures r.size == size && r.weak == c.weak
    ensures r.strong == Newest(c.strong, size)
    ensures err.Some? <==> size < 0
    ensures Valid(c) ==> Valid(r)
  {
    var strong := c.strong;
    err := None;
    while |strong| > size
      invariant |strong| <= |c.strong| && strong == c.strong[|c.strong| - |strong|..]
      invariant |strong| == |c.strong| || |strong| >= size
      invariant err.None?
      decreases |strong|
    {
      if strong == [] {
        err := Some(PopFromEmpty);
        break;
      }
      strong := strong[1..];
    }
    r := c.(strong := strong, size := size);
    if Valid(c) {
      NewestValid(c, size);
    }
  }

  /** `cache_clear`: both tiers emptied, the size kept. */
  function CacheClear(c: Cache): (r: Cache)
    ensures r.weak == map[] && r.strong == [] && r.size == c.size
    ensures Valid(r)
  {
    Cache(map[], [], c.size)
  }

  /** The garbage collector: any weak entry whose zone the strong tier
      does not keep alive may vanish. */
  function Collect(c: Cache, drop: set<Key>): (r: Cache)
    ensures forall key :: key in r.weak <==> key in c.weak && (key !in drop || Lookup(c.strong, key).Some?)
    ensures forall key :: key in r.weak ==> r.weak[key] == c.weak[key]
    ensures r.strong == c.strong && r.size == c.size
  {
    var kept := map key | key in c.weak && (key !in drop || Lookup(c.strong, key).Some?) :: c.weak[key];
    c.(weak := kept)
  }

  /** A new newest entry whose name no other entry has keeps the names
      distinct. */
  lemma SnocDistinct(rest: seq<(Key, Tz)>, p: (Key, Tz))
    requires DistinctKeys(rest)
    requires forall q :: q in rest ==> q.0 != p.0
    ensures DistinctKeys(rest + [p])
  {
    forall i, j | 0 <= i < j < |rest + [p]| ensures (rest + [p])[i].0 != (rest + [p])[j].0 {
      assert (rest + [p])[i] == rest[i];
    }
  }

  /** Every suffix of a tier with distinct names has distinct names. */
  lemma SuffixDistinct(s: seq<(Key, Tz)>, i: nat)
    requires DistinctKeys(s) && i <= |s|
    ensures DistinctKeys(s[i..])
  {
    forall a, b | 0 <= a < b < |s[i..]| ensures s[i..][a].0 != s[i..][b].0 {
      assert s[i..][a] == s[i + a] && s[i..][b] == s[i + b];
    }
  }

  /** The strong tier after a touch and a trim: the touched name is the
      newest entry, the names stay distinct, the bound holds, and every
      entry comes from the old tier or is the touched one. */
  lemma TouchTrim(s: seq<(Key, Tz)>, key: Key, v: Tz, size: int)
    requires DistinctKeys(s) && |s| <= Bound(size)
    ensures var t := TrimOnce(Touch(s, key, v), size);
      && DistinctKeys(t)
      && |t| <= Bound(size)
      && (size > 0 ==> |t| > 0 && t[|t| - 1] == (key, Lookup(s, key).GetOr(v)))
      && forall q :: q in t ==> q in s || q == (key, Lookup(s, key).GetOr(v))
  {
    var p := (key, Lookup(s, key).GetOr(v));
    var r := Remove(s, key);
    RemoveDistinct(s, key);
    SnocDistinct(r, p);
    var u := Touch(s, key, v);
    assert u == r + [p];
    if |u| > size {
      SuffixDistinct(u, 1);
      assert forall q :: q in u[1..] ==> q in u;
    }
  }

  /** A call answered by the weak tier keeps the invariant. */
  lemma HitValid(c: Cache, name: Key)
    requires Valid(c) && name in c.weak
    ensures Valid(c.(strong := TrimOnce(Touch(c.strong, name, c.weak[name]), c.size)))
  {
    var v := c.weak[name];
    if Lookup(c.strong, name).Some? {
      assert Lookup(c.strong, name) == Some(v);
    }
    TouchTrim(c.strong, name, v, c.size);
  }

  /** A call answered by the oracle and remembered keeps the invariant. */
  lemma MissValid(c: Cache, name: Key, v: Tz)
    requires Valid(c) && name !in c.weak && Cacheable(name, Some(v))
    ensures Valid(Cache(c.weak[name := v], TrimOnce(Touch(c.strong, name, v), c.size), c.size))
  {
    assert Lookup(c.strong, name).None?;
    TouchTrim(c.strong, name, v, c.size);
  }

  /** Every call keeps the cache invariant. */
  lemma CallValid(c: Cache, name: Key, nocache: Oracle)
    requires Valid(c)
    ensures Valid(Call(c, name, nocache).1)
  {
    if name in c.weak {
      HitValid(c, name);
    } else if Cacheable(name, nocache(name)) {
      MissValid(c, name, nocache(name).value);
    }
  }

  /** After a call that remembers its answer, the name is the newest
      strong entry (unless the size is zero or less) and a second call
      answers the same without consulting the oracle. */
  lemma CallRemembers(c: Cache, name: Key, nocache: Oracle, later: Oracle)
    requires Valid(c)
    requires name in c.weak || Cacheable(name, nocache(name))
    ensures var (rv, c') := Call(c, name, nocache);
      && rv.Some?
      && (c.size > 0 ==> c'.strong[|c'.strong| - 1] == (name, rv.value))
      && Call(c', name, later).0 == rv
  {
    var v := if name in c.weak then c.weak[name] else nocache(name).value;
    if name in c.weak {
      if Lookup(c.strong, name).Some? {
        assert Lookup(c.strong, name) == Some(v);
      }
    } else {
      assert Lookup(c.strong, name).None?;
    }
    TouchTrim(c.strong, name, v, c.size);
  }

  /** `gettz()` (the local zone), `tzlocal` answers and failed lookups are
      never stored: when the weak tier does not answer, such a call
      leaves the cache as it was. A valid cache never answers `None`. */
  lemma UncacheableNotStored(c: Cache, name: Key, nocache: Oracle)
    requires Valid(c)
    requires !Cacheable(name, nocache(name))
    ensures name.None? ==> Call(c, name, nocache) == (nocache(name), c)
    ensures name !in c.weak ==> Call(c, name, nocache) == (nocache(name), c)
  {
  }

  /** The newest entries of a valid tier form a valid tier. */
  lemma NewestValid(c: Cache, size: int)
    requires Valid(c)
    ensures Valid(c.(strong := Newest(c.strong, size), size := size))
  {
    var s := Newest(c.strong, size);
    if |c.strong| > size {
      SuffixDistinct(c.strong, |c.strong| - Bound(size));
      assert forall q :: q in s ==> q in c.strong;
    }
  }

  /** The garbage collector never breaks the invariant. */
  lemma CollectValid(c: Cache, drop: set<Key>)
    requires Valid(c)
    ensures Valid(Collect(c, drop))
  {
    forall k | 0 <= k < |c.strong|
      ensures Lookup(c.strong, c.strong[k].0).Some?
    {
    }
  }
}
