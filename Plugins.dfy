/** `ComputePluginContext` of `src/ai/backend/agent/resources.py`: the order
    in which accelerator plugins are handed out, with the intrinsic `cpu` and
    `mem` plugins pushed to the back, and the registration of an intrinsic
    device plugin under its key. */
module Plugins {
  import opened Wrappers
  import opened Dicts

  /** A scanned entry point: the plugin's name and its class. */
  type Scanned<P> = (string, P)

  predicate IsIntrinsic(name: string) {
    name == "cpu" || name == "mem"
  }

  /** `accel_lt_intrinsic`: 0 for an intrinsic plugin, -1 for any other. */
  function SortKey<P>(item: Scanned<P>): int {
    if IsIntrinsic(item.0) then 0 else -1
  }

  /** The entries with sort key `key`, in their original order. */
  function Filter<P>(s: seq<Scanned<P>>, key: int): seq<Scanned<P>> {
    if |s| == 0 then []
    else (if SortKey(s[0]) == key then [s[0]] else []) + Filter(s[1..], key)
  }

  /** The list `scanned_plugins.sort(key=accel_lt_intrinsic)` leaves: the
      entries with key -1, then those with key 0. */
  function DiscoverOrder<P>(scanned: seq<Scanned<P>>): seq<Scanned<P>> {
    Filter(scanned, -1) + Filter(scanned, 0)
  }

  predicate SortedByKey<P>(s: seq<Scanned<P>>) {
    forall i, j :: 0 <= i < j < |s| ==> SortKey(s[i]) <= SortKey(s[j])
  }

  /** Both key classes keep their relative order from `s`: what a stable sort
      on a two-valued key guarantees. */
  ghost predicate StableFrom<P>(out: seq<Scanned<P>>, s: seq<Scanned<P>>) {
    Filter(out, -1) == Filter(s, -1) && Filter(out, 0) == Filter(s, 0)
  }

  /** `discover_plugins`: the scanned entries, reordered as the stable sort
      does. */
  method DiscoverPlugins<P>(scanned: seq<Scanned<P>>) returns (ordered: seq<Scanned<P>>)
    ensures multiset(ordered) == multiset(scanned)
    ensures SortedByKey(ordered)
    ensures StableFrom(ordered, scanned)
    ensures forall i :: 0 <= i < |ordered| && IsIntrinsic(ordered[i].0) ==>
      forall j :: i < j < |ordered| ==> IsIntrinsic(ordered[j].0)
  {
    ordered := DiscoverOrder(scanned);
    DiscoverOrderPermutes(scanned);
    DiscoverOrderSorted(scanned);
    DiscoverOrderStable(scanned);
  }

  lemma {:induction false} FilterKeys<P>(s: seq<Scanned<P>>, key: int)
    ensures forall i :: 0 <= i < |Filter(s, key)| ==> SortKey(Filter(s, key)[i]) == key
  {
    if |s| > 0 {
      FilterKeys(s[1..], key);
    }
  }

  lemma {:induction false} FilterAppend<P>(a: seq<Scanned<P>>, b: seq<Scanned<P>>, key: int)
    ensures Filter(a + b, key) == Filter(a, key) + Filter(b, key)
  {
    if |a| == 0 {
      assert a + b == b;
    } else {
      var h := if SortKey(a[0]) == key then [a[0]] else [];
      assert (a + b)[0] == a[0];
      assert (a + b)[1..] == a[1..] + b;
      assert Filter(a + b, key) == h + Filter(a[1..] + b, key);
      FilterAppend(a[1..], b, key);
      assert h + (Filter(a[1..], key) + Filter(b, key)) == (h + Filter(a[1..], key)) + Filter(b, key);
    }
  }

  /** A sequence whose every key is `key` is its own filter for `key`, and has
      nothing with any other key. */
  lemma {:induction false} FilterUniform<P>(s: seq<Scanned<P>>, key: int, other: int)
    requires forall i :: 0 <= i < |s| ==> SortKey(s[i]) == key
    requires other != key
    ensures Filter(s, key) == s
    ensures Filter(s, other) == []
  {
    if |s| > 0 {
      FilterUniform(s[1..], key, other);
    }
  }

  lemma {:induction false} FilterSplits<P>(s: seq<Scanned<P>>)
    ensures multiset(Filter(s, -1)) + multiset(Filter(s, 0)) == multiset(s)
  {
    if |s| > 0 {
      FilterSplits(s[1..]);
      assert s == [s[0]] + s[1..];
    }
  }

  /** The reordering loses and duplicates nothing. */
  lemma DiscoverOrderPermutes<P>(scanned: seq<Scanned<P>>)
    ensures multiset(DiscoverOrder(scanned)) == multiset(scanned)
  {
    FilterSplits(scanned);
  }

  /** Every non-intrinsic plugin comes before every intrinsic one. */
  lemma DiscoverOrderSorted<P>(scanned: seq<Scanned<P>>)
    ensures SortedByKey(DiscoverOrder(scanned))
  {
    FilterKeys(scanned, -1);
    FilterKeys(scanned, 0);
  }

  /** Within each class the scanned order is kept. */
  lemma DiscoverOrderStable<P>(scanned: seq<Scanned<P>>)
    ensures StableFrom(DiscoverOrder(scanned), scanned)
  {
    var a, b := Filter(scanned, -1), Filter(scanned, 0);
    FilterKeys(scanned, -1);
    FilterKeys(scanned, 0);
    FilterAppend(a, b, -1);
    FilterAppend(a, b, 0);
    FilterUniform(a, -1, 0);
    FilterUniform(b, 0, -1);
  }

  lemma SortedTail<P>(s: seq<Scanned<P>>)
    requires |s| > 0 && SortedByKey(s)
    ensures SortedByKey(s[1..])
    ensures SortKey(s[0]) == 0 ==> forall i :: 0 <= i < |s[1..]| ==> SortKey(s[1..][i]) == 0
  {
    forall i, j | 0 <= i < j < |s[1..]|
      ensures SortKey(s[1..][i]) <= SortKey(s[1..][j])
    {
      assert s[1..][i] == s[i + 1] && s[1..][j] == s[j + 1];
    }
    forall i | 0 <= i < |s[1..]|
      ensures SortKey(s[0]) <= SortKey(s[1..][i])
    {
      assert s[1..][i] == s[i + 1];
    }
  }

  /** A sorted sequence is its key -1 entries followed by its key 0 ones. */
  lemma {:induction false} SortedIsFiltered<P>(s: seq<Scanned<P>>)
    requires SortedByKey(s)
    ensures s == Filter(s, -1) + Filter(s, 0)
  {
    if |s| > 0 {
      var t := s[1..];
      SortedTail(s);
      SortedIsFiltered(t);
      if SortKey(s[0]) == -1 {
        assert Filter(s, -1) == [s[0]] + Filter(t, -1);
        assert Filter(s, 0) == Filter(t, 0);
        assert [s[0]] + (Filter(t, -1) + Filter(t, 0)) == ([s[0]] + Filter(t, -1)) + Filter(t, 0);
      } else {
        FilterUniform(t, 0, -1);
        assert Filter(s, -1) == Filter(t, -1);
        assert Filter(s, 0) == [s[0]] + Filter(t, 0);
      }
      assert s == [s[0]] + t;
    }
  }

  /** The order is the only one that is sorted by key and stable: any list
      `list.sort` could have produced is `DiscoverOrder`. */
  lemma DiscoverOrderUnique<P>(scanned: seq<Scanned<P>>, out: seq<Scanned<P>>)
    requires SortedByKey(out) && StableFrom(out, scanned)
    ensures out == DiscoverOrder(scanned)
  {
    SortedIsFiltered(out);
  }

  /** A plugin instance, with the device key it registers under. */
  datatype Plugin<P> = Plugin(key: string, impl: P)

  class ComputePluginContext<P> {
    /** `self.plugins`: the loaded plugins by key, in insertion order. */
    var plugins: Dict<Plugin<P>>

    /** A context whose plugins have been loaded into `loaded`. */
    constructor (loaded: Dict<Plugin<P>>)
      ensures plugins == loaded
    {
      plugins := loaded;
    }

    /** `attach_intrinsic_device`: `self.plugins[plugin.key] = plugin`. */
    method AttachIntrinsicDevice(plugin: Plugin<P>)
      modifies this
      ensures plugins == Set(old(plugins), plugin.key, plugin)
      ensures Get(plugins, plugin.key) == Some(plugin)
      ensures forall k :: k != plugin.key ==> Get(plugins, k) == Get(old(plugins), k)
      ensures DistinctKeys(old(plugins)) ==> DistinctKeys(plugins)
    {
      var before := plugins;
      plugins := Set(plugins, plugin.key, plugin);
      forall k
        ensures Get(plugins, k) == if k == plugin.key then Some(plugin) else Get(before, k)
      {
        GetOfSet(before, plugin.key, plugin, k);
      }
    }
  }
}
