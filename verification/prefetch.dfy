/** The view model's table prefetching hooks: warming the image loader for the rows about
    to appear (prefetchRowsAt) and cancelling those downloads when the rows are no longer
    coming (cancelPrefetchingForRowsAt). For each row that is a review, the avatar URL and
    then each photo URL is loaded with a nil completion, or cancelled. */
module Prefetch {
  import opened Wrappers
  import opened ReviewCell
  import opened TableCells
  import opened ViewModelState
  import opened ImageLoader
  import opened ImageLoaderProperties

  /** The URLs the hooks visit for one row: avatar then photos for a review, none otherwise. */
  function ItemUrls(item: Item): (urls: seq<string>)
    ensures !item.ReviewItem? ==> urls == []
    ensures item.ReviewItem? ==>
      |urls| == 1 + |item.config.photoUrls| && urls[0] == item.config.avatarUrl && urls[1..] == item.config.photoUrls
  {
    if item.ReviewItem? then [item.config.avatarUrl] + item.config.photoUrls else []
  }

  /** The URLs the hooks visit for the given rows, in visiting order. */
  function RowUrls(items: seq<Item>, rows: seq<int>): (urls: seq<string>)
    requires forall k :: 0 <= k < |rows| ==> 0 <= rows[k] < |items|
    ensures forall u :: u in urls <==> exists k :: 0 <= k < |rows| && u in ItemUrls(items[rows[k]])
  {
    if rows == [] then []
    else
      var init := rows[..|rows| - 1];
      var prefix := RowUrls(items, init);
      assert forall k :: 0 <= k < |init| ==> init[k] == rows[k];
      prefix + ItemUrls(items[rows[|rows| - 1]])
  }

  /** One warm-up load: a nil completion, so nobody is called; the cache is untouched, URLs
      already loading keep their operation, and the URL starts loading exactly when it
      parses and is not cached. */
  method WarmUp(l: Loader, parses: string -> bool, url: string) returns (r: Loader, calls: seq<Call>)
    requires Valid(l)
    ensures calls == []
    ensures Valid(r) && r.cache == l.cache
    ensures forall u :: u in l.loading ==> u in r.loading && r.loading[u] == l.loading[u]
    ensures parses(url) && url !in l.cache ==> url in r.loading
    ensures forall u :: u in r.loading ==> u in l.loading || (u == url && parses(url) && url !in l.cache)
  {
    var out := Load(l, parses, url, None);
    r, calls := out.0, out.1;
    LoadPreservesValid(l, parses, url, None);
  }

  /** One cancellation: the cache is untouched, nothing starts loading, the URL stops
      loading if it parses, and every other URL keeps its operation. */
  method CoolDown(l: Loader, parses: string -> bool, url: string) returns (r: Loader)
    requires Valid(l)
    ensures Valid(r) && r.cache == l.cache
    ensures parses(url) ==> url !in r.loading
    ensures forall u :: u in r.loading ==> u in l.loading
    ensures forall u :: u in l.loading && (u != url || !parses(url)) ==>
      u in r.loading && r.loading[u] == l.loading[u]
  {
    r := CancelLoad(l, parses, url);
    CancelPreservesValid(l, parses, url);
  }

  /** The warm-up loads for one row's URLs, in order. */
  method WarmUpAll(l: Loader, parses: string -> bool, urls: seq<string>) returns (r: Loader)
    requires Valid(l)
    ensures Valid(r) && r.cache == l.cache
    ensures forall u :: u in l.loading ==> u in r.loading && r.loading[u] == l.loading[u]
    ensures forall u :: u in urls && parses(u) && u !in l.cache ==> u in r.loading
    ensures forall u :: u in r.loading ==> u in l.loading || (u in urls && parses(u) && u !in l.cache)
  {
    r := l;
    var p := 0;
    while p < |urls|
      invariant 0 <= p <= |urls|
      invariant Valid(r) && r.cache == l.cache
      invariant forall u :: u in l.loading ==> u in r.loading && r.loading[u] == l.loading[u]
      invariant forall u :: u in urls[..p] && parses(u) && u !in l.cache ==> u in r.loading
      invariant forall u :: u in r.loading ==> u in l.loading || (u in urls[..p] && parses(u) && u !in l.cache)
    {
      assert urls[..p + 1] == urls[..p] + [urls[p]];
      var calls;
      r, calls := WarmUp(r, parses, urls[p]);
      p := p + 1;
    }
    assert urls[..p] == urls;
  }

  /** The cancellations for one row's URLs, in order. */
  method CoolDownAll(l: Loader, parses: string -> bool, urls: seq<string>) returns (r: Loader)
    requires Valid(l)
    ensures Valid(r) && r.cache == l.cache
    ensures forall u :: u in urls && parses(u) ==> u !in r.loading
    ensures forall u :: u in r.loading ==> u in l.loading
    ensures forall u :: u in l.loading && !(u in urls && parses(u)) ==>
      u in r.loading && r.loading[u] == l.loading[u]
  {
    r := l;
    var p := 0;
    while p < |urls|
      invariant 0 <= p <= |urls|
      invariant Valid(r) && r.cache == l.cache
      invariant forall u :: u in urls[..p] && parses(u) ==> u !in r.loading
      invariant forall u :: u in r.loading ==> u in l.loading
      invariant forall u :: u in l.loading && !(u in urls[..p] && parses(u)) ==>
        u in r.loading && r.loading[u] == l.loading[u]
    {
      assert urls[..p + 1] == urls[..p] + [urls[p]];
      r := CoolDown(r, parses, urls[p]);
      p := p + 1;
    }
    assert urls[..p] == urls;
  }

  /** prefetchRowsAt: afterwards every parseable, uncached URL of the review rows is being
      loaded, downloads already under way are kept, nothing else starts, and the cache is
      untouched. Rows must be valid indices, as the Swift code subscripts the items with them. */
  method PrefetchRows(st: State, l: Loader, parses: string -> bool, rows: seq<int>) returns (r: Loader)
    requires Valid(l)
    requires forall k :: 0 <= k < |rows| ==> 0 <= rows[k] < |st.items|
    ensures Valid(r) && r.cache == l.cache
    ensures forall u :: u in l.loading ==> u in r.loading && r.loading[u] == l.loading[u]
    ensures forall u :: u in RowUrls(st.items, rows) && parses(u) && u !in l.cache ==> u in r.loading
    ensures forall u :: u in r.loading ==> u in l.loading || (u in RowUrls(st.items, rows) && parses(u) && u !in l.cache)
  {
    r := l;
    var k := 0;
    while k < |rows|
      invariant 0 <= k <= |rows|
      invariant Valid(r) && r.cache == l.cache
      invariant forall u :: u in l.loading ==> u in r.loading && r.loading[u] == l.loading[u]
      invariant forall u :: u in RowUrls(st.items, rows[..k]) && parses(u) && u !in l.cache ==> u in r.loading
      invariant forall u :: u in r.loading ==> u in l.loading || (u in RowUrls(st.items, rows[..k]) && parses(u) && u !in l.cache)
    {
      assert rows[..k + 1][..k] == rows[..k];
      assert RowUrls(st.items, rows[..k + 1]) == RowUrls(st.items, rows[..k]) + ItemUrls(st.items[rows[k]]);
      r := WarmUpAll(r, parses, ItemUrls(st.items[rows[k]]));
      k := k + 1;
    }
    assert rows[..k] == rows;
  }

  /** cancelPrefetchingForRowsAt: afterwards no parseable URL of the review rows is being
      loaded, every other download is kept, nothing starts, and the cache is untouched. */
  method CancelPrefetchRows(st: State, l: Loader, parses: string -> bool, rows: seq<int>) returns (r: Loader)
    requires Valid(l)
    requires forall k :: 0 <= k < |rows| ==> 0 <= rows[k] < |st.items|
    ensures Valid(r) && r.cache == l.cache
    ensures forall u :: u in RowUrls(st.items, rows) && parses(u) ==> u !in r.loading
    ensures forall u :: u in r.loading ==> u in l.loading
    ensures forall u :: u in l.loading && !(u in RowUrls(st.items, rows) && parses(u)) ==>
      u in r.loading && r.loading[u] == l.loading[u]
  {
    r := l;
    var k := 0;
    while k < |rows|
      invariant 0 <= k <= |rows|
      invariant Valid(r) && r.cache == l.cache
      invariant forall u :: u in RowUrls(st.items, rows[..k]) && parses(u) ==> u !in r.loading
      invariant forall u :: u in r.loading ==> u in l.loading
      invariant forall u :: u in l.loading && !(u in RowUrls(st.items, rows[..k]) && parses(u)) ==>
        u in r.loading && r.loading[u] == l.loading[u]
    {
      assert rows[..k + 1][..k] == rows[..k];
      assert RowUrls(st.items, rows[..k + 1]) == RowUrls(st.items, rows[..k]) + ItemUrls(st.items[rows[k]]);
      r := CoolDownAll(r, parses, ItemUrls(st.items[rows[k]]));
      k := k + 1;
    }
    assert rows[..k] == rows;
  }
}
