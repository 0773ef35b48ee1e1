/** The image loader (ImageLoader): a cache of decoded images by URL, and a map from URL to
    the one operation downloading it, to which later requests for the same URL attach
    their completion handlers. Everything runs on the main queue, so the loader is a
    sequential state machine: `load`, `cancelLoad`, the network answer for one operation
    (`Deliver`), and the cache dropping an entry (`Evict`). URL parsing (URL(string:))
    is the parameter `parses`; a parsed URL is keyed by its string. */
module ImageLoader {
  import opened Wrappers
  import opened LoadOperation

  /** A completion closure passed to `load`, identified by a number. */
  type Completion = nat

  /** The closure `load` builds and attaches to an operation: it remembers the URL and
      the caller's completion, which may be nil. */
  datatype Handler = Handler(url: string, completion: Option<Completion>)

  /** A call of a caller's completion with a value. */
  datatype Call = Call(completion: Completion, image: Option<Image>)

  /** The loader: the image cache, the URL-to-operation map (loadingOperations), every
      operation created so far by number (an operation removed from the map still
      exists and may still get its network answer), and the next operation number. */
  datatype Loader = Loader(
    cache: map<string, Image>,
    loading: map<string, nat>,
    ops: map<nat, Operation<Handler>>,
    nextOp: nat
  )

  /** A new loader: empty cache, nothing loading. */
  function Empty(): (l: Loader)
    ensures l.cache == map[] && l.loading == map[] && l.ops == map[]
  {
    Loader(map[], map[], map[], 0)
  }

  /** Every URL in the map refers to an existing operation, and operation numbers are
      below the next one. */
  predicate Consistent(l: Loader)
  {
    && (forall u :: u in l.loading ==> l.loading[u] in l.ops)
    && (forall id :: id in l.ops ==> id < l.nextOp)
  }

  /** `completion?(image)`: one call when a completion was given, none for nil. */
  function Notify(completion: Option<Completion>, image: Option<Image>): (calls: seq<Call>)
    ensures completion.None? ==> calls == []
    ensures completion.Some? ==> calls == [Call(completion.value, image)]
  {
    match completion
    case None => []
    case Some(c) => [Call(c, image)]
  }

  /** load(by:completion:). An unparseable URL answers nil at once; a cached image is
      answered at once; otherwise the handler is attached to the URL's operation, or a
      new operation holding just that handler is registered under the URL. */
  function Load(l: Loader, parses: string -> bool, url: string, completion: Option<Completion>): (r: (Loader, seq<Call>))
    requires Consistent(l)
    ensures Consistent(r.0)
    ensures !parses(url) ==> r == (l, Notify(completion, None))
    ensures parses(url) && url in l.cache ==> r == (l, Notify(completion, Some(l.cache[url])))
    ensures parses(url) && url !in l.cache ==>
      && r.1 == []
      && r.0.cache == l.cache
      && url in r.0.loading
      && r.0.loading == l.loading[url := r.0.loading[url]]
    ensures parses(url) && url !in l.cache && url in l.loading ==>
      var id := l.loading[url];
      r.0 == l.(ops := l.ops[id := l.ops[id].(handlers := l.ops[id].handlers + [Handler(url, completion)])])
    ensures parses(url) && url !in l.cache && url !in l.loading ==>
      && r.0.loading[url] == l.nextOp && l.nextOp !in l.ops
      && r.0.ops == l.ops[l.nextOp := Fresh(url, Handler(url, completion))]
      && r.0.nextOp == l.nextOp + 1
  {
    if !parses(url) then (l, Notify(completion, None))
    else if url in l.cache then (l, Notify(completion, Some(l.cache[url])))
    else
      var handler := Handler(url, completion);
      if url in l.loading then
        var id := l.loading[url];
        var op := l.ops[id];
        (l.(ops := l.ops[id := op.(handlers := op.handlers + [handler])]), [])
      else
        var id := l.nextOp;
        (Loader(l.cache, l.loading[url := id], l.ops[id := Fresh(url, handler)], id + 1), [])
  }

  /** cancelLoad(by:): cancel the URL's operation and forget it; its handlers are never
      called. Nothing happens for an unparseable URL or one with no operation. */
  function CancelLoad(l: Loader, parses: string -> bool, url: string): (r: Loader)
    requires Consistent(l)
    ensures Consistent(r)
    ensures !parses(url) || url !in l.loading ==> r == l
    ensures parses(url) && url in l.loading ==>
      var id := l.loading[url];
      && r.loading == l.loading - {url}
      && r.ops == l.ops[id := l.ops[id].(cancelled := true)]
      && r.cache == l.cache && r.nextOp == l.nextOp
  {
    if !parses(url) || url !in l.loading then l
    else
      var id := l.loading[url];
      l.(ops := l.ops[id := l.ops[id].(cancelled := true)], loading := l.loading - {url})
  }

  /** The cache dropping an entry, as NSCache may at any time. */
  function Evict(l: Loader, url: string): (r: Loader)
    ensures url !in r.cache
    ensures r == l.(cache := r.cache)
    ensures forall u :: u in r.cache <==> u in l.cache && u != url
    ensures forall u :: u in r.cache ==> r.cache[u] == l.cache[u]
  {
    l.(cache := l.cache - {url})
  }

  /** The calls the handlers of an operation make for a value: a nil value calls no one;
      an image calls every non-nil completion, in append order. */
  function Notified(handlers: seq<Handler>, image: Option<Image>): (calls: seq<Call>)
    ensures image.None? ==> calls == []
    ensures forall i :: 0 <= i < |calls| ==> calls[i].image == image
  {
    if image.None? || handlers == [] then []
    else Notify(handlers[0].completion, image) + Notified(handlers[1..], image)
  }

  /** The closure `load` built, run with a value: on nil it does nothing; on an image it
      caches the image under its URL, forgets the URL's operation, and calls the caller's
      completion. */
  function RunHandler(l: Loader, h: Handler, image: Option<Image>): (r: (Loader, seq<Call>))
    ensures image.None? ==> r == (l, [])
    ensures image.Some? ==>
      && h.url in r.0.cache && r.0.cache[h.url] == image.value
      && (forall u :: u in l.cache && u != h.url ==> u in r.0.cache && r.0.cache[u] == l.cache[u])
      && h.url !in r.0.loading
      && (forall u :: u in r.0.loading <==> u in l.loading && u != h.url)
      && r.0.ops == l.ops && r.0.nextOp == l.nextOp
      && r.1 == Notify(h.completion, image)
  {
    match image
    case None => (l, [])
    case Some(img) =>
      (l.(cache := l.cache[h.url := img], loading := l.loading - {h.url}), Notify(h.completion, image))
  }

  /** Runs the handler calls of handleResult in order. Handlers touch only the cache and
      the URL map. */
  function RunHandlers(l: Loader, calls: seq<(Handler, Option<Image>)>): (r: (Loader, seq<Call>))
    ensures r.0.ops == l.ops && r.0.nextOp == l.nextOp
    decreases |calls|
  {
    if calls == [] then (l, [])
    else
      var (l1, c1) := RunHandler(l, calls[0].0, calls[0].1);
      var (l2, c2) := RunHandlers(l1, calls[1..]);
      (l2, c1 + c2)
  }

  /** When all handler calls carry one value, running them does nothing for nil; and when
      they are all for one URL, for an image the URL is cached and forgotten and every
      completion is called with it, in order: the effect of a single handler. */
  lemma {:induction false} RunHandlersEffect(l: Loader, calls: seq<(Handler, Option<Image>)>, url: string, image: Option<Image>)
    requires forall i :: 0 <= i < |calls| ==> calls[i].1 == image
    ensures image.None? || calls == [] ==> RunHandlers(l, calls) == (l, [])
    ensures (forall i :: 0 <= i < |calls| ==> calls[i].0.url == url) && image.Some? && calls != [] ==>
      && RunHandlers(l, calls).0 == l.(cache := l.cache[url := image.value], loading := l.loading - {url})
      && RunHandlers(l, calls).1 == Notified(HandlersOf(calls), image)
    decreases |calls|
  {
    if calls != [] {
      var (l1, c1) := RunHandler(l, calls[0].0, calls[0].1);
      RunHandlersEffect(l1, calls[1..], url, image);
      assert RunHandlers(l, calls) == (RunHandlers(l1, calls[1..]).0, c1 + RunHandlers(l1, calls[1..]).1);
      assert HandlersOf(calls)[1..] == HandlersOf(calls[1..]);
      if image.None? {
        assert l1 == l && c1 == [];
        assert RunHandlers(l1, calls[1..]) == (l, []);
        assert c1 + RunHandlers(l1, calls[1..]).1 == [];
      } else if forall i :: 0 <= i < |calls| ==> calls[i].0.url == url {
        var img := image.value;
        assert l1 == l.(cache := l.cache[url := img], loading := l.loading - {url});
        if calls[1..] != [] {
          assert l1.cache[url := img] == l.cache[url := img];
          assert l1.loading - {url} == l.loading - {url};
        }
      }
    }
  }

  /** The handlers of a list of handler calls. */
  function HandlersOf(calls: seq<(Handler, Option<Image>)>): (hs: seq<Handler>)
    ensures |hs| == |calls|
    ensures forall i :: 0 <= i < |calls| ==> hs[i] == calls[i].0
  {
    if calls == [] then [] else [calls[0].0] + HandlersOf(calls[1..])
  }

  /** The network answer for operation `id` (the data, or none): select the result, run
      handleResult, and let the handlers act on the loader. An operation is answered at
      most once. */
  function Deliver(l: Loader, id: nat, data: Option<Bytes>, decode: Bytes -> Option<Image>): (r: (Loader, seq<Call>))
    requires id in l.ops && !l.ops[id].delivered
    ensures
      var op := l.ops[id];
      var image := SelectResult(op.cancelled, data, decode);
      && r.0.ops == l.ops[id := op.(handlers := [], image := image, delivered := true)]
      && r.0.nextOp == l.nextOp
      && (image.None? || op.handlers == [] ==>
            r.0.cache == l.cache && r.0.loading == l.loading && r.1 == [])
      && ((forall h :: h in op.handlers ==> h.url == op.url) && image.Some? && op.handlers != [] ==>
            && r.0.cache == l.cache[op.url := image.value]
            && r.0.loading == l.loading - {op.url}
            && r.1 == Notified(op.handlers, image))
  {
    var op := l.ops[id];
    var image := SelectResult(op.cancelled, data, decode);
    var (op', calls) := HandleResult(op, image);
    assert HandlersOf(calls) == op.handlers;
    RunHandlersEffect(l.(ops := l.ops[id := op'.(delivered := true)]), calls, op.url, image);
    RunHandlers(l.(ops := l.ops[id := op'.(delivered := true)]), calls)
  }
}
