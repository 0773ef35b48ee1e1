/** What the image loader guarantees across its events: the invariant that makes the
    URL-to-operation map a deduplication of live downloads, the fan-out of one download to
    every caller that asked for the URL, cache hits after a download, and the two quirks
    of ImageLoader: a cancelled URL's pending callers are never called, and after a
    download that yields no image the URL stays mapped to a finished operation, so later
    callers for it are never called either, until a cancelLoad of the URL unmaps it. */
module ImageLoaderProperties {
  import opened Wrappers
  import opened LoadOperation
  import opened ImageLoader

  /** An operation that can still be answered with its handlers in place. */
  predicate Live(op: Operation<Handler>)
  {
    !op.cancelled && !op.delivered
  }

  /** The loader invariant: a mapped URL names a non-cancelled operation for that URL and
      is not cached; handlers belong to their operation's URL; and every live operation
      is the one its URL maps to and still holds at least one handler. */
  predicate Valid(l: Loader)
  {
    && Consistent(l)
    && (forall u :: u in l.loading ==>
          l.ops[l.loading[u]].url == u && !l.ops[l.loading[u]].cancelled && u !in l.cache)
    && (forall id, h :: id in l.ops && h in l.ops[id].handlers ==> h.url == l.ops[id].url)
    && (forall id :: id in l.ops && Live(l.ops[id]) ==>
          && l.ops[id].url in l.loading
          && l.loading[l.ops[id].url] == id
          && l.ops[id].handlers != [])
  }

  lemma EmptyValid()
    ensures Valid(Empty())
  {
  }

  /** Deduplication: no two live operations download the same URL. */
  lemma OneLiveOperationPerUrl(l: Loader, i: nat, j: nat)
    requires Valid(l)
    requires i in l.ops && j in l.ops && Live(l.ops[i]) && Live(l.ops[j])
    requires l.ops[i].url == l.ops[j].url
    ensures i == j
  {
  }

  lemma LoadPreservesValid(l: Loader, parses: string -> bool, url: string, completion: Option<Completion>)
    requires Valid(l)
    ensures Valid(Load(l, parses, url, completion).0)
  {
    var l' := Load(l, parses, url, completion).0;
    if parses(url) && url !in l.cache && url in l.loading {
      var id := l.loading[url];
      assert forall h :: h in l'.ops[id].handlers ==> h in l.ops[id].handlers || h == Handler(url, completion);
    }
  }

  lemma CancelPreservesValid(l: Loader, parses: string -> bool, url: string)
    requires Valid(l)
    ensures Valid(CancelLoad(l, parses, url))
  {
  }

  lemma EvictPreservesValid(l: Loader, url: string)
    requires Valid(l)
    ensures Valid(Evict(l, url))
  {
  }

  lemma DeliverPreservesValid(l: Loader, id: nat, data: Option<Bytes>, decode: Bytes -> Option<Image>)
    requires Valid(l) && id in l.ops && !l.ops[id].delivered
    ensures Valid(Deliver(l, id, data, decode).0)
  {
    var op := l.ops[id];
    var image := SelectResult(op.cancelled, data, decode);
    var l' := Deliver(l, id, data, decode).0;
    if image.Some? && op.handlers != [] {
      assert Live(op);
      assert l.loading[op.url] == id;
      forall u | u in l'.loading
        ensures l'.loading[u] != id
      {
        assert l.ops[l.loading[u]].url == u != op.url;
      }
    }
  }

  /** Loads the URL once for each completion, in order, before any answer arrives. */
  function LoadEach(l: Loader, parses: string -> bool, url: string, completions: seq<Completion>): (r: (Loader, seq<Call>))
    requires Consistent(l)
    ensures Consistent(r.0)
    decreases |completions|
  {
    if completions == [] then (l, [])
    else
      var (l1, c1) := Load(l, parses, url, Some(completions[0]));
      var (l2, c2) := LoadEach(l1, parses, url, completions[1..]);
      (l2, c1 + c2)
  }

  /** The handlers `load` attaches for a list of completions. */
  function HandlersFor(url: string, completions: seq<Completion>): (hs: seq<Handler>)
    ensures |hs| == |completions|
    ensures forall i :: 0 <= i < |hs| ==> hs[i] == Handler(url, Some(completions[i]))
  {
    seq(|completions|, i requires 0 <= i < |completions| => Handler(url, Some(completions[i])))
  }

  /** Each completion called once with the same value, in order. */
  function CallsFor(completions: seq<Completion>, image: Option<Image>): (calls: seq<Call>)
    ensures |calls| == |completions|
    ensures forall i :: 0 <= i < |calls| ==> calls[i] == Call(completions[i], image)
  {
    seq(|completions|, i requires 0 <= i < |completions| => Call(completions[i], image))
  }

  /** The loader with handlers appended to operation `id`. */
  function WithHandlers(l: Loader, id: nat, hs: seq<Handler>): (r: Loader)
    requires id in l.ops
    ensures r.cache == l.cache && r.loading == l.loading && r.nextOp == l.nextOp
    ensures r.ops.Keys == l.ops.Keys && r.ops[id].handlers == l.ops[id].handlers + hs
  {
    l.(ops := l.ops[id := l.ops[id].(handlers := l.ops[id].handlers + hs)])
  }

  /** Appending handlers in two steps is appending them in one. */
  lemma WithHandlersTwice(l: Loader, id: nat, hs1: seq<Handler>, hs2: seq<Handler>)
    requires id in l.ops
    ensures WithHandlers(WithHandlers(l, id, hs1), id, hs2) == WithHandlers(l, id, hs1 + hs2)
  {
    assert l.ops[id].handlers + hs1 + hs2 == l.ops[id].handlers + (hs1 + hs2);
  }

  /** While the URL has an operation, every further load only attaches its handler to it,
      in order, and calls no one. */
  lemma {:induction false} LoadEachAttaches(l: Loader, parses: string -> bool, url: string, completions: seq<Completion>)
    requires Consistent(l) && parses(url) && url !in l.cache && url in l.loading
    ensures LoadEach(l, parses, url, completions) ==
      (WithHandlers(l, l.loading[url], HandlersFor(url, completions)), [])
    decreases |completions|
  {
    var id := l.loading[url];
    if completions == [] {
      assert l.ops[id].handlers + HandlersFor(url, completions) == l.ops[id].handlers;
      assert l.ops[id := l.ops[id]] == l.ops;
    } else {
      var h := Handler(url, Some(completions[0]));
      var first := Load(l, parses, url, Some(completions[0]));
      assert first == (WithHandlers(l, id, [h]), []);
      var l1 := first.0;
      LoadEachAttaches(l1, parses, url, completions[1..]);
      var rest := LoadEach(l1, parses, url, completions[1..]);
      assert LoadEach(l, parses, url, completions) == (rest.0, first.1 + rest.1);
      assert l1.loading[url] == id;
      assert rest == (WithHandlers(l1, id, HandlersFor(url, completions[1..])), []);
      WithHandlersTwice(l, id, [h], HandlersFor(url, completions[1..]));
      assert [h] + HandlersFor(url, completions[1..]) == HandlersFor(url, completions);
      assert rest.0 == WithHandlers(l, id, HandlersFor(url, completions));
      assert first.1 + rest.1 == [];
    }
  }

  /** The handlers of several completions notify exactly those completions, in order. */
  lemma {:induction false} NotifiedHandlersFor(url: string, completions: seq<Completion>, img: Image)
    ensures Notified(HandlersFor(url, completions), Some(img)) == CallsFor(completions, Some(img))
    decreases |completions|
  {
    if completions != [] {
      var hs := HandlersFor(url, completions);
      assert hs[1..] == HandlersFor(url, completions[1..]);
      NotifiedHandlersFor(url, completions[1..], img);
      assert CallsFor(completions, Some(img)) ==
        [Call(completions[0], Some(img))] + CallsFor(completions[1..], Some(img));
    }
  }

  /** N loads of an uncached URL with no operation call no one and register one new
      operation for the URL holding the N handlers in call order. */
  lemma LoadEachCreatesOne(l: Loader, parses: string -> bool, url: string, completions: seq<Completion>)
    requires Consistent(l) && parses(url) && url !in l.cache && url !in l.loading
    requires completions != []
    ensures
      var (l1, calls1) := LoadEach(l, parses, url, completions);
      && calls1 == []
      && l1.cache == l.cache
      && l1.ops == l.ops[l.nextOp := Fresh(url, Handler(url, Some(completions[0]))).(handlers := HandlersFor(url, completions))]
      && l1.loading == l.loading[url := l.nextOp]
  {
    var id := l.nextOp;
    var h := Handler(url, Some(completions[0]));
    var first := Load(l, parses, url, Some(completions[0]));
    var l0 := first.0;
    assert l0.loading == l.loading[url := id] && l0.ops == l.ops[id := Fresh(url, h)];
    assert first.1 == [] && l0.loading[url] == id;
    LoadEachAttaches(l0, parses, url, completions[1..]);
    var rest := LoadEach(l0, parses, url, completions[1..]);
    assert LoadEach(l, parses, url, completions) == (rest.0, first.1 + rest.1);
    assert [h] + HandlersFor(url, completions[1..]) == HandlersFor(url, completions);
    var l1 := WithHandlers(l0, id, HandlersFor(url, completions[1..]));
    assert rest == (l1, []);
    assert first.1 + rest.1 == [];
    assert l1.ops[id] == Fresh(url, h).(handlers := HandlersFor(url, completions));
    assert l1.ops == l.ops[id := Fresh(url, h).(handlers := HandlersFor(url, completions))];
  }

  /** The answer of an operation holding the handlers of N completions for its URL, when
      it decodes to an image: the image is cached, the URL unmapped, and the N completions
      called with it in order. */
  lemma FanOutDelivers(l: Loader, id: nat, url: string, completions: seq<Completion>,
                       data: Bytes, decode: Bytes -> Option<Image>)
    requires id in l.ops && l.ops[id].url == url && Live(l.ops[id])
    requires l.ops[id].handlers == HandlersFor(url, completions) && completions != []
    requires decode(data).Some?
    ensures
      var (l2, calls2) := Deliver(l, id, Some(data), decode);
      && calls2 == CallsFor(completions, decode(data))
      && l2.cache == l.cache[url := decode(data).value]
      && l2.loading == l.loading - {url}
  {
    NotifiedHandlersFor(url, completions, decode(data).value);
  }

  /** Deduplication and fan-out: N loads of an uncached URL with no operation, made before
      the answer arrives, call no one yet and create exactly one operation, holding the N
      handlers in call order; when that operation's answer decodes to an image, the image
      is cached and all N completions are called with it, once each, in call order. */
  lemma DedupFanOut(l: Loader, parses: string -> bool, url: string, completions: seq<Completion>,
                    data: Bytes, decode: Bytes -> Option<Image>)
    requires Valid(l) && parses(url) && url !in l.cache && url !in l.loading
    requires completions != []
    ensures
      var (l1, calls1) := LoadEach(l, parses, url, completions);
      && calls1 == []
      && l1.ops.Keys == l.ops.Keys + {l.nextOp}
      && l1.loading == l.loading[url := l.nextOp]
      && l1.ops[l.nextOp].handlers == HandlersFor(url, completions)
      && Live(l1.ops[l.nextOp])
      && (decode(data).Some? ==>
            var (l2, calls2) := Deliver(l1, l.nextOp, Some(data), decode);
            && calls2 == CallsFor(completions, decode(data))
            && l2.cache == l.cache[url := decode(data).value]
            && url !in l2.loading)
  {
    LoadEachCreatesOne(l, parses, url, completions);
    var l1 := LoadEach(l, parses, url, completions).0;
    var op := Fresh(url, Handler(url, Some(completions[0]))).(handlers := HandlersFor(url, completions));
    assert l1.ops == l.ops[l.nextOp := op];
    assert l1.ops[l.nextOp] == op && Live(op);
    if decode(data).Some? {
      FanOutDelivers(l1, l.nextOp, url, completions, data, decode);
      assert l1.loading - {url} == l.loading;
    }
  }

  /** Cancellation drops pending callers: after cancelLoad, the operation's answer, whatever
      it is, calls no one and leaves the cache as it was. */
  lemma CancelDropsPending(l: Loader, parses: string -> bool, url: string,
                           data: Option<Bytes>, decode: Bytes -> Option<Image>)
    requires Valid(l) && parses(url) && url in l.loading && !l.ops[l.loading[url]].delivered
    ensures
      var id := l.loading[url];
      var l1 := CancelLoad(l, parses, url);
      && id in l1.ops && !l1.ops[id].delivered
      && url !in l1.loading
      && Deliver(l1, id, data, decode).1 == []
      && Deliver(l1, id, data, decode).0.cache == l.cache
  {
  }

  /** A cache hit after a download: once a live operation's answer decodes to an image, a
      later load of its URL answers that image at once and changes nothing. */
  lemma CacheHitAfterSuccess(l: Loader, parses: string -> bool, id: nat, data: Bytes,
                             decode: Bytes -> Option<Image>, completion: Completion)
    requires Valid(l) && id in l.ops && Live(l.ops[id])
    requires parses(l.ops[id].url) && decode(data).Some?
    ensures
      var l1 := Deliver(l, id, Some(data), decode).0;
      Load(l1, parses, l.ops[id].url, Some(completion)) == (l1, [Call(completion, decode(data))])
  {
  }

  /** A download that yields no image (missing or undecodable data) calls no one and leaves
      the URL mapped to the finished operation; a later load of the URL then attaches its
      handler to that finished operation, which is never answered again, so that caller
      is never called. */
  lemma FailedDownloadStrandsLaterCallers(l: Loader, parses: string -> bool, id: nat,
                                          data: Option<Bytes>, decode: Bytes -> Option<Image>,
                                          completion: Completion)
    requires Valid(l) && id in l.ops && Live(l.ops[id]) && parses(l.ops[id].url)
    requires SelectResult(false, data, decode).None?
    ensures
      var url := l.ops[id].url;
      var (l1, calls1) := Deliver(l, id, data, decode);
      var (l2, calls2) := Load(l1, parses, url, Some(completion));
      && calls1 == [] && calls2 == []
      && l1.loading == l.loading && l1.loading[url] == id
      && l2.ops[id].delivered
      && l2.ops[id].handlers == [Handler(url, Some(completion))]
  {
  }

  /** The stranding of FailedDownloadStrandsLaterCallers lasts until the URL is cancelled:
      cancelLoad unmaps the finished operation, so the next load registers a new one, and
      a decodable answer to it reaches the new caller. */
  lemma StrandingEndsAfterCancel(l: Loader, parses: string -> bool, id: nat,
                                 data: Option<Bytes>, bytes: Bytes, decode: Bytes -> Option<Image>,
                                 completion: Completion)
    requires Valid(l) && id in l.ops && Live(l.ops[id]) && parses(l.ops[id].url)
    requires SelectResult(false, data, decode).None?
    requires decode(bytes).Some?
    ensures
      var url := l.ops[id].url;
      var (l1, calls1) := Deliver(l, id, data, decode);
      var l2 := CancelLoad(l1, parses, url);
      var (l3, calls3) := Load(l2, parses, url, Some(completion));
      && calls1 == [] && url !in l2.loading && calls3 == []
      && url in l3.loading && l3.loading[url] != id
      && l3.loading[url] in l3.ops && !l3.ops[l3.loading[url]].delivered
      && Deliver(l3, l3.loading[url], Some(bytes), decode).1 == [Call(completion, decode(bytes))]
  {
    var url := l.ops[id].url;
    assert l.loading[url] == id;
    var (l1, calls1) := Deliver(l, id, data, decode);
    var l2 := CancelLoad(l1, parses, url);
    assert url !in l2.cache;
    var (l3, calls3) := Load(l2, parses, url, Some(completion));
    var nid := l3.loading[url];
    assert l3.ops[nid] == Fresh(url, Handler(url, Some(completion)));
    assert Notified([Handler(url, Some(completion))], decode(bytes)) == [Call(completion, decode(bytes))];
  }
}
