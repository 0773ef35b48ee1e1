/** The paging logic of the reviews screen (ReviewsViewModel): requesting a page, handling
    the page's arrival, pull-to-refresh, expanding a review, and the scroll trigger.
    Every operation is a pure step: it returns the new view model, the snapshots it hands
    to the state subscriber (onStateChange), and the offset of the page it asks the
    reviews provider for, if any. */
module ReviewsViewModel {
  import opened Wrappers
  import opened ReviewModel
  import opened ReviewCell
  import opened TableCells
  import opened ViewModelState

  /** How many screen heights before the end of the content the next page is requested. */
  const ScreensToLoadNextPage: real := 2.5

  /** What the provider's completion delivers once decoded: a page of reviews and the total
      number of reviews, or a failure (transport error or undecodable payload). */
  datatype PageResult = Loaded(reviews: seq<Review>, count: int) | Failed

  /** The view model: its state, and a counter standing for the fresh UUIDs it gives to the
      rows it builds. */
  datatype ViewModel = ViewModel(state: State, nextId: nat)

  /** The effect of one operation: the new view model, the states published to the
      subscriber in order, and the offset of the page requested from the provider. */
  datatype Output = Output(vm: ViewModel, published: seq<State>, fetch: Option<int>)

  /** A view model built with the default state. */
  function Start(): (vm: ViewModel)
    ensures vm.state == Initial()
  {
    ViewModel(Initial(), 0)
  }

  /** An operation that changes nothing, publishes nothing and requests nothing. */
  function Unchanged(vm: ViewModel): (out: Output)
  {
    Output(vm, [], None)
  }

  /** getReviews: if the gate is open, close it, append a loader row, publish, and ask the
      provider for the page at the current offset; otherwise do nothing. */
  function GetReviews(vm: ViewModel): (out: Output)
    ensures !vm.state.shouldLoad ==> out == Unchanged(vm)
    ensures vm.state.shouldLoad ==>
      && out.vm.state == vm.state.(items := vm.state.items + [LoaderItem(vm.nextId)], shouldLoad := false)
      && out.vm.nextId > vm.nextId
      && out.fetch == Some(vm.state.offset)
      && out.published == [out.vm.state]
  {
    if !vm.state.shouldLoad then Unchanged(vm)
    else
      var s := vm.state.(shouldLoad := false, items := vm.state.items + [LoaderItem(vm.nextId)]);
      Output(ViewModel(s, vm.nextId + 1), [s], Some(vm.state.offset))
  }

  /** The review rows built for a decoded page, one per review in decoded order, with
      consecutive fresh identities starting at `firstId`. */
  function ReviewRows(firstId: nat, reviews: seq<Review>): (rows: seq<Item>)
    ensures |rows| == |reviews|
    ensures forall i :: 0 <= i < |rows| ==>
      rows[i].ReviewItem? && rows[i].config == MakeConfig(firstId + i, reviews[i])
  {
    seq(|reviews|, i requires 0 <= i < |reviews| => ReviewItem(MakeConfig(firstId + i, reviews[i])))
  }

  /** The state after a page arrived (gotReviews on success), given the rows `kept` once
      the loader row was dropped. */
  function PageArrived(st: State, kept: seq<Item>, firstId: nat, reviews: seq<Review>, count: int): (s: State)
    ensures s.limit == st.limit && s.isRefreshing == st.isRefreshing
    ensures s.offset == st.offset + st.limit
    ensures s.shouldLoad <==> s.offset < count
    ensures |s.items| == |kept| + |reviews| + (if s.shouldLoad then 0 else 1)
    ensures s.items[..|kept|] == kept
    ensures forall i :: |kept| <= i < |s.items| ==> Id(s.items[i]) == firstId + (i - |kept|)
    ensures forall i :: 0 <= i < |reviews| ==>
      s.items[|kept| + i].ReviewItem? && s.items[|kept| + i].config == MakeConfig(firstId + i, reviews[i])
    ensures !s.shouldLoad ==> s.items[|s.items| - 1] == FooterItem(firstId + |reviews|, count)
  {
    var offset := st.offset + st.limit;
    var more := offset < count;
    var rows := ReviewRows(firstId, reviews);
    var footer := if more then [] else [FooterItem(firstId + |reviews|, count)];
    var items := kept + rows + footer;
    assert items[..|kept|] == kept;
    assert forall i :: 0 <= i < |reviews| ==> items[|kept| + i] == rows[i];
    st.(items := items, offset := offset, shouldLoad := more)
  }

  /** The provider's completion: drop the last row (the loader), then handle the result
      (gotReviews). On a page, append its rows, advance the offset by the page size,
      reopen the gate only while the offset is below the total count, and append the
      footer once it is not. On a failure, reopen the gate and add nothing. Publishes the
      new state. Dropping the last row of an empty list traps, which is `None`. */
  function Complete(vm: ViewModel, result: PageResult): (r: Option<Output>)
    ensures r.None? <==> vm.state.items == []
    ensures r.Some? ==>
      && r.value.fetch == None
      && r.value.published == [r.value.vm.state]
      && r.value.vm.nextId >= vm.nextId
      && r.value.vm.state.limit == vm.state.limit
      && r.value.vm.state.isRefreshing == vm.state.isRefreshing
    ensures r.Some? ==>
      var kept := vm.state.items[..|vm.state.items| - 1];
      var s := r.value.vm.state;
      && |kept| <= |s.items| && s.items[..|kept|] == kept
      && (forall i :: |kept| <= i < |s.items| ==>
            Id(s.items[i]) == vm.nextId + (i - |kept|) < r.value.vm.nextId)
    ensures r.Some? && result.Failed? ==>
      var s := r.value.vm.state;
      && s.items == vm.state.items[..|vm.state.items| - 1]
      && s.shouldLoad && s.offset == vm.state.offset
    ensures r.Some? && result.Loaded? ==>
      var kept := vm.state.items[..|vm.state.items| - 1];
      var s := r.value.vm.state;
      && s.offset == vm.state.offset + vm.state.limit
      && (s.shouldLoad <==> s.offset < result.count)
      && |s.items| == |kept| + |result.reviews| + (if s.shouldLoad then 0 else 1)
      && (forall i :: 0 <= i < |result.reviews| ==>
            s.items[|kept| + i].ReviewItem? &&
            s.items[|kept| + i].config == MakeConfig(vm.nextId + i, result.reviews[i]))
      && (!s.shouldLoad ==> s.items[|s.items| - 1].FooterItem? &&
                            s.items[|s.items| - 1].reviewCount == result.count)
  {
    var items := vm.state.items;
    if items == [] then None
    else
      var kept := items[..|items| - 1];
      match result
      case Failed =>
        var s := vm.state.(items := kept, shouldLoad := true);
        Some(Output(ViewModel(s, vm.nextId), [s], None))
      case Loaded(reviews, count) =>
        var s := PageArrived(vm.state, kept, vm.nextId, reviews, count);
        Some(Output(ViewModel(s, vm.nextId + |reviews| + 1), [s], None))
  }

  /** resetReviews (pull-to-refresh): clear the rows, rewind the offset, open the gate and
      request the first page. The gate is bypassed, so a page request already pending is
      not waited for. */
  function ResetReviews(vm: ViewModel): (out: Output)
    ensures |out.vm.state.items| == 1 && out.vm.state.items[0].LoaderItem?
    ensures out.vm.state.offset == 0 && !out.vm.state.shouldLoad
    ensures out.vm.state.limit == vm.state.limit
    ensures out.vm.state.isRefreshing == vm.state.isRefreshing
    ensures out.fetch == Some(0) && out.published == [out.vm.state]
    ensures out.vm.nextId > vm.nextId
  {
    var s := vm.state.(items := [], offset := 0, shouldLoad := true);
    GetReviews(ViewModel(s, vm.nextId))
  }

  /** Whether a row is the review row with the given identity. */
  predicate IsReviewWithId(item: Item, id: nat)
  {
    item.ReviewItem? && item.config.id == id
  }

  /** The index of the first review row with the given identity, if there is one. */
  function FirstReviewIndex(items: seq<Item>, id: nat): (r: Option<nat>)
    ensures r.None? ==> forall j :: 0 <= j < |items| ==> !IsReviewWithId(items[j], id)
    ensures r.Some? ==>
      && r.value < |items|
      && IsReviewWithId(items[r.value], id)
      && forall j :: 0 <= j < r.value ==> !IsReviewWithId(items[j], id)
  {
    if items == [] then None
    else if IsReviewWithId(items[0], id) then Some(0)
    else
      match FirstReviewIndex(items[1..], id)
      case None => None
      case Some(j) => Some(j + 1)
  }

  /** showMoreReview: lift the line limit of the first review row with the given identity,
      in place, and publish; do nothing when there is no such row. */
  function ShowMoreReview(vm: ViewModel, id: nat): (out: Output)
    ensures out.fetch == None && out.vm.nextId == vm.nextId
    ensures out.vm.state == vm.state.(items := out.vm.state.items)
    ensures |out.vm.state.items| == |vm.state.items|
    ensures (forall j :: 0 <= j < |vm.state.items| ==> !IsReviewWithId(vm.state.items[j], id)) ==>
      out == Unchanged(vm)
    ensures forall i ::
        (0 <= i < |vm.state.items| && IsReviewWithId(vm.state.items[i], id) &&
         forall j :: 0 <= j < i ==> !IsReviewWithId(vm.state.items[j], id)) ==>
      && out.published == [out.vm.state]
      && out.vm.state.items[i] == ReviewItem(Expanded(vm.state.items[i].config))
      && (forall j :: 0 <= j < |vm.state.items| && j != i ==> out.vm.state.items[j] == vm.state.items[j])
  {
    match FirstReviewIndex(vm.state.items, id)
    case None => Unchanged(vm)
    case Some(i) =>
      var items := vm.state.items;
      var s := vm.state.(items := items[i := ReviewItem(Expanded(items[i].config))]);
      Output(ViewModel(s, vm.nextId), [s], None)
  }

  /** shouldLoadNextPage: the distance left between the bottom of the viewport at the
      target offset and the end of the content is at most 2.5 viewport heights; that is,
      the target offset has reached 3.5 viewport heights above the end of the content. */
  predicate ShouldLoadNextPage(viewHeight: real, contentHeight: real, targetOffsetY: real)
    ensures ShouldLoadNextPage(viewHeight, contentHeight, targetOffsetY) <==>
      targetOffsetY >= contentHeight - 3.5 * viewHeight
  {
    var triggerDistance := viewHeight * ScreensToLoadNextPage;
    var remainingDistance := contentHeight - viewHeight - targetOffsetY;
    remainingDistance <= triggerDistance
  }

  /** The trigger fires at the threshold itself, and scrolling further down never
      switches it off. */
  lemma NearEndTrigger(viewHeight: real, contentHeight: real, targetOffsetY: real, laterOffsetY: real)
    ensures ShouldLoadNextPage(viewHeight, contentHeight, contentHeight - 3.5 * viewHeight)
    ensures ShouldLoadNextPage(viewHeight, contentHeight, targetOffsetY) && targetOffsetY <= laterOffsetY ==>
      ShouldLoadNextPage(viewHeight, contentHeight, laterOffsetY)
  {
  }

  /** scrollViewWillEndDragging: request the next page when the trigger fires. */
  function ScrollEnded(vm: ViewModel, viewHeight: real, contentHeight: real, targetOffsetY: real): (out: Output)
    ensures ShouldLoadNextPage(viewHeight, contentHeight, targetOffsetY) ==> out == GetReviews(vm)
    ensures !ShouldLoadNextPage(viewHeight, contentHeight, targetOffsetY) ==> out == Unchanged(vm)
  {
    if ShouldLoadNextPage(viewHeight, contentHeight, targetOffsetY) then GetReviews(vm) else Unchanged(vm)
  }
}
