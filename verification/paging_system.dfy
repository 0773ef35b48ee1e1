/** The reviews screen as an event system: the view model together with the number of
    provider completions still to run. Events are the screen appearing, the end of a
    drag, pull-to-refresh, a provider completion, and a tap on "show more". The module
    states the invariant that keeps loader and footer rows in place, proves that every
    event except a refresh during a pending request preserves it, and exhibits what a
    refresh during a pending request can do. */
module PagingSystem {
  import opened Wrappers
  import opened ReviewModel
  import opened ReviewCell
  import opened TableCells
  import opened ViewModelState
  import opened ReviewsViewModel

  /** The inputs the view model reacts to. */
  datatype Event =
    | Appear
    | DragEnded(viewHeight: real, contentHeight: real, targetOffsetY: real)
    | Refresh
    | Arrive(result: PageResult)
    | ShowMoreTapped(id: nat)

  /** The view model and how many provider completions are still to run. */
  datatype Sys = Sys(vm: ViewModel, pending: nat)

  /** A freshly created screen. */
  function Init(): (s: Sys)
  {
    Sys(Start(), 0)
  }

  /** A completion can only run while one is outstanding. */
  predicate Enabled(s: Sys, e: Event)
  {
    e.Arrive? ==> s.pending > 0
  }

  /** Applies an operation's output, counting the page request it issues. */
  function Issue(s: Sys, out: Output): (r: Sys)
  {
    Sys(out.vm, s.pending + (if out.fetch.Some? then 1 else 0))
  }

  /** One event; `None` when the completion traps on an empty row list. */
  function Step(s: Sys, e: Event): (r: Option<Sys>)
    requires Enabled(s, e)
    ensures r.None? <==> e.Arrive? && s.vm.state.items == []
    ensures r.Some? ==> r.value.vm.state.limit == s.vm.state.limit
    ensures r.Some? ==> r.value.vm.state.isRefreshing == s.vm.state.isRefreshing
  {
    match e
    case Appear => Some(Issue(s, GetReviews(s.vm)))
    case DragEnded(v, c, t) => Some(Issue(s, ScrollEnded(s.vm, v, c, t)))
    case Refresh => Some(Issue(s, ResetReviews(s.vm)))
    case ShowMoreTapped(id) => Some(Issue(s, ShowMoreReview(s.vm, id)))
    case Arrive(res) =>
      match Complete(s.vm, res)
      case None => None
      case Some(out) => Some(Sys(out.vm, s.pending - 1))
  }

  /** The screen invariant: at most one page request outstanding; identities unique and
      below the counter; only the last row may be a loader or a footer; the last row is
      a loader exactly while a request is outstanding, and a footer exactly when nothing
      is outstanding and the gate is closed; the page size is the initial one and the
      offset is a whole number of pages. */
  predicate Good(s: Sys)
  {
    var st := s.vm.state;
    var items := st.items;
    && st.limit == InitialLimit && st.offset >= 0 && st.offset % InitialLimit == 0
    && s.pending <= 1
    && UniqueIds(items)
    && (forall i :: 0 <= i < |items| ==> Id(items[i]) < s.vm.nextId)
    && (forall i :: 0 <= i < |items| - 1 ==> items[i].ReviewItem?)
    && (s.pending == 1 <==> items != [] && items[|items| - 1].LoaderItem?)
    && (s.pending == 1 ==> !st.shouldLoad)
    && (items != [] && items[|items| - 1].FooterItem? <==> s.pending == 0 && !st.shouldLoad)
  }

  lemma InitGood()
    ensures Good(Init())
  {
  }

  /** A page request (from appearing or from the scroll trigger) keeps the invariant. */
  lemma GetReviewsPreservesGood(s: Sys)
    requires Good(s)
    ensures Good(Issue(s, GetReviews(s.vm)))
  {
    var items := s.vm.state.items;
    if s.vm.state.shouldLoad {
      var s' := Issue(s, GetReviews(s.vm));
      var items' := s'.vm.state.items;
      assert items' == items + [LoaderItem(s.vm.nextId)];
      assert forall i :: 0 <= i < |items| ==> items'[i] == items[i];
      if items != [] {
        assert !items[|items| - 1].LoaderItem? && !items[|items| - 1].FooterItem?;
      }
      assert forall i :: 0 <= i < |items'| - 1 ==> items'[i].ReviewItem?;
    }
  }

  /** Rows with consecutive fresh identities appended to rows with unique identities below
      the first fresh one leave all identities unique. */
  lemma AppendFreshKeepsUnique(kept: seq<Item>, items: seq<Item>, base: nat)
    requires |kept| <= |items| && items[..|kept|] == kept
    requires UniqueIds(kept)
    requires forall i :: 0 <= i < |kept| ==> Id(kept[i]) < base
    requires forall i :: |kept| <= i < |items| ==> Id(items[i]) == base + (i - |kept|)
    ensures UniqueIds(items)
  {
    forall i, j | 0 <= i < j < |items|
      ensures Id(items[i]) != Id(items[j])
    {
      if j < |kept| {
        assert items[i] == kept[i] && items[j] == kept[j];
      } else if i < |kept| {
        assert items[i] == kept[i];
      }
    }
  }

  /** A completion while a request is outstanding never traps and keeps the invariant. */
  lemma CompletePreservesGood(s: Sys, result: PageResult)
    requires Good(s) && s.pending > 0
    ensures Step(s, Arrive(result)).Some?
    ensures Good(Step(s, Arrive(result)).value)
  {
    match result
    case Failed => CompleteFailedGood(s);
    case Loaded(reviews, count) => CompleteLoadedGood(s, reviews, count);
  }

  /** A failed page removes the loader row and keeps the invariant. */
  lemma CompleteFailedGood(s: Sys)
    requires Good(s) && s.pending > 0
    ensures Step(s, Arrive(Failed)).Some?
    ensures Good(Step(s, Arrive(Failed)).value)
  {
    var items := s.vm.state.items;
    var kept := items[..|items| - 1];
    var s' := Step(s, Arrive(Failed)).value;
    assert s'.vm.state.items == kept;
    assert forall i :: 0 <= i < |kept| ==> kept[i] == items[i];
  }

  /** An arrived page replaces the loader row with fresh rows and keeps the invariant. */
  lemma CompleteLoadedGood(s: Sys, reviews: seq<Review>, count: int)
    requires Good(s) && s.pending > 0
    ensures Step(s, Arrive(Loaded(reviews, count))).Some?
    ensures Good(Step(s, Arrive(Loaded(reviews, count))).value)
  {
    var items := s.vm.state.items;
    var kept := items[..|items| - 1];
    var s' := Step(s, Arrive(Loaded(reviews, count))).value;
    var items' := s'.vm.state.items;
    assert UniqueIds(kept) by {
      assert forall i :: 0 <= i < |kept| ==> kept[i] == items[i];
    }
    AppendFreshKeepsUnique(kept, items', s.vm.nextId);
    CompleteLoadedShape(s, reviews, count);
  }

  /** After a page arrives, every row but a closing footer is a review row. */
  lemma CompleteLoadedShape(s: Sys, reviews: seq<Review>, count: int)
    requires Good(s) && s.pending > 0
    ensures
      var s' := Step(s, Arrive(Loaded(reviews, count))).value;
      var items' := s'.vm.state.items;
      && (forall i :: 0 <= i < |items'| - 1 ==> items'[i].ReviewItem?)
      && (items' != [] && !s'.vm.state.shouldLoad ==> items'[|items'| - 1].FooterItem?)
      && (s'.vm.state.shouldLoad ==> forall i :: 0 <= i < |items'| ==> items'[i].ReviewItem?)
  {
    var items := s.vm.state.items;
    var kept := items[..|items| - 1];
    var s' := Step(s, Arrive(Loaded(reviews, count))).value;
    var items' := s'.vm.state.items;
    var n := |reviews|;
    forall i | 0 <= i < |kept| + n
      ensures items'[i].ReviewItem?
    {
      if i < |kept| {
        assert items'[i] == kept[i] == items[i];
      } else {
        assert items'[|kept| + (i - |kept|)].ReviewItem?;
      }
    }
  }

  /** Expanding a review keeps the invariant. */
  lemma ShowMorePreservesGood(s: Sys, id: nat)
    requires Good(s)
    ensures Good(Issue(s, ShowMoreReview(s.vm, id)))
  {
    var items := s.vm.state.items;
    match FirstReviewIndex(items, id)
    case None =>
    case Some(i) =>
      ExpandRowKeepsGood(s, i);
      assert Issue(s, ShowMoreReview(s.vm, id)) == WithRowExpanded(s, i);
  }

  /** The screen with review row `i` expanded in place and nothing else changed. */
  function WithRowExpanded(s: Sys, i: nat): (r: Sys)
    requires i < |s.vm.state.items| && s.vm.state.items[i].ReviewItem?
  {
    var items := s.vm.state.items;
    s.(vm := s.vm.(state := s.vm.state.(items := items[i := ReviewItem(Expanded(items[i].config))])))
  }

  /** Expanding one review row in place keeps every identity and every row kind, so it
      keeps the invariant. */
  lemma ExpandRowKeepsGood(s: Sys, i: nat)
    requires Good(s) && i < |s.vm.state.items| && s.vm.state.items[i].ReviewItem?
    ensures Good(WithRowExpanded(s, i))
  {
    var items := s.vm.state.items;
    var items' := WithRowExpanded(s, i).vm.state.items;
    assert forall j :: 0 <= j < |items| ==>
      Id(items'[j]) == Id(items[j]) && (items'[j].ReviewItem? <==> items[j].ReviewItem?);
  }

  /** A refresh while nothing is outstanding keeps the invariant. */
  lemma RefreshWhenIdlePreservesGood(s: Sys)
    requires Good(s) && s.pending == 0
    ensures Good(Issue(s, ResetReviews(s.vm)))
  {
  }

  /** Every enabled event keeps the invariant, except a refresh while a request is
      outstanding; in particular a completion never finds the list empty. */
  lemma StepPreservesGood(s: Sys, e: Event)
    requires Good(s) && Enabled(s, e)
    requires e.Refresh? ==> s.pending == 0
    ensures Step(s, e).Some? && Good(Step(s, e).value)
  {
    match e
    case Appear => GetReviewsPreservesGood(s);
    case DragEnded(v, c, t) => GetReviewsPreservesGood(s);
    case Refresh => RefreshWhenIdlePreservesGood(s);
    case ShowMoreTapped(id) => ShowMorePreservesGood(s, id);
    case Arrive(res) => CompletePreservesGood(s, res);
  }

  /** The gate: while a request is outstanding, neither appearing nor the scroll trigger
      issues another request or changes anything. */
  lemma GateHoldsWhilePending(s: Sys, v: real, c: real, t: real)
    requires Good(s) && s.pending == 1
    ensures Step(s, Appear) == Some(s)
    ensures Step(s, DragEnded(v, c, t)) == Some(s)
  {
  }

  /** Loader and footer rows never occur together, and each is the last row when present. */
  lemma LoaderAndFooterExclusive(s: Sys)
    requires Good(s)
    ensures forall i :: 0 <= i < |s.vm.state.items| ==>
      (s.vm.state.items[i].LoaderItem? || s.vm.state.items[i].FooterItem?) ==>
      i == |s.vm.state.items| - 1
  {
  }

  /** Tapping the show-more button of the cell showing row i expands exactly that row,
      after which that row offers no show-more button, whatever its text measures. */
  lemma TapExpandsItsOwnRow(vm: ViewModel, i: nat, lineHeight: real, fullTextHeight: real)
    requires UniqueIds(vm.state.items)
    requires i < |vm.state.items| && vm.state.items[i].ReviewItem?
    ensures
      var c := vm.state.items[i].config;
      var after := ShowMoreReview(vm, ReviewCell.TapShowMore(Some(c)).value).vm.state.items;
      && after[i] == ReviewItem(Expanded(c))
      && !ShowMoreShown(after[i].config, lineHeight, fullTextHeight)
      && forall j :: 0 <= j < |after| && j != i ==> after[j] == vm.state.items[j]
  {
    var items := vm.state.items;
    var id := items[i].config.id;
    assert forall j :: 0 <= j < i ==> !IsReviewWithId(items[j], id) by {
      forall j | 0 <= j < i
        ensures !IsReviewWithId(items[j], id)
      {
        assert Id(items[j]) != Id(items[i]);
      }
    }
    ShowMoreHiddenOnceExpanded(items[i].config, lineHeight, fullTextHeight);
  }

  /** The first review row with an identity is found again after rows other than it
      and the rows before it changed. */
  lemma FirstReviewIndexFinds(items: seq<Item>, id: nat, i: nat)
    requires i < |items| && IsReviewWithId(items[i], id)
    requires forall j :: 0 <= j < i ==> !IsReviewWithId(items[j], id)
    ensures FirstReviewIndex(items, id) == Some(i)
  {
  }

  /** Expanding the same review twice leaves the state expanding it once leaves. */
  lemma ShowMoreIdempotent(vm: ViewModel, id: nat)
    ensures ShowMoreReview(ShowMoreReview(vm, id).vm, id).vm == ShowMoreReview(vm, id).vm
  {
    var items := vm.state.items;
    var once := ShowMoreReview(vm, id).vm;
    match FirstReviewIndex(items, id)
    case None =>
    case Some(i) =>
      var items1 := once.state.items;
      assert forall j :: 0 <= j < i ==> items1[j] == items[j];
      FirstReviewIndexFinds(items1, id, i);
      var twice := ShowMoreReview(once, id).vm;
      assert twice.state.items == items1;
  }

  /** Three pages of a 12-review list (5, 5 and 2 reviews), each requested by the scroll
      trigger: the offset advances by the page size, not by the rows received, so after
      the last page it is 15; the gate is closed, nothing is outstanding, and the 12
      review rows are followed by the footer for 12. */
  lemma TwelveReviewScenario(p1: seq<Review>, p2: seq<Review>, p3: seq<Review>)
    requires |p1| == 5 && |p2| == 5 && |p3| == 2
    ensures
      var s1 := Step(Init(), Appear).value;
      s1.pending == 1 &&
      var s2 := Step(s1, Arrive(Loaded(p1, 12)));
      s2.Some? && s2.value.vm.state.offset == 5 && s2.value.vm.state.shouldLoad &&
      |s2.value.vm.state.items| == 5 &&
      var s3 := Step(s2.value, DragEnded(100.0, 1000.0, 700.0)).value;
      s3.pending == 1 &&
      var s4 := Step(s3, Arrive(Loaded(p2, 12)));
      s4.Some? && s4.value.vm.state.offset == 10 && s4.value.vm.state.shouldLoad &&
      |s4.value.vm.state.items| == 10 &&
      var s5 := Step(s4.value, DragEnded(100.0, 2000.0, 1700.0)).value;
      s5.pending == 1 &&
      var s6 := Step(s5, Arrive(Loaded(p3, 12)));
      && s6.Some?
      && s6.value.vm.state.offset == 15 && !s6.value.vm.state.shouldLoad && s6.value.pending == 0
      && |s6.value.vm.state.items| == 13
      && s6.value.vm.state.items[12].FooterItem?
      && s6.value.vm.state.items[12].reviewCount == 12
      && forall i :: 0 <= i < 12 ==>
           s6.value.vm.state.items[i].ReviewItem? &&
           s6.value.vm.state.items[i].config == MakeConfig(Id(s6.value.vm.state.items[i]), (p1 + p2 + p3)[i])
  {
    var s1 := Step(Init(), Appear).value;
    assert s1.vm.state.items == [LoaderItem(0)];
    var s2 := Step(s1, Arrive(Loaded(p1, 12))).value;
    assert ShouldLoadNextPage(100.0, 1000.0, 700.0);
    var s3 := Step(s2, DragEnded(100.0, 1000.0, 700.0)).value;
    assert |s3.vm.state.items| == 6;
    var s4 := Step(s3, Arrive(Loaded(p2, 12))).value;
    assert ShouldLoadNextPage(100.0, 2000.0, 1700.0);
    var s5 := Step(s4, DragEnded(100.0, 2000.0, 1700.0)).value;
    assert |s5.vm.state.items| == 11;
    var s6 := Step(s5, Arrive(Loaded(p3, 12))).value;
    var all := p1 + p2 + p3;
    forall i | 0 <= i < 12
      ensures s6.vm.state.items[i].ReviewItem?
      ensures s6.vm.state.items[i].config == MakeConfig(Id(s6.vm.state.items[i]), all[i])
    {
      if i < 5 {
        assert s6.vm.state.items[i] == s5.vm.state.items[i] == s4.vm.state.items[i] == s3.vm.state.items[i] == s2.vm.state.items[i];
        assert all[i] == p1[i];
      } else if i < 10 {
        assert s6.vm.state.items[i] == s5.vm.state.items[i] == s4.vm.state.items[i];
        assert all[i] == p2[i - 5];
      } else {
        assert all[i] == p3[i - 10];
      }
    }
  }

  /** A refresh while a request is outstanding bypasses the gate: the first completion to
      run takes the refresh's loader row, and if that request failed, the second
      completion drops the last row of an empty list, which traps. */
  lemma RefreshWhilePendingCanTrap(result: PageResult)
    ensures
      var s2 := Step(Step(Init(), Appear).value, Refresh).value;
      s2.pending == 2 &&
      var s3 := Step(s2, Arrive(Failed));
      && s3.Some? && s3.value.vm.state.items == [] && s3.value.pending == 1
      && Step(s3.value, Arrive(result)).None?
  {
    var s1 := Step(Init(), Appear).value;
    assert s1.pending == 1;
    var s2 := Step(s1, Refresh).value;
    assert s2.pending == 2 && |s2.vm.state.items| == 1;
    var s3 := Step(s2, Arrive(Failed)).value;
    assert s3.vm.state.items == s2.vm.state.items[..0] == [];
  }

  /** A refresh while a request is outstanding: the stale completion takes the refresh's
      loader row and appends its page, and the refresh's own completion then removes the
      last review of that page instead of a loader row. */
  lemma RefreshWhilePendingDropsReview(p1: seq<Review>, p2: seq<Review>)
    requires |p1| == 5 && |p2| == 5
    ensures
      var s2 := Step(Step(Init(), Appear).value, Refresh).value;
      s2.pending == 2 &&
      var s3 := Step(s2, Arrive(Loaded(p1, 12)));
      s3.Some? && |s3.value.vm.state.items| == 5 && s3.value.vm.state.offset == 5 &&
      var s4 := Step(s3.value, Arrive(Loaded(p2, 12)));
      && s4.Some?
      && |s4.value.vm.state.items| == 9 && s4.value.vm.state.offset == 10
      && s4.value.vm.state.items[4].ReviewItem?
      && s4.value.vm.state.items[4].config.reviewText == p2[0].text
  {
    var s1 := Step(Init(), Appear).value;
    var s2 := Step(s1, Refresh).value;
    assert |s2.vm.state.items| == 1;
    var s3 := Step(s2, Arrive(Loaded(p1, 12))).value;
    assert |s3.vm.state.items| == 5;
  }
}
