/** The state the reviews view model keeps and publishes (ReviewsViewModelState). */
module ViewModelState {
  import opened TableCells

  /** Page size the state starts with. */
  const InitialLimit: int := 5

  /** The rows shown, the page size, the offset of the next page, the gate that allows a
      page request, and a refresh flag that the view model never reads or writes. */
  datatype State = State(
    items: seq<Item>,
    limit: int,
    offset: int,
    shouldLoad: bool,
    isRefreshing: bool
  )

  /** The state a view model is created with. */
  function Initial(): (s: State)
    ensures s.items == [] && s.offset == 0
    ensures s.limit == InitialLimit
    ensures s.shouldLoad && !s.isRefreshing
  {
    State([], InitialLimit, 0, true, false)
  }
}
