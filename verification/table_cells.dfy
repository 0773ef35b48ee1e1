/** The rows of the reviews table. ReviewsViewModelState stores rows type-erased behind a cell
    configuration protocol; here they form one closed sum type. */
module TableCells {
  import opened ReviewCell

  /** A table row: a review, the loading spinner row, or the footer with the count. */
  datatype Item =
    | ReviewItem(config: ReviewConfig)
    | LoaderItem(id: nat)
    | FooterItem(id: nat, reviewCount: int)

  /** The identity (UUID) every row configuration carries. */
  function Id(item: Item): (id: nat)
  {
    match item
    case ReviewItem(c) => c.id
    case LoaderItem(id) => id
    case FooterItem(id, _) => id
  }

  /** No two rows share an identity. */
  predicate UniqueIds(items: seq<Item>)
  {
    forall i, j :: 0 <= i < j < |items| ==> Id(items[i]) != Id(items[j])
  }

  /** ReviewCellConfig.isEqual(to:): another row is equal exactly when it is a review row
      with the same identity; nothing else about the rows is compared. */
  predicate IsEqual(self: ReviewConfig, item: Item)
    ensures IsEqual(self, item) ==> item.ReviewItem? && Id(item) == self.id
    ensures item.ReviewItem? && Id(item) == self.id ==> IsEqual(self, item)
  {
    item.ReviewItem? && item.config.id == self.id
  }

  /** The values ReviewCellConfig.hash(into:) feeds into the hasher: the identity alone,
      so rows that differ in anything else hash alike. */
  function HashInputs(self: ReviewConfig): (inputs: seq<nat>)
    ensures inputs == [Id(ReviewItem(self))]
  {
    [self.id]
  }

  /** Equality is by identity only: it ignores every other field, never holds for a
      loader or footer row, and is an equivalence on review rows. */
  lemma IsEqualIsIdentity(a: ReviewConfig, b: ReviewConfig, c: ReviewConfig, id: nat, n: int)
    ensures IsEqual(a, ReviewItem(b)) <==> a.id == b.id
    ensures !IsEqual(a, LoaderItem(id)) && !IsEqual(a, FooterItem(id, n))
    ensures IsEqual(a, ReviewItem(a))
    ensures IsEqual(a, ReviewItem(b)) ==> IsEqual(b, ReviewItem(a))
    ensures IsEqual(a, ReviewItem(b)) && IsEqual(b, ReviewItem(c)) ==> IsEqual(a, ReviewItem(c))
  {
  }

  /** Hashing is consistent with equality, and expanding a review keeps both its
      equality and its hash. */
  lemma HashConsistentWithIsEqual(a: ReviewConfig, item: Item)
    ensures IsEqual(a, item) ==> HashInputs(a) == HashInputs(item.config)
    ensures IsEqual(a, ReviewItem(Expanded(a)))
    ensures HashInputs(Expanded(a)) == HashInputs(a)
  {
  }
}
