/** The review row configuration (ReviewCellConfig) and the two layout decisions of
    ReviewCellLayout.height that depend on it: whether the "Показать полностью..."
    (show more) button is laid out, and which gap follows the rating image.
    Frame arithmetic and text measurement are not modelled; measured heights are
    parameters. */
module ReviewCell {
  import opened Wrappers
  import opened ReviewModel

  /** Number of text lines a freshly built review row shows. */
  const DefaultMaxLines: int := 3

  /** Gap below the rating image when the review has no photos. */
  const RatingToTextSpacing: real := 6.0
  /** Gap below the rating image when the photo strip follows it. */
  const RatingToPhotosSpacing: real := 10.0
  /** Height of the photo strip (the height of one photo thumbnail). */
  const PhotoHeight: real := 66.0
  /** Gap between the photo strip and the review text. */
  const PhotosToTextSpacing: real := 10.0

  /** A review row. `id` stands for the config's UUID; the attributed strings are kept
      as their plain text, and the rating image as the rating it is rendered from. */
  datatype ReviewConfig = ReviewConfig(
    id: nat,
    avatarUrl: string,
    usernameText: string,
    rating: int,
    photoUrls: seq<string>,
    reviewText: string,
    maxLines: int,
    created: string
  )

  /** Builds the row for a decoded review (makeReviewItem); `id` is a fresh identity. */
  function MakeConfig(id: nat, review: Review): (c: ReviewConfig)
    ensures c.id == id
    ensures c.maxLines == DefaultMaxLines
    ensures c.avatarUrl == review.avatarUrl && c.photoUrls == review.photos
    ensures c.usernameText == review.firstName + " " + review.lastName
    ensures c.reviewText == review.text && c.created == review.created
    ensures c.rating == review.rating
  {
    ReviewConfig(id, review.avatarUrl, review.firstName + " " + review.lastName,
                 review.rating, review.photos, review.text, DefaultMaxLines, review.created)
  }

  /** The row with its line limit lifted (maxLines = 0 means "no limit"). */
  function Expanded(c: ReviewConfig): (e: ReviewConfig)
    ensures e.maxLines == 0
    ensures e.(maxLines := c.maxLines) == c
  {
    c.(maxLines := 0)
  }

  /** Whether the layout shows the show-more button, given the font's line height and the
      height the whole text would take without a line limit. The decision is only taken
      for a non-empty text; otherwise the button stays hidden. */
  predicate ShowMoreShown(c: ReviewConfig, lineHeight: real, fullTextHeight: real)
    ensures c.reviewText == [] || c.maxLines == 0 ==> !ShowMoreShown(c, lineHeight, fullTextHeight)
    ensures ShowMoreShown(c, lineHeight, fullTextHeight) ==> fullTextHeight > lineHeight * (c.maxLines as real)
  {
    && c.reviewText != []
    && c.maxLines != 0
    && fullTextHeight > lineHeight * (c.maxLines as real)
  }

  /** An expanded row never offers the show-more button, whatever the text measures. */
  lemma ShowMoreHiddenOnceExpanded(c: ReviewConfig, lineHeight: real, fullTextHeight: real)
    ensures !ShowMoreShown(Expanded(c), lineHeight, fullTextHeight)
  {
  }

  /** A freshly built row offers the show-more button exactly when its review has text
      that needs more height than the default three lines. */
  lemma FreshRowShowsMoreWhenTextOverflows(id: nat, review: Review, lineHeight: real, fullTextHeight: real)
    ensures ShowMoreShown(MakeConfig(id, review), lineHeight, fullTextHeight) <==>
      review.text != [] && fullTextHeight > lineHeight * (DefaultMaxLines as real)
  {
  }

  /** The id reported to onTapShowMore when the button of a cell is tapped; a cell
      without a config reports nothing. */
  function TapShowMore(cell: Option<ReviewConfig>): (reported: Option<nat>)
    ensures reported.Some? <==> cell.Some?
    ensures cell.Some? ==> reported.value == cell.value.id
  {
    match cell
    case None => None
    case Some(c) => Some(c.id)
  }

  /** Number of items of the cell's photo collection view. */
  function PhotoItemCount(cell: Option<ReviewConfig>): (n: nat)
    ensures cell.None? ==> n == 0
    ensures cell.Some? ==> n == |cell.value.photoUrls|
  {
    match cell
    case None => 0
    case Some(c) => |c.photoUrls|
  }

  /** Whether the layout places a photo strip below the rating: exactly when the cell's
      photo collection view has items. */
  predicate HasPhotoStrip(c: ReviewConfig)
    ensures HasPhotoStrip(c) <==> PhotoItemCount(Some(c)) > 0
  {
    c.photoUrls != []
  }

  /** The gap the layout leaves below the rating image: one of the two spacing constants,
      the wider one exactly when a photo strip follows. */
  function RatingGap(c: ReviewConfig): (gap: real)
    ensures gap == RatingToTextSpacing || gap == RatingToPhotosSpacing
    ensures gap == RatingToPhotosSpacing <==> HasPhotoStrip(c)
  {
    if c.photoUrls == [] then RatingToTextSpacing else RatingToPhotosSpacing
  }

  /** Vertical distance from the bottom of the rating image to the top of the text. */
  function RatingToTextOffset(c: ReviewConfig): (d: real)
    ensures d >= RatingToTextSpacing
    ensures d == RatingToTextSpacing <==> !HasPhotoStrip(c)
  {
    RatingGap(c) + (if HasPhotoStrip(c) then PhotoHeight + PhotosToTextSpacing else 0.0)
  }

  /** The three places that look at the photos agree: the collection view has items
      exactly when the layout places a strip, and that is exactly when the wider gap
      follows the rating. */
  lemma PhotoStripAgreement(c: ReviewConfig)
    ensures PhotoItemCount(Some(c)) > 0 <==> HasPhotoStrip(c)
    ensures HasPhotoStrip(c) <==> RatingGap(c) == RatingToPhotosSpacing
    ensures HasPhotoStrip(c) ==>
      RatingToTextOffset(c) == RatingToPhotosSpacing + PhotoHeight + PhotosToTextSpacing
  {
  }
}
