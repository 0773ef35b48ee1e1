/** The decoded review record delivered by the reviews endpoint (Model/Review.swift).
    JSON decoding itself is not part of this model: a page of reviews arrives already
    decoded, or as a failure. */
module ReviewModel {

  /** One review as the JSON payload describes it. */
  datatype Review = Review(
    avatarUrl: string,
    photos: seq<string>,
    firstName: string,
    lastName: string,
    rating: int,
    text: string,
    created: string
  )
}
