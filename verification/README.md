# Reviews screen: paging, image loading and footer text

A Dafny model of the logic behind an iOS reviews screen. The model covers:

- **Paging.** `ReviewsViewModel` and its state request pages of reviews from a provider. They append a loader row while a request is outstanding and replace it with the page's review rows, plus a footer row once all reviews are shown. They also handle pull-to-refresh, expanding a review ("Показать полностью..."), and the scroll trigger that requests the next page.
- **Image loading.** `ImageLoader` and `LoadOperation` download images by URL and keep a cache. Concurrent requests for the same URL are deduplicated onto one operation. When that operation's answer decodes to an image, the image reaches every waiting completion; a nil answer reaches none of them.
- **The footer text.** `FooterCellConfig.pluralizeText` puts the review count in front of the Russian word for "review" in the right grammatical form.
- **The review row configuration.** This is `ReviewCellConfig`: its identity-based equality and hash, its show-more tap, and the two layout decisions that depend on it.

Everything is modelled over immutable data, with pure functions except for the prefetch hooks:

- Each view-model operation returns three things: the new state, the states it publishes to the subscriber, and the page request it makes, if any.
- Each image-loader event (`Load`, `CancelLoad`, `Evict`, `Deliver`) returns the new loader and the completion calls it makes.
- `PluralizeText` returns the footer string.
- The prefetch hooks (`Prefetch`) are methods that loop over the rows and their URLs, applying loader events one by one.

The outside world becomes parameters or counters:

- URL parsing is the predicate `parses`.
- Image decoding is the function `decode`.
- The network's answer for an operation is the `Deliver` event.
- The provider's completion is the `Arrive` event.
- The UUIDs given to rows come from a counter (`nextId`).
- The screen's events form a small event system (`PagingSystem`). It counts provider completions still outstanding.

Modules:

| module | file | models |
|---|---|---|
| `Wrappers` | wrappers.dfy | `Option` |
| `ReviewModel` | review.dfy | the decoded `Review` |
| `ReviewCell` | review_cell.dfy | `ReviewCellConfig`, its tap and photo count, two layout decisions |
| `TableCells` | table_cells.dfy | the heterogeneous row list, identity equality and hashing |
| `FooterCell` | footer_cell.dfy | `pluralizeText` and the Russian plural rule |
| `ViewModelState` | view_model_state.dfy | `ReviewsViewModelState` |
| `ReviewsViewModel` | view_model.dfy | getReviews, resetReviews, gotReviews, showMoreReview, the scroll trigger |
| `PagingSystem` | paging_system.dfy | the screen as an event system, its invariant and scenarios |
| `LoadOperation` | load_operation.dfy | one download: result selection and handleResult |
| `ImageLoader` | image_loader.dfy | load, cancelLoad, cache eviction, delivery of a download |
| `ImageLoaderProperties` | image_loader_properties.dfy | the loader invariant, deduplication and fan-out |
| `Prefetch` | prefetch.dfy | the table prefetching hooks |

Behaviour of the code that the model keeps as written:

- **The offset advances by the page size, not by the reviews received.** A 12-review list fetched as pages of 5, 5 and 2 ends with offset 15, although 12 reviews arrived. The footer still appears after the third page, because 15 is not below 12 (`PagingSystem.TwelveReviewScenario`).
- **Stale responses after a refresh are not handled.** A refresh made while a request is outstanding bypasses the gate, so two completions are outstanding and each drops the last row. The first completion removes the refresh's loader row. The second then removes whatever row is last:
  - a review row, which is silently lost (`PagingSystem.RefreshWhilePendingDropsReview`);
  - or, when the list is empty, nothing, because dropping the last row of an empty list traps (`PagingSystem.RefreshWhilePendingCanTrap`).
- **The row list is declared with type-erased wrappers.** The code appends the raw row configurations and casts them back, so the model uses one sum type, `TableCells.Item`.
- **Only review rows define identity equality and a hash.** Footer and loader rows do not, so only the review receiver of `isEqual`/`hash` is modelled.

Two behaviours of the image loader follow from the code as written and are stated as lemmas:

- **A failed download strands later callers.** A download that yields no image calls no one and leaves its URL mapped to the finished operation. Every later `load` of that URL attaches its handler there and is never called back (`ImageLoaderProperties.FailedDownloadStrandsLaterCallers`), until a `cancelLoad` of the URL, such as the one cancel-prefetching makes, unmaps the finished operation. The next `load` then starts a new download, whose image reaches its caller (`ImageLoaderProperties.StrandingEndsAfterCancel`).
- **Cancelling discards the pending callers.** Once a URL is cancelled, its operation's answer, whatever it is, calls none of the callers waiting on it (`ImageLoaderProperties.CancelDropsPending`).

## Model

| member | source | states |
|---|---|---|
| ViewModelState.Initial | Test/Screens/Reviews/ReviewsViewModelState.swift:2-9 | A new state has no rows, page size 5, offset 0, the gate open and no refresh in progress |
| ReviewsViewModel.Start | Test/Screens/Reviews/ReviewsViewModel.swift:15-27 | A view model built with defaults holds the default state |
| ReviewsViewModel.GetReviews | Test/Screens/Reviews/ReviewsViewModel.swift:38-49 | With the gate closed, nothing happens. With it open, the gate closes and exactly one fresh loader row is appended. That state is published once and the page at the current offset is requested |
| ReviewsViewModel.ReviewRows | Test/Screens/Reviews/ReviewsViewModel.swift:68 | One review row per decoded review, in order, each with its own consecutive fresh identity |
| ReviewsViewModel.PageArrived | Test/Screens/Reviews/ReviewsViewModel.swift:68-72 | The earlier rows are kept as a prefix, then the page's rows in order. The offset grows by the page size and the gate reopens exactly while the offset is below the total count. Once it is not, a footer carrying the total is the last row |
| ReviewsViewModel.Complete | Test/Screens/Reviews/ReviewsViewModel.swift:44-80 | The completion traps exactly when the row list is empty. Otherwise it drops the last row and, on a page, behaves as PageArrived. On a failure it reopens the gate and changes nothing else. New rows get fresh identities below the counter. Page size and refresh flag are kept, the state is published once and nothing is requested |
| ReviewsViewModel.ResetReviews | Test/Screens/Reviews/ReviewsViewModel.swift:51-56 | After a refresh the only row is a loader, the offset is 0 and the gate is closed. The first page is requested whatever the gate was before |
| ReviewsViewModel.FirstReviewIndex | Test/Screens/Reviews/ReviewsViewModel.swift:86 | Finds the first review row with the identity, or proves no row has it |
| ReviewsViewModel.ShowMoreReview | Test/Screens/Reviews/ReviewsViewModel.swift:84-92 | With no review row of that identity, nothing changes and nothing is published. Otherwise exactly the first such row gets its line limit lifted, every other row and field is unchanged, and the state is published once |
| ReviewsViewModel.ShouldLoadNextPage | Test/Screens/Reviews/ReviewsViewModel.swift:194-204 | The trigger fires exactly when the target offset is at least the content height minus 3.5 view heights, that is, when at most 2.5 view heights of content remain below the viewport |
| ReviewsViewModel.NearEndTrigger | Test/Screens/Reviews/ReviewsViewModel.swift:194-204 | The trigger fires at the boundary offset itself, and once it fires at an offset it fires at every larger one, so scrolling further never switches it off |
| ReviewsViewModel.ScrollEnded | Test/Screens/Reviews/ReviewsViewModel.swift:184-192 | The end of a drag requests the next page exactly when the trigger fires, and does nothing otherwise |
| PagingSystem.Step | Test/Screens/Reviews/ReviewsViewModel.swift:38-92 | An event traps exactly when a completion finds no rows. No event changes the page size or the refresh flag |
| PagingSystem.InitGood | Test/Screens/Reviews/ReviewsViewModelState.swift:2-9 | The initial screen satisfies the screen invariant |
| PagingSystem.GetReviewsPreservesGood | Test/Screens/Reviews/ReviewsViewModel.swift:38-49 | A page request keeps the invariant: at most one request outstanding, loader last exactly while one is, footer last exactly when done, unique identities |
| PagingSystem.AppendFreshKeepsUnique | Test/Screens/Reviews/ReviewsViewModel.swift:68 | Appending rows with fresh consecutive identities keeps identities unique |
| PagingSystem.CompletePreservesGood | Test/Screens/Reviews/ReviewsViewModel.swift:44-80 | While a request is outstanding, its completion never traps and keeps the invariant |
| PagingSystem.CompleteFailedGood | Test/Screens/Reviews/ReviewsViewModel.swift:44-47 | A failed completion while a request is outstanding removes the loader row, never traps and keeps the invariant |
| PagingSystem.CompleteLoadedGood | Test/Screens/Reviews/ReviewsViewModel.swift:44-72 | An arrived page while a request is outstanding never traps and keeps the invariant, identities staying unique |
| PagingSystem.CompleteLoadedShape | Test/Screens/Reviews/ReviewsViewModel.swift:68-72 | After a page arrives, every row but a closing footer is a review row. The footer is last exactly when the gate stays closed |
| PagingSystem.ShowMorePreservesGood | Test/Screens/Reviews/ReviewsViewModel.swift:84-92 | Expanding a review keeps the invariant |
| PagingSystem.ExpandRowKeepsGood | Test/Screens/Reviews/ReviewsViewModel.swift:88-90 | Lifting the line limit of one review row in place keeps identities unique and row kinds in place, so the invariant holds |
| PagingSystem.RefreshWhenIdlePreservesGood | Test/Screens/Reviews/ReviewsViewModel.swift:51-56 | A refresh with nothing outstanding keeps the invariant |
| PagingSystem.StepPreservesGood | Test/Screens/Reviews/ReviewsViewModel.swift:38-92 | Every enabled event except a refresh during a pending request keeps the invariant and never traps |
| PagingSystem.GateHoldsWhilePending | Test/Screens/Reviews/ReviewsViewModel.swift:39 | While a request is outstanding, appearing and the scroll trigger change nothing and request nothing |
| PagingSystem.LoaderAndFooterExclusive | Test/Screens/Reviews/ReviewsViewModel.swift:40-41 | A loader or footer row, when present, is the last row, so the two never coexist |
| PagingSystem.TapExpandsItsOwnRow | Test/Screens/Reviews/Cells/ReviewCell.swift:187-190 | Tapping show-more on the cell of row i expands exactly row i. That row then never offers the button again, and every other row is unchanged |
| PagingSystem.FirstReviewIndexFinds | Test/Screens/Reviews/ReviewsViewModel.swift:86 | A review row with the identity and none before it is the one found |
| PagingSystem.ShowMoreIdempotent | Test/Screens/Reviews/ReviewsViewModel.swift:84-92 | Expanding the same review twice gives the state expanding it once gives |
| PagingSystem.TwelveReviewScenario | Test/Screens/Reviews/ReviewsViewModel.swift:38-72 | Pages of 5, 5 and 2 out of 12 leave offsets 5, 10 and then 15. The final rows are the 12 reviews in arrival order, each row built from its own review, then a footer for 12, with the gate closed and nothing outstanding |
| PagingSystem.RefreshWhilePendingCanTrap | Test/Screens/Reviews/ReviewsViewModel.swift:44-56 | Appear, refresh, then a failed completion leaves no rows and one completion outstanding, which traps whatever it brings |
| PagingSystem.RefreshWhilePendingDropsReview | Test/Screens/Reviews/ReviewsViewModel.swift:44-56 | Appear, refresh, then two pages of 5: the second completion drops a review instead of a loader, leaving 9 rows, with the second page's first review at index 4 |
| ReviewCell.MakeConfig | Test/Screens/Reviews/ReviewsViewModel.swift:104-122 | A review row carries the review's avatar, photos, text, rating and date. Its name is first and last name joined by a space, it has a fresh identity, and it starts with a 3-line limit |
| ReviewCell.Expanded | Test/Screens/Reviews/ReviewsViewModel.swift:89 | Expanding sets the line limit to 0 (no limit) and changes nothing else |
| ReviewCell.ShowMoreShown | Test/Screens/Reviews/Cells/ReviewCell.swift:316-322 | The button is never shown for empty text or an unlimited row, and when shown the unlimited text is taller than the limited lines |
| ReviewCell.ShowMoreHiddenOnceExpanded | Test/Screens/Reviews/Cells/ReviewCell.swift:316-322 | An expanded row never lays out the show-more button, whatever its text measures |
| ReviewCell.FreshRowShowsMoreWhenTextOverflows | Test/Screens/Reviews/Cells/ReviewCell.swift:316-322 | A freshly built review row shows the button exactly when its text is non-empty and taller than 3 lines |
| ReviewCell.TapShowMore | Test/Screens/Reviews/Cells/ReviewCell.swift:187-190 | A tap reports the row's own identity, and nothing when the cell has no configuration |
| ReviewCell.PhotoItemCount | Test/Screens/Reviews/Cells/ReviewCell.swift:195-198 | The photo strip has one item per photo URL, and none without a configuration |
| ReviewCell.HasPhotoStrip | Test/Screens/Reviews/Cells/ReviewCell.swift:305-314 | The layout places a photo strip exactly when the collection view has items |
| ReviewCell.RatingGap | Test/Screens/Reviews/Cells/ReviewCell.swift:305-306 | The gap after the rating is one of the two spacings, and the photo spacing exactly when there is a photo strip |
| ReviewCell.RatingToTextOffset | Test/Screens/Reviews/Cells/ReviewCell.swift:305-314 | The text sits at least 6 points below the rating, exactly 6 when there are no photos |
| ReviewCell.PhotoStripAgreement | Test/Screens/Reviews/Cells/ReviewCell.swift:262-314 | The collection view has items exactly when the layout places a photo strip, which is exactly when the 10-point gap follows the rating. With a strip, rating and text are 10 + 66 + 10 points apart |
| TableCells.IsEqual | Test/Screens/Reviews/Cells/ReviewCell.swift:65-69 | A review row equals a row exactly when that row is a review row with the same identity |
| TableCells.HashInputs | Test/Screens/Reviews/Cells/ReviewCell.swift:71-73 | The hasher is fed the row's identity and nothing else |
| TableCells.IsEqualIsIdentity | Test/Screens/Reviews/Cells/ReviewCell.swift:65-69 | Review rows are equal exactly when their identities match. Equality is reflexive, symmetric and transitive, and never holds against a loader or footer row |
| TableCells.HashConsistentWithIsEqual | Test/Screens/Reviews/Cells/ReviewCell.swift:65-73 | Equal review rows feed the hasher the same inputs, and expanding a review keeps its equality and its hash |
| FooterCell.SwiftRem | Test/Screens/Reviews/Cells/FooterCell.swift:48-49 | The remainder takes the sign of the count and is smaller than the divisor in magnitude |
| FooterCell.SwiftRemIsRemainder | Test/Screens/Reviews/Cells/FooterCell.swift:48-49 | The count is the divisor times the quotient truncated toward zero, plus the remainder |
| FooterCell.PluralForm | Test/Screens/Reviews/Cells/FooterCell.swift:47-63 | A negative count always takes the "отзывов" form |
| FooterCell.PluralizeText | Test/Screens/Reviews/Cells/FooterCell.swift:47-63 | The text is the count in decimal, a space and one of the three word forms |
| FooterCell.Digits | Test/Screens/Reviews/Cells/FooterCell.swift:52 | The decimal rendering is a non-empty string of digits |
| FooterCell.DecimalString | Test/Screens/Reviews/Cells/FooterCell.swift:52 | A rendered count contains no space |
| FooterCell.DigitsRoundTrip | Test/Screens/Reviews/Cells/FooterCell.swift:52 | Reading the digits back gives the number |
| FooterCell.DecimalRoundTrip | Test/Screens/Reviews/Cells/FooterCell.swift:52 | Reading a rendered count back gives the count, negative counts included |
| FooterCell.CountPart | Test/Screens/Reviews/Cells/FooterCell.swift:52 | The part before the first space is a prefix without spaces |
| FooterCell.CountPartOfJoin | Test/Screens/Reviews/Cells/FooterCell.swift:52 | Splitting "a b" at the first space gives back a when a has no space |
| FooterCell.PluralizeRoundTrip | Test/Screens/Reviews/Cells/FooterCell.swift:47-63 | The footer text reads back as the count it was built from, followed by the word of the chosen form |
| FooterCell.FormDependsOnLastTwoDigits | Test/Screens/Reviews/Cells/FooterCell.swift:48-51 | Counts with the same last two digits (truncated remainder by 100) take the same form |
| FooterCell.LastDigitOfLastTwo | Test/Screens/Reviews/Cells/FooterCell.swift:48-49 | The last digit is the last digit of the last two digits, for negative counts too |
| FooterCell.PluralFormIsRussianRule | Test/Screens/Reviews/Cells/FooterCell.swift:47-63 | For every non-negative count, the chosen form is the one the CLDR Russian cardinal rule prescribes |
| LoadOperation.Fresh | Test/Screens/Reviews/LoadImageOperation.swift:19-22 | A new operation downloads its URL, holds exactly the handler it is created with, and has no image |
| LoadOperation.SelectResult | Test/Screens/Reviews/LoadImageOperation.swift:24-38 | A cancelled operation or missing data yields no image. Otherwise the result is the decoded data, so an image implies neither cancellation nor missing data |
| LoadOperation.Invocations | Test/Screens/Reviews/LoadImageOperation.swift:42-44 | Every handler is called exactly once, in append order, with the same value |
| LoadOperation.HandleResult | Test/Screens/Reviews/LoadImageOperation.swift:40-46 | The operation stores the value and ends with no handlers, and each former handler is called once, in order, with that value |
| ImageLoader.Empty | Test/Screens/Reviews/ImageLoader.swift:14-22 | A new loader has an empty cache and nothing loading |
| ImageLoader.Notify | Test/Screens/Reviews/ImageLoader.swift:37 | A nil completion is not called; a given one is called once with the value |
| ImageLoader.Load | Test/Screens/Reviews/ImageLoader.swift:35-65 | An unparseable URL answers nil at once. A cached one answers its image at once. Otherwise nothing is called yet: the handler joins the URL's operation, or a new operation holding only it is registered under the URL |
| ImageLoader.CancelLoad | Test/Screens/Reviews/ImageLoader.swift:25-33 | A mapped, parseable URL is unmapped and its operation marked cancelled. Otherwise nothing changes |
| ImageLoader.Evict | Test/Screens/Reviews/ImageLoader.swift:14 | The cache loses exactly that entry and nothing else changes |
| ImageLoader.Notified | Test/Screens/Reviews/ImageLoader.swift:46-55 | No value calls no one, and every call carries the delivered value |
| ImageLoader.RunHandler | Test/Screens/Reviews/ImageLoader.swift:46-55 | Without an image the handler changes nothing and calls no one. With one, it caches the image under its URL, keeps every other cache entry, unmaps exactly its URL, and calls its completion once with the image |
| ImageLoader.RunHandlers | Test/Screens/Reviews/ImageLoader.swift:46-55 | Handlers never create or change operations |
| ImageLoader.RunHandlersEffect | Test/Screens/Reviews/ImageLoader.swift:46-55 | For nil, handlers do nothing. For an image, handlers of one URL cache it, unmap the URL and call their completions in order |
| ImageLoader.HandlersOf | Test/Screens/Reviews/LoadImageOperation.swift:42-44 | The handlers of a call list, position by position |
| ImageLoader.Deliver | Test/Screens/Reviews/LoadImageOperation.swift:24-46 | The answered operation ends with the value and no handlers. No image leaves cache and map alone and calls no one. An image is cached under the URL, the URL is unmapped, and every waiting completion is called in order |
| ImageLoaderProperties.EmptyValid | Test/Screens/Reviews/ImageLoader.swift:14-22 | A new loader satisfies the loader invariant |
| ImageLoaderProperties.OneLiveOperationPerUrl | Test/Screens/Reviews/ImageLoader.swift:57-63 | No two live operations download the same URL |
| ImageLoaderProperties.LoadPreservesValid | Test/Screens/Reviews/ImageLoader.swift:35-65 | load keeps the invariant |
| ImageLoaderProperties.CancelPreservesValid | Test/Screens/Reviews/ImageLoader.swift:25-33 | cancelLoad keeps the invariant |
| ImageLoaderProperties.EvictPreservesValid | Test/Screens/Reviews/ImageLoader.swift:14 | Cache eviction keeps the invariant |
| ImageLoaderProperties.DeliverPreservesValid | Test/Screens/Reviews/LoadImageOperation.swift:24-46 | A download's answer keeps the invariant |
| ImageLoaderProperties.LoadEach | Test/Screens/Reviews/ImageLoader.swift:35-65 | Repeated loads keep the loader consistent |
| ImageLoaderProperties.HandlersFor | Test/Screens/Reviews/ImageLoader.swift:46-55 | One handler per completion, for the URL, in order |
| ImageLoaderProperties.CallsFor | Test/Screens/Reviews/LoadImageOperation.swift:42-44 | One call per completion, in order, all with the same value |
| ImageLoaderProperties.LoadEachAttaches | Test/Screens/Reviews/ImageLoader.swift:57-60 | While the URL has an operation, further loads only append their handlers to it, in order, and call no one |
| ImageLoaderProperties.LoadEachCreatesOne | Test/Screens/Reviews/ImageLoader.swift:57-64 | N loads of an uncached URL with no operation call no one and register exactly one new operation under the URL, holding the N handlers in call order; the cache is untouched |
| ImageLoaderProperties.FanOutDelivers | Test/Screens/Reviews/LoadImageOperation.swift:35-45 | When an operation holding N completions' handlers gets an image, the image is cached under its URL, the URL is unmapped, and the N completions are called with it in order |
| ImageLoaderProperties.NotifiedHandlersFor | Test/Screens/Reviews/LoadImageOperation.swift:42-44 | The handlers of N completions call exactly those N completions, in order |
| ImageLoaderProperties.DedupFanOut | Test/Screens/Reviews/ImageLoader.swift:35-65 | N loads of an uncached URL create exactly one operation holding the N handlers. If its answer decodes, the image is cached and all N completions are called once each, in order |
| ImageLoaderProperties.CancelDropsPending | Test/Screens/Reviews/ImageLoader.swift:25-33 | After cancelLoad, the operation's answer calls no one and leaves the cache as it was |
| ImageLoaderProperties.CacheHitAfterSuccess | Test/Screens/Reviews/ImageLoader.swift:41-44 | After a successful download, a later load answers the cached image at once and changes nothing |
| ImageLoaderProperties.FailedDownloadStrandsLaterCallers | Test/Screens/Reviews/ImageLoader.swift:46-60 | A download with no image calls no one and leaves the URL mapped to the finished operation. A later caller is attached to it and is never called while the URL stays mapped there |
| ImageLoaderProperties.StrandingEndsAfterCancel | Test/Screens/Reviews/ImageLoader.swift:25-65 | After a download with no image, a cancelLoad of the URL unmaps the finished operation; the next load registers a new operation, and a decodable answer to it calls the new caller once with the image |
| Prefetch.ItemUrls | Test/Screens/Reviews/ReviewsViewModel.swift:138-143 | A review row yields its avatar URL followed by its photo URLs; any other row yields none |
| Prefetch.RowUrls | Test/Screens/Reviews/ReviewsViewModel.swift:136-145 | A URL is among the rows' URLs exactly when it belongs to one of the given rows |
| Prefetch.WarmUp | Test/Screens/Reviews/ReviewsViewModel.swift:139 | A warm-up load calls no one and keeps the cache and running downloads. The URL starts loading exactly when it parses and is not cached, and nothing else starts |
| Prefetch.CoolDown | Test/Screens/Reviews/ReviewsViewModel.swift:150 | A cancellation unmaps a parseable URL, starts nothing and keeps every other download |
| Prefetch.WarmUpAll | Test/Screens/Reviews/ReviewsViewModel.swift:139-142 | After warming a row's URLs, each parseable uncached one is loading, and the only downloads added are for those parseable uncached URLs |
| Prefetch.CoolDownAll | Test/Screens/Reviews/ReviewsViewModel.swift:150-153 | After cancelling a row's URLs, none of the parseable ones is loading and every other download is kept |
| Prefetch.PrefetchRows | Test/Screens/Reviews/ReviewsViewModel.swift:136-145 | Every parseable uncached avatar and photo URL of the prefetched review rows is loading. Running downloads are kept, nothing else starts (no unparseable or cached URL) and the cache is untouched |
| Prefetch.CancelPrefetchRows | Test/Screens/Reviews/ReviewsViewModel.swift:147-156 | No parseable avatar or photo URL of those review rows is loading. Every other download is kept, nothing starts and the cache is untouched |

## Left out

- UIKit rendering is not modelled: cells, frames, fonts, attributed strings, the rating image renderer, and the avatar loading in `ReviewCellConfig.update`. Text heights are parameters of the show-more decision.
- The reviews provider, JSON decoding and the `Reviews` wrapper are not modelled. A completion arrives as a decoded page or a failure. The provider is given only the offset, as in the code; the page size is never sent.
- URLSession, DispatchQueue and the OperationQueue's limit of 10 concurrent downloads are not modelled. They bound parallelism, not outcomes, because every handler runs on the main queue; the network answer is the `Deliver` event.
- NSCache's automatic purging is reduced to the `Evict` event, which may drop any entry at any time.
- `weak self` captures are left out: the view model and loader are assumed to live as long as the screen.
- An operation cancelled before the queue starts it never runs `main`, so its handlers are never called. The model delivers it like any cancelled operation, which also calls no one.
- `isRefreshing` is never assigned in the modelled code. The model carries it and shows that no event changes it.
- The view controller and the remaining table data source/delegate methods are not modelled, because they only render the state.
- FooterCellConfig and LoaderCellConfig define no `isEqual`/`hash` of their own, so only review rows' identity equality is modelled.
- ReviewCell.RatingToTextOffset: covers only the part of the layout between rating and text that the photo strip decides, not the full cell height, because the rest is frame arithmetic on measured text.
- ReviewsViewModel.ShouldLoadNextPage: the code compares `CGFloat` values, 64-bit doubles; the model uses exact reals. Rewriting the code's distance test as the offset threshold is exact only over reals, so within a rounding error of the boundary the two can disagree. The same holds for `ReviewsViewModel.NearEndTrigger` and `ReviewCell.ShowMoreShown`.
- FooterCell.PluralForm: its own contract states only the negative case; the full rule is stated by `FooterCell.PluralFormIsRussianRule` for non-negative counts, and the negative case follows the code's truncating remainder.
