# Gnomix website: a verified model of its stateful core

The Gnomix website is a one-page marketing site for a Linux customisation
script. Its server keeps a small in-memory content store: one mutable
counter record and five fixed collections. A thin HTTP layer sits over the
store. The page's components hold a few pieces of UI state:
- an FAQ search box and accordion;
- a gallery lightbox;
- an auto-playing testimonial carousel;
- a rotating headline in the hero section.

This project models those pieces in Dafny and proves what they guarantee.

| file | models |
|---|---|
| `wrappers.dfy` | `Option`, standing for JavaScript's `T \| undefined` and `number \| null` |
| `schema.dfy` | the record shapes shared by server and client |
| `storage.dfy` | the content store. `StoreState` is its value. `Seed`, `Increment`, `Latest`, `Call` and `Run` specify it. The class `MemStorage` has the source's six fields, and its methods are proved against those functions |
| `routes.dfy` | the eight HTTP handlers. `Dispatch` is a function from a request, the store's state and a fault flag to the response and the next state. `Serve` runs a sequence of requests. `HandleRequest` runs the handlers against a `MemStorage` object and is proved to agree with `Dispatch` |
| `cyclic.dfy` | the `(i + 1) % n` and `(i - 1 + n) % n` updaters, and the indicator row in which only the current position is highlighted. The three carousel-like components share these |
| `faq.dfy` | the FAQ filter, the accordion toggle, and the class `FaqSection` holding `openIndex` and `searchQuery` |
| `gallery.dfy` | the lightbox index as an `Option<nat>`, its transitions and what the open lightbox shows |
| `testimonials.dfy` | the carousel state (`currentIndex`, `autoPlay`), its transition function `Step`, and the class `TestimonialCarousel` whose handlers each perform one `Step` |
| `hero.dfy` | the rotating desktop-environment headline |

The React timers (`setInterval`) become explicit tick events with no notion
of time. React's `setState` becomes a field update or a step function.

Three points about the program shape the model:
- The client FAQ, testimonial and gallery components do not read the store.
  They render their own constant lists. There are ten FAQs in the component
  and six in the store, and six testimonials in the component and three in
  the store. Each module carries the list its source file has.
- Node runs `downloads++` on one thread, with no `await` between the read
  and the write, so the store is modelled sequentially.
- The store never throws (gnomix-website/server/storage.ts:184-215), so
  `fault` in `Dispatch` is a parameter. A faulting call is taken to fail
  before it has any effect.

## Model

| member | source | states |
|---|---|---|
| `Storage.Seed` | gnomix-website/server/storage.ts:42-182 | after construction the counters are exactly 8547, 50, 463 and 2. There are 1 download, 6 FAQs, 4 features, 3 testimonials and 4 system requirements |
| `Storage.SeedIdsDistinct` | gnomix-website/server/storage.ts:51-181 | in each seeded collection the ids are pairwise distinct |
| `Storage.SeedFaqCategories` | gnomix-website/server/storage.ts:66-103 | every seeded FAQ's category is one of General, Usage, Installation, Updates |
| `Storage.Increment` | gnomix-website/server/storage.ts:188-191 | an increment raises `downloads` by exactly one. It leaves the other three counters and all five collections unchanged |
| `Storage.Latest` | gnomix-website/server/storage.ts:197-199 | the latest download is present iff the list is non-empty, and it is then the first element |
| `Storage.Call` | gnomix-website/server/storage.ts:184-215 | every operation other than the increment leaves the state unchanged. The increment returns the updated stats. `getStats` returns the current stats. `getLatestDownload` returns `Latest`. Each of the five list accessors returns its collection as stored |
| `Storage.RunEffect` | gnomix-website/server/storage.ts:184-215 | any sequence of store calls raises `downloads` by exactly the number of increments in it and changes nothing else, so no increment is lost |
| `Storage.DownloadsNeverDecrease` | gnomix-website/server/storage.ts:184-215 | at any later point of any run of store calls, `downloads` is at least what it was at an earlier point |
| `Storage.MemStorage.constructor` | gnomix-website/server/storage.ts:42-182 | a new store holds exactly the seed state, with stats {8547, 50, 463, 2} |
| `Storage.MemStorage.GetStats` | gnomix-website/server/storage.ts:184-186 | returns the current counters and changes nothing |
| `Storage.MemStorage.IncrementDownloads` | gnomix-website/server/storage.ts:188-191 | only the stats field may change. `downloads` goes up by one, the other counters stay the same, the updated record is returned, and the new state is `Increment` of the old |
| `Storage.MemStorage.GetDownloads` | gnomix-website/server/storage.ts:193-195 | returns the download list as stored, in order, and changes nothing |
| `Storage.MemStorage.GetLatestDownload` | gnomix-website/server/storage.ts:197-199 | returns `Some(downloads[0])` when the list is non-empty and `None` when it is empty |
| `Storage.MemStorage.GetFAQs` | gnomix-website/server/storage.ts:201-203 | returns the FAQ list as stored and changes nothing |
| `Storage.MemStorage.GetFeatures` | gnomix-website/server/storage.ts:205-207 | returns the feature list as stored and changes nothing |
| `Storage.MemStorage.GetTestimonials` | gnomix-website/server/storage.ts:209-211 | returns the testimonial list as stored and changes nothing |
| `Storage.MemStorage.GetSystemRequirements` | gnomix-website/server/storage.ts:213-215 | returns the system-requirement list as stored and changes nothing |
| `Routes.RouteTableBijective` | gnomix-website/server/routes.ts:12-93 | the routing table pairs the eight (method, path) requests one-to-one with the eight store operations, so each route calls exactly one store method |
| `Routes.RouteMethods` | gnomix-website/server/routes.ts:12-93 | the download-tracking route is the only POST and the other seven are GETs |
| `Routes.RouteOf` | gnomix-website/server/routes.ts:12-93 | a matched request is exactly the one registered for its operation, its path starts with `/api/`, and a method other than GET or POST never matches |
| `Routes.FailureMessage` | gnomix-website/server/routes.ts:17-91 | each route's 500 message reads "Failed to ...", and "Failed to fetch ..." on every route but the tracking POST |
| `Routes.FailureMessagesDistinct` | gnomix-website/server/routes.ts:17-91 | the eight failure messages are pairwise different, so each names its own operation |
| `Routes.ToResponse` | gnomix-website/server/routes.ts:12-93 | a store reply becomes status 200 or 404. It is 404 exactly for an absent latest download, and that body is `{error: "No downloads available"}` |
| `Routes.Dispatch` | gnomix-website/server/routes.ts:12-93 | a request is handled exactly when it matches one of the registered routes |
| `Routes.ReadRoutes` | gnomix-website/server/routes.ts:12-93 | with no fault, each of the six read GETs answers 200 with the store's current value or list as its body (stats, downloads, FAQs, features, testimonials, system requirements) and leaves the store unchanged |
| `Routes.LatestDownloadRoute` | gnomix-website/server/routes.ts:42-53 | GET /api/downloads/latest answers 404 with `{error: "No downloads available"}` exactly when the store has no download. Otherwise it answers 200 with the first download. The store is left unchanged |
| `Routes.TrackDownloadRoute` | gnomix-website/server/routes.ts:22-29 | POST /api/stats/download increments the counter and answers 200 with the post-increment stats |
| `Routes.OnlyTrackingWrites` | gnomix-website/server/routes.ts:12-93 | a handled request changes the store iff it is the POST to /api/stats/download and its store call does not fault |
| `Routes.FaultIsServerError` | gnomix-website/server/routes.ts:12-93 | a fault in any route's store call gives 500 with that route's own message, no success body, and an unchanged store |
| `Routes.FaultsIdentifyRoute` | gnomix-website/server/routes.ts:12-93 | faults on two different routes give different responses, so a 500 body tells which route failed |
| `Routes.StatusCodes` | gnomix-website/server/routes.ts:12-93 | every status is 200, 404 or 500. 500 means a fault. 404 comes only from the latest-download route when there is no download. The body is an error object exactly when the status is not 200 |
| `Routes.ServeEffect` | gnomix-website/server/routes.ts:12-93 | serving any sequence of requests raises `downloads` by exactly the number of successful tracking POSTs and changes nothing else |
| `Routes.RepeatedGet` | gnomix-website/server/routes.ts:12-93 | when a GET is repeated with no successful POST in between, both responses are the same |
| `Routes.SeedScenarios` | gnomix-website/server/routes.ts:12-63 | on the seeded store, GET /api/stats gives {8547, 50, 463, 2}, and after one POST it gives 8548 with the rest unchanged. The latest download is v1.0.0 and marked beta. GET /api/faqs returns the seeded FAQs |
| `Routes.HandleRequest` | gnomix-website/server/routes.ts:12-93 | running the handlers against a store object gives the response `Dispatch` gives and leaves the object in the state `Dispatch` gives |
| `Cyclic.Succ` | gnomix-website/client/src/components/gallery-section.tsx:243-246 | `(i + 1) % n` lies in [0, n). For i in range it is i + 1, or 0 after the last position |
| `Cyclic.Pred` | gnomix-website/client/src/components/gallery-section.tsx:239-242 | `(i - 1 + n) % n` lies in [0, n). For i in range it is i - 1, or n - 1 before the first position |
| `Cyclic.PredSucc` | gnomix-website/client/src/components/gallery-section.tsx:239-246 | a step back undoes a step forward, and the reverse |
| `Cyclic.SuccNWithinLap` | gnomix-website/client/src/components/testimonials-section.tsx:153-155 | within one lap, after k forward steps from i the index is i + k, wrapped once past the end |
| `Cyclic.FullCycle` | gnomix-website/client/src/components/hero-section.tsx:40 | n forward steps return to the starting index |
| `Cyclic.Periodic` | gnomix-website/client/src/components/hero-section.tsx:40 | k + n steps land where k steps land |
| `Cyclic.HighlightCount` | gnomix-website/client/src/components/gallery-section.tsx:219-223 | in an indicator row of n, exactly one indicator is highlighted when the current index is below n, and none otherwise |
| `Cyclic.HighlightedIsCurrent` | gnomix-website/client/src/components/testimonials-section.tsx:273-277 | the highlighted indicator is the one at the current index, and it is the only one |
| `Hero.Tick` | gnomix-website/client/src/components/hero-section.tsx:40 | a tick maps i to (i + 1) mod 5, the number of desktop environments, and the result lies in [0, 5) |
| `Hero.IndexAfter` | gnomix-website/client/src/components/hero-section.tsx:36-44 | starting from 0, after t ticks the index is t mod 5, so it is always in bounds |
| `Hero.FiveTicksReturn` | gnomix-website/client/src/components/hero-section.tsx:40 | five ticks from any index bring the rotation back to it |
| `Hero.View` | gnomix-website/client/src/components/hero-section.tsx:141-296 | the headline, subtitle and window caption are the title, description and name of the same entry, and every headline starts "Pure " |
| `Hero.ViewIsOneEntry` | gnomix-website/client/src/components/hero-section.tsx:141-296 | at every moment the title, subtitle and caption lookups are in bounds and all come from the same entry |
| `Gallery.OpenLightbox` | gnomix-website/client/src/components/gallery-section.tsx:237 | clicking card k shows image k, which is in range when the card exists |
| `Gallery.CloseLightbox` | gnomix-website/client/src/components/gallery-section.tsx:238 | closing leaves no image shown |
| `Gallery.PrevImage` | gnomix-website/client/src/components/gallery-section.tsx:239-242 | a closed lightbox stays closed. An open one moves to the previous image, wrapping from the first to the last, and stays in [0, 6) |
| `Gallery.NextImage` | gnomix-website/client/src/components/gallery-section.tsx:243-246 | a closed lightbox stays closed. An open one moves to the next image, wrapping from the last to the first, and stays in [0, 6) |
| `Gallery.PrevNextInverse` | gnomix-website/client/src/components/gallery-section.tsx:239-246 | previous after next, and next after previous, restore the lightbox index |
| `Gallery.NextFullCycle` | gnomix-website/client/src/components/gallery-section.tsx:243-246 | six presses of next return the lightbox to the image it started on |
| `Gallery.Lightbox` | gnomix-website/client/src/components/gallery-section.tsx:106-226 | the open lightbox shows image `currentIndex`, its counter is `currentIndex + 1` out of a total of 6, and it has one dot per image |
| `Gallery.LightboxShowsCurrent` | gnomix-website/client/src/components/gallery-section.tsx:106-226 | the lightbox shows image `currentIndex`, and its counter shows `currentIndex + 1` out of 6, so it lies in [1, 6]. There is one dot per image, and exactly the current dot is highlighted |
| `Gallery.StepEffects` | gnomix-website/client/src/components/gallery-section.tsx:213-291 | clicking card k opens the lightbox at k and closing empties the index. Clicking a dot changes nothing. Previous and next leave a closed lightbox closed |
| `Gallery.Step` | gnomix-website/client/src/components/gallery-section.tsx:213-291 | a valid event keeps the index in range. The lightbox is closed afterwards exactly after a close, or when it was closed and the event was not a card click |
| `Gallery.InitialRunStaysInRange` | gnomix-website/client/src/components/gallery-section.tsx:235-246 | from the initial closed lightbox, every run of valid user events keeps the index closed or in range |
| `Gallery.RunStaysInRange` | gnomix-website/client/src/components/gallery-section.tsx:235-246 | from a closed or in-range lightbox, no run of user events leads to an index past the last image |
| `Testimonials.Step` | gnomix-website/client/src/components/testimonials-section.tsx:150-170 | no event turns autoplay on. Every event but a tick turns it off. From an index in range, every event keeps the index in range |
| `Testimonials.StepIndex` | gnomix-website/client/src/components/testimonials-section.tsx:150-272 | a tick advances the index by one modulo 6 only while autoplay is on. Next and previous move it by one either way with wrap-around. An indicator click jumps to its position |
| `Testimonials.AutoPlayNeverResumes` | gnomix-website/client/src/components/testimonials-section.tsx:148-272 | once autoplay is off, no sequence of events turns it back on |
| `Testimonials.AutoPlayOnlyThroughTicks` | gnomix-website/client/src/components/testimonials-section.tsx:148-272 | autoplay is still on after a run of events iff it was on before and every event in the run was a timer tick |
| `Testimonials.RunStaysInRange` | gnomix-website/client/src/components/testimonials-section.tsx:147-272 | from an index in range, every run of events keeps the index in range, so `testimonials[currentIndex]` never fails |
| `Testimonials.TicksOnly` | gnomix-website/client/src/components/testimonials-section.tsx:150-158 | with no user input, k ticks from a playing state advance the index k steps around the ring, and autoplay stays on |
| `Testimonials.TestimonialCarousel.constructor` | gnomix-website/client/src/components/testimonials-section.tsx:147-148 | the carousel starts at index 0 with autoplay on |
| `Testimonials.TestimonialCarousel.Tick` | gnomix-website/client/src/components/testimonials-section.tsx:150-158 | the interval callback performs exactly `Step(_, AutoTick)` and keeps the index in range |
| `Testimonials.TestimonialCarousel.GoToPrev` | gnomix-website/client/src/components/testimonials-section.tsx:160-165 | turning autoplay off and then stepping the index back performs exactly `Step(_, GoToPrev)` |
| `Testimonials.TestimonialCarousel.GoToNext` | gnomix-website/client/src/components/testimonials-section.tsx:167-170 | turning autoplay off and then stepping the index forward performs exactly `Step(_, GoToNext)` |
| `Testimonials.TestimonialCarousel.SelectIndicator` | gnomix-website/client/src/components/testimonials-section.tsx:269-272 | clicking indicator k turns autoplay off and sets the index to k |
| `Testimonials.CarouselView` | gnomix-website/client/src/components/testimonials-section.tsx:234-277 | the card shown is `testimonials[currentIndex]`, and exactly its indicator is highlighted |
| `Testimonials.TestimonialCarousel.Displayed` | gnomix-website/client/src/components/testimonials-section.tsx:235-236 | the card shown is one of the testimonials, the one at the current index |
| `Testimonials.TestimonialCarousel.Indicators` | gnomix-website/client/src/components/testimonials-section.tsx:264-277 | one indicator per testimonial, lit exactly at the current index, so exactly one is lit while the index is in range |
| `Faq.LowerChar` | gnomix-website/client/src/components/faq-section.tsx:134-135 | lower-casing a character never yields an ASCII capital. It maps each capital to its own small letter (code point plus 32) and leaves every other character as it is |
| `Faq.Lower` | gnomix-website/client/src/components/faq-section.tsx:134-135 | the ASCII lower-casing keeps the length and leaves no ASCII capital |
| `Faq.Includes` | gnomix-website/client/src/components/faq-section.tsx:134-135 | the empty needle occurs in every string, and a needle that occurs is no longer than the haystack |
| `Faq.IncludesAtOffset` | gnomix-website/client/src/components/faq-section.tsx:134-135 | `includes` holds exactly when the needle occurs at some offset of the haystack |
| `Faq.Matches` | gnomix-website/client/src/components/faq-section.tsx:133-135 | the empty query matches every FAQ |
| `Faq.Filter` | gnomix-website/client/src/components/faq-section.tsx:132-136 | the filtered list is no longer than the FAQ list, and every element kept is in the list and matches the query |
| `Faq.FilterCount` | gnomix-website/client/src/components/faq-section.tsx:132-136 | a matching FAQ is kept exactly as many times as it occurs in the list, and a non-matching one not at all |
| `Faq.FilterMembership` | gnomix-website/client/src/components/faq-section.tsx:132-136 | an FAQ is kept iff it is in the list and the lower-cased query occurs in its lower-cased question or its lower-cased answer |
| `Faq.FilterIsSubsequence` | gnomix-website/client/src/components/faq-section.tsx:132 | the filtered list is an order-preserving subsequence of the FAQ list |
| `Faq.EmptyQueryKeepsAll` | gnomix-website/client/src/components/faq-section.tsx:132-136 | an empty query keeps every FAQ, in order |
| `Faq.QueryCaseIgnored` | gnomix-website/client/src/components/faq-section.tsx:134-135 | a query and its lower-cased form keep the same FAQs |
| `Faq.NothingFoundIff` | gnomix-website/client/src/components/faq-section.tsx:132-136 | the filtered list is empty iff no FAQ matches the query |
| `Faq.AtMostOneOpen` | gnomix-website/client/src/components/faq-section.tsx:202 | among the rendered items at most one is open. Exactly one is open when `openIndex` is a rendered position |
| `Faq.Toggle` | gnomix-website/client/src/components/faq-section.tsx:203-205 | the new open position is null exactly when the clicked item was the open one, and otherwise the clicked item |
| `Faq.ToggleEffect` | gnomix-website/client/src/components/faq-section.tsx:202-205 | toggling the open item leaves none open. Toggling any other item makes it the only open one |
| `Faq.FaqSection.constructor` | gnomix-website/client/src/components/faq-section.tsx:129-130 | initially `openIndex` is 0 and the query is empty |
| `Faq.FaqSection.ToggleItem` | gnomix-website/client/src/components/faq-section.tsx:203-205 | the click handler sets `openIndex` to null if the item was open, and to the item otherwise. The query is unchanged |
| `Faq.FaqSection.SetSearchQuery` | gnomix-website/client/src/components/faq-section.tsx:184 | typing replaces the query and leaves `openIndex` unchanged |
| `Faq.FaqSection.View` | gnomix-website/client/src/components/faq-section.tsx:197-218 | the no-result message is shown exactly when the filtered list is empty. Otherwise the items are the filtered FAQs with one open flag each, and flag k is set exactly when `openIndex` is k |
| `Faq.ViewBranches` | gnomix-website/client/src/components/faq-section.tsx:197-218 | the "No questions found" branch, with the query in its message, is shown iff no FAQ matches. Otherwise the items shown are the filtered ones and at most one is open |

## Left out

- Animation and layout: every framer-motion property, Tailwind class and JSX layout detail is cosmetic.
- Floating-point motion: the particles, cursor easing, card tilt and animated counters. These are in components this model does not cover.
- Time: the `setInterval` periods (three and four seconds) are not modelled. A tick is an event.
- DOM and browser APIs: scrolling, meta and Open Graph tags, the clipboard.
- HTTP and data-fetching plumbing: Express registration, JSON serialisation, and the client's react-query fetching and caching. A response is a value holding a status and a body. The `res.status().json()` calls that mutate Express's response object are not modelled.
- Routes.RouteOf: compares method and path exactly. Express's case-insensitive matching, its tolerance of a trailing slash, and its answering of HEAD with the GET handler are not modelled. An unregistered request is `None`: it falls through to the rest of the server, which this model does not cover.
- Routes.Dispatch: a store fault is a parameter. `MemStorage` never throws, so a faulting call is taken to have no effect on the store.
- Concurrency: requests are served one after another. Node's single thread runs `downloads++` with no `await` between the read and the write.
- Storage.MemStorage.GetStats: returns a copy of the counters. In the source, `getStats` and `incrementDownloads` return the same mutable object, and that aliasing is not modelled.
- Storage.MemStorage.GetDownloads, Storage.MemStorage.GetFAQs, Storage.MemStorage.GetFeatures, Storage.MemStorage.GetTestimonials, Storage.MemStorage.GetSystemRequirements: return value sequences. In the source they return the store's own arrays by reference, and a caller mutating them would change the store; that aliasing is not modelled.
- Storage.MemStorage.IncrementDownloads: `downloads` is an unbounded natural number. The limit of JavaScript's double-precision numbers (2^53) is not modelled.
- The `IStorage` interface is not modelled separately, because `MemStorage` is its only implementation.
- The unused `randomUUID` import, the unused `DownloadStat` schema and zod validation are not modelled. Only the record shapes are mirrored.
- Faq.LowerChar: lower-cases the ASCII letters only. `toLowerCase` also folds other Unicode letters, and that is not modelled.
- Static text: the community, comparison, footer, navigation and download-requirements sections, the mobile-menu toggle and the comparison cells hold no logic worth verifying.
- Testimonials.TestimonialCarousel.GoToPrev, Testimonials.TestimonialCarousel.GoToNext, Testimonials.TestimonialCarousel.SelectIndicator: each handler's two state updates (`setAutoPlay(false)`, then `setCurrentIndex`) are taken as one step. A timer tick cannot slip in between them because React batches them.
