/**
 * The screenshot gallery and its lightbox
 * (gnomix-website/client/src/components/gallery-section.tsx). The lightbox
 * state is `lightboxIndex: number | null`, here an `Option<nat>`: `None`
 * while the lightbox is closed, `Some(i)` while it shows image `i`.
 */
module Gallery {
  import opened Wrappers
  import opened Cyclic

  datatype GalleryImage = GalleryImage(id: string, title: string, description: string, gradient: string)

  const GalleryImages: seq<GalleryImage> := [
    GalleryImage("1", "Clean Desktop", "Pure GNOME desktop with Activities overview", "from-blue-500/20 to-cyan-500/20"),
    GalleryImage("2", "File Manager", "Nautilus file manager with clean interface", "from-purple-500/20 to-pink-500/20"),
    GalleryImage("3", "System Settings", "GNOME Settings without Ubuntu modifications", "from-orange-500/20 to-red-500/20"),
    GalleryImage("4", "App Grid", "Application launcher with stock GNOME style", "from-green-500/20 to-emerald-500/20"),
    GalleryImage("5", "Terminal", "GNOME Terminal with dark theme", "from-indigo-500/20 to-blue-500/20"),
    GalleryImage("6", "Workspaces", "Dynamic workspaces for better productivity", "from-pink-500/20 to-rose-500/20")
  ]

  const ImageCount: nat := |GalleryImages|

  /** The lightbox starts closed. */
  const InitialIndex: Option<nat> := None

  /** The lightbox is closed, or shows an image that exists. */
  predicate InRange(idx: Option<nat>)
  {
    idx.Some? ==> idx.value < ImageCount
  }

  /** Clicking card `index` shows that image; a card that exists yields an index in range. */
  function OpenLightbox(index: nat): (r: Option<nat>)
    ensures r.Some? && r.value == index
    ensures index < ImageCount ==> InRange(r)
  {
    Some(index)
  }

  /** Closing leaves nothing shown. */
  function CloseLightbox(): (r: Option<nat>)
    ensures r.None? && InRange(r)
  {
    None
  }

  /** The previous image, wrapping from the first to the last; a closed lightbox stays closed. */
  function PrevImage(idx: Option<nat>): (r: Option<nat>)
    ensures r.None? <==> idx.None?
    ensures r.Some? ==> r.value < ImageCount
    ensures InRange(idx) && idx.Some? ==>
      r.value == if idx.value == 0 then ImageCount - 1 else idx.value - 1
  {
    match idx
    case None => None
    case Some(i) => Some(Pred(i, ImageCount))
  }

  /** The next image, wrapping from the last to the first; a closed lightbox stays closed. */
  function NextImage(idx: Option<nat>): (r: Option<nat>)
    ensures r.None? <==> idx.None?
    ensures r.Some? ==> r.value < ImageCount
    ensures InRange(idx) && idx.Some? ==>
      r.value == if idx.value == ImageCount - 1 then 0 else idx.value + 1
  {
    match idx
    case None => None
    case Some(i) => Some(Succ(i, ImageCount))
  }

  /** Previous after next, and next after previous, restore the index. */
  lemma PrevNextInverse(idx: Option<nat>)
    requires InRange(idx)
    ensures PrevImage(NextImage(idx)) == idx
    ensures NextImage(PrevImage(idx)) == idx
  {
    if idx.Some? {
      PredSucc(idx.value, ImageCount);
    }
  }

  /** `k` presses of the next button. */
  function NextTimes(idx: Option<nat>, k: nat): Option<nat>
    decreases k
  {
    if k == 0 then idx else NextImage(NextTimes(idx, k - 1))
  }

  lemma {:induction false} NextTimesIsSuccN(idx: Option<nat>, k: nat)
    ensures NextTimes(idx, k) == match idx case None => None case Some(i) => Some(SuccN(i, k, ImageCount))
    decreases k
  {
    if k > 0 {
      NextTimesIsSuccN(idx, k - 1);
    }
  }

  /** As many presses of next as there are images bring the lightbox back to the image it started on. */
  lemma NextFullCycle(idx: Option<nat>)
    requires InRange(idx)
    ensures NextTimes(idx, ImageCount) == idx
  {
    NextTimesIsSuccN(idx, ImageCount);
    if idx.Some? {
      FullCycle(idx.value, ImageCount);
    }
  }

  // ---------------------------------------------------------------- what the lightbox shows

  /** The open lightbox: the image, the counter `position / total`, and the row of dots. */
  datatype LightboxView = LightboxView(image: GalleryImage, position: nat, total: nat, dots: seq<bool>)

  function Lightbox(currentIndex: nat): (r: LightboxView)
    requires currentIndex < ImageCount
    ensures r.image == GalleryImages[currentIndex]
    ensures r.position == currentIndex + 1
    ensures 1 <= r.position <= r.total == ImageCount
    ensures |r.dots| == ImageCount
  {
    LightboxView(GalleryImages[currentIndex], currentIndex + 1, ImageCount, Highlights(currentIndex, ImageCount))
  }

  /**
   * The lightbox shows image `currentIndex`, the counter `currentIndex + 1`
   * out of the number of images, and one dot per image of which exactly the current
   * one is highlighted.
   */
  lemma LightboxShowsCurrent(currentIndex: nat, k: nat)
    requires currentIndex < ImageCount && k < ImageCount
    ensures Lightbox(currentIndex).image == GalleryImages[currentIndex]
    ensures Lightbox(currentIndex).position == currentIndex + 1
    ensures 1 <= Lightbox(currentIndex).position <= Lightbox(currentIndex).total == ImageCount
    ensures |Lightbox(currentIndex).dots| == ImageCount
    ensures Lightbox(currentIndex).dots[k] <==> k == currentIndex
    ensures CountTrue(Lightbox(currentIndex).dots) == 1
  {
    HighlightedIsCurrent(currentIndex, ImageCount, k);
  }

  // ---------------------------------------------------------------- user events

  /** What the user can do: click a card, close, go back, go forward, click a dot. */
  datatype Event = CardClick(card: nat) | Close | Prev | Next | DotClick(dot: nat)

  /** Cards and dots exist only for the images there are. */
  predicate ValidEvent(e: Event)
  {
    match e
    case CardClick(k) => k < ImageCount
    case DotClick(k) => k < ImageCount
    case _ => true
  }

  /**
   * One event. A valid event keeps the index in range, and the lightbox ends
   * up closed exactly after a close, or when it was closed and the event was
   * not a card click.
   */
  function Step(idx: Option<nat>, e: Event): (r: Option<nat>)
    ensures InRange(idx) && ValidEvent(e) ==> InRange(r)
    ensures r.None? <==> e.Close? || (idx.None? && !e.CardClick?)
  {
    match e
    case CardClick(k) => OpenLightbox(k)
    case Close => CloseLightbox()
    case Prev => PrevImage(idx)
    case Next => NextImage(idx)
    // the dot's handler only stops the click from reaching the backdrop
    case DotClick(_) => idx
  }

  /**
   * `Step` unfolded event by event: clicking card `k` opens the lightbox at
   * `k`, closing empties it, a dot click changes nothing, and previous or
   * next on a closed lightbox leave it closed.
   */
  lemma StepEffects(idx: Option<nat>, k: nat)
    ensures Step(idx, CardClick(k)) == Some(k)
    ensures Step(idx, Close) == None
    ensures Step(idx, DotClick(k)) == idx
    ensures Step(None, Prev) == None && Step(None, Next) == None
  {
  }

  /** The lightbox state after a run of events. */
  function Run(idx: Option<nat>, events: seq<Event>): Option<nat>
    decreases |events|
  {
    if events == [] then idx else Run(Step(idx, events[0]), events[1..])
  }

  /** From a closed or in-range lightbox, no run of valid events leads to an index past the last image. */
  lemma {:induction false} RunStaysInRange(idx: Option<nat>, events: seq<Event>)
    requires InRange(idx)
    requires forall i :: 0 <= i < |events| ==> ValidEvent(events[i])
    ensures InRange(Run(idx, events))
    decreases |events|
  {
    if events != [] {
      RunStaysInRange(Step(idx, events[0]), events[1..]);
    }
  }

  /** From the initial, closed lightbox, every run of valid events keeps the index in range. */
  lemma {:induction false} InitialRunStaysInRange(events: seq<Event>)
    requires forall i :: 0 <= i < |events| ==> ValidEvent(events[i])
    ensures InRange(Run(InitialIndex, events))
  {
    RunStaysInRange(InitialIndex, events);
  }
}
