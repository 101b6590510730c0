/**
 * The testimonial carousel
 * (gnomix-website/client/src/components/testimonials-section.tsx): two
 * state cells, `currentIndex` and `autoPlay`. While `autoPlay` holds, a
 * timer advances the index; any manual navigation switches `autoPlay` off,
 * which also cancels the timer, and nothing switches it on again.
 *
 * `Step` is the transition function on the state's value; the class
 * `TestimonialCarousel` holds the two cells and each handler is proved to
 * perform exactly one `Step`.
 */
module Testimonials {
  import opened Cyclic

  datatype Testimonial = Testimonial(
    id: string,
    name: string,
    role: string,
    content: string,
    rating: nat,
    initials: string,
    gradient: string)

  const Testimonials: seq<Testimonial> := [
    Testimonial("1", "Alex Chen", "Software Developer",
      "Finally! I can run pure KDE Plasma on Ubuntu with zero bloat. The Gnomix script transformed my workflow completely. One command and I have exactly the desktop I wanted.",
      5, "AC", "from-blue-500 to-cyan-400"),
    Testimonial("2", "Sarah Miller", "UX Designer",
      "What impressed me most is the choice. I can pick any desktop environment I want—from GNOME's minimalism to KDE's power. Gnomix respects what I actually need, not what Canonical thinks I should use.",
      5, "SM", "from-purple-500 to-pink-400"),
    Testimonial("3", "Marcus Johnson", "System Administrator",
      "Perfect for enterprise deployments. I can customize Ubuntu for different teams—XFCE for lightweight machines, KDE for power users, GNOME for everyone else. Gnomix handles it all seamlessly.",
      5, "MJ", "from-green-500 to-emerald-400"),
    Testimonial("4", "Elena Rodriguez", "Open Source Contributor",
      "The fact that Gnomix supports multiple desktop environments while staying completely open-source and telemetry-free is incredible. This is what Linux should be—user choice, respect for privacy.",
      5, "ER", "from-orange-500 to-red-400"),
    Testimonial("5", "David Park", "Full Stack Developer",
      "Switched from stock Ubuntu to Gnomix with XFCE for my old laptop. It's lightning-fast now. My newer machine runs Gnomix with KDE Plasma. One tool, infinite possibilities.",
      5, "DP", "from-indigo-500 to-blue-400"),
    Testimonial("6", "chichbo", "Website Designer",
      "My mom is kinda homeless \U{1F64F}, but at least she has a Linux laptop that runs fast with Gnomix \U{1F480}. Love supporting open-source projects that just work.",
      5, "CB", "from-rose-500 to-fuchsia-400")
  ]

  const Count: nat := |Testimonials|

  datatype CarouselState = CarouselState(currentIndex: nat, autoPlay: bool)

  /** The carousel starts on the first testimonial, playing. */
  const Initial := CarouselState(0, true)

  predicate InRange(s: CarouselState)
  {
    s.currentIndex < Count
  }

  /** A timer tick, the two arrow buttons, and a click on indicator `index`. */
  datatype Event = AutoTick | GoToPrev | GoToNext | Indicator(index: nat)

  /** There is one indicator per testimonial. */
  predicate ValidEvent(e: Event)
  {
    e.Indicator? ==> e.index < Count
  }

  function Step(s: CarouselState, e: Event): (r: CarouselState)
    ensures r.autoPlay ==> s.autoPlay
    ensures e != AutoTick ==> !r.autoPlay
    ensures InRange(s) && ValidEvent(e) ==> InRange(r)
  {
    match e
    case AutoTick => if s.autoPlay then s.(currentIndex := Succ(s.currentIndex, Count)) else s
    case GoToPrev => CarouselState(Pred(s.currentIndex, Count), false)
    case GoToNext => CarouselState(Succ(s.currentIndex, Count), false)
    case Indicator(k) => CarouselState(k, false)
  }

  /**
   * Where each event moves the index: a tick advances by one (wrapping)
   * only while playing, the arrows move by one either way, an indicator
   * jumps to its position.
   */
  lemma StepIndex(s: CarouselState, k: nat)
    requires InRange(s)
    ensures var i := s.currentIndex;
      && Step(s, AutoTick).currentIndex == (if s.autoPlay then (i + 1) % Count else i)
      && Step(s, GoToNext).currentIndex == (if i == Count - 1 then 0 else i + 1)
      && Step(s, GoToPrev).currentIndex == (if i == 0 then Count - 1 else i - 1)
      && Step(s, Indicator(k)).currentIndex == k
  {
  }

  /** The state after a run of events. */
  function Run(s: CarouselState, events: seq<Event>): CarouselState
    decreases |events|
  {
    if events == [] then s else Run(Step(s, events[0]), events[1..])
  }

  /** Once autoplay is off, no run of events turns it back on. */
  lemma {:induction false} AutoPlayNeverResumes(s: CarouselState, events: seq<Event>)
    requires !s.autoPlay
    ensures !Run(s, events).autoPlay
    decreases |events|
  {
    if events != [] {
      AutoPlayNeverResumes(Step(s, events[0]), events[1..]);
    }
  }

  /** Autoplay is still on after a run exactly when every event in it was a tick (and it was on before). */
  lemma {:induction false} AutoPlayOnlyThroughTicks(s: CarouselState, events: seq<Event>)
    ensures Run(s, events).autoPlay <==> s.autoPlay && forall i :: 0 <= i < |events| ==> events[i] == AutoTick
    decreases |events|
  {
    if events != [] {
      AutoPlayOnlyThroughTicks(Step(s, events[0]), events[1..]);
      if !Step(s, events[0]).autoPlay {
        AutoPlayNeverResumes(Step(s, events[0]), events[1..]);
      }
    }
  }

  /** From a state in range, every run of valid events stays in range, so the lookup of the card never fails. */
  lemma {:induction false} RunStaysInRange(s: CarouselState, events: seq<Event>)
    requires InRange(s)
    requires forall i :: 0 <= i < |events| ==> ValidEvent(events[i])
    ensures InRange(Run(s, events))
    decreases |events|
  {
    if events != [] {
      RunStaysInRange(Step(s, events[0]), events[1..]);
    }
  }

  /** With no user input, `k` ticks from a playing state show testimonial `k` steps around the ring, still playing. */
  lemma {:induction false} TicksOnly(s: CarouselState, k: nat)
    requires s.autoPlay
    ensures Run(s, seq(k, _ => AutoTick)) == CarouselState(SuccN(s.currentIndex, k, Count), true)
    decreases k
  {
    if k > 0 {
      var ticks := seq(k, _ => AutoTick);
      assert ticks == seq(k - 1, _ => AutoTick) + [AutoTick];
      RunAppendTick(s, seq(k - 1, _ => AutoTick));
      TicksOnly(s, k - 1);
    }
  }

  lemma {:induction false} RunAppendTick(s: CarouselState, events: seq<Event>)
    ensures Run(s, events + [AutoTick]) == Step(Run(s, events), AutoTick)
    decreases |events|
  {
    if events == [] {
      assert events + [AutoTick] == [AutoTick];
    } else {
      assert (events + [AutoTick])[1..] == events[1..] + [AutoTick];
      RunAppendTick(Step(s, events[0]), events[1..]);
    }
  }

  // ---------------------------------------------------------------- the component's state cells

  class TestimonialCarousel {
    var currentIndex: nat
    var autoPlay: bool

    function State(): CarouselState
      reads this
    {
      CarouselState(currentIndex, autoPlay)
    }

    ghost predicate Valid()
      reads this
    {
      InRange(State())
    }

    constructor ()
      ensures Valid() && State() == Initial
    {
      currentIndex := 0;
      autoPlay := true;
    }

    /** The interval callback; the interval exists only while autoplay is on. */
    method Tick()
      requires Valid()
      modifies this
      ensures Valid() && State() == Step(old(State()), AutoTick)
    {
      if autoPlay {
        currentIndex := (currentIndex + 1) % Count;
      }
    }

    method GoToPrev()
      requires Valid()
      modifies this
      ensures Valid() && State() == Step(old(State()), Event.GoToPrev)
    {
      autoPlay := false;
      currentIndex := (currentIndex - 1 + Count) % Count;
    }

    method GoToNext()
      requires Valid()
      modifies this
      ensures Valid() && State() == Step(old(State()), Event.GoToNext)
    {
      autoPlay := false;
      currentIndex := (currentIndex + 1) % Count;
    }

    /** A click on indicator `index`. */
    method SelectIndicator(index: nat)
      requires Valid() && index < Count
      modifies this
      ensures Valid() && State() == Step(old(State()), Indicator(index))
    {
      autoPlay := false;
      currentIndex := index;
    }

    /** The card on screen: one of the testimonials, the one at the current index. */
    function Displayed(): (r: Testimonial)
      reads this
      requires Valid()
      ensures r in Testimonials && r == Testimonials[State().currentIndex]
    {
      Testimonials[currentIndex]
    }

    /**
     * The indicator row under the card: one dot per testimonial, highlighted
     * exactly at the current index, so one dot is lit while the index is in range.
     */
    function Indicators(): (r: seq<bool>)
      reads this
      ensures |r| == Count
      ensures forall k :: 0 <= k < |r| ==> (r[k] <==> k == currentIndex)
      ensures currentIndex < Count ==> CountTrue(r) == 1
    {
      HighlightCount(currentIndex, Count);
      Highlights(currentIndex, Count)
    }
  }

  /** The card shown is the current testimonial, and exactly its indicator is highlighted. */
  lemma CarouselView(c: TestimonialCarousel, k: nat)
    requires c.Valid() && k < Count
    ensures c.Displayed() == Testimonials[c.State().currentIndex]
    ensures |c.Indicators()| == Count
    ensures c.Indicators()[k] <==> k == c.State().currentIndex
    ensures CountTrue(c.Indicators()) == 1
  {
    HighlightedIsCurrent(c.currentIndex, Count, k);
  }
}
