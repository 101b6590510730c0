/**
 * The rotating desktop-environment headline of the hero section
 * (gnomix-website/client/src/components/hero-section.tsx). A timer replaces
 * the index by `(prev + 1) % length` every few seconds; the timer is an
 * explicit `Tick` here, with no notion of time.
 */
module Hero {
  import opened Cyclic

  datatype DesktopEnvironment = DesktopEnvironment(name: string, title: string, description: string)

  const DesktopEnvironments: seq<DesktopEnvironment> := [
    DesktopEnvironment("GNOME Desktop Experience", "Pure GNOME",
      "Gets you vanilla GNOME without Yaru themes or Canonical customizations. Clean, minimalist, beautiful."),
    DesktopEnvironment("KDE Plasma", "Pure KDE Plasma",
      "Gets you vanilla KDE Plasma without Ubuntu modifications. Powerful, customizable, incredibly sleek."),
    DesktopEnvironment("XFCE Desktop", "Pure XFCE",
      "Gets you vanilla XFCE without Ubuntu bloat. Lightweight, lightning-fast, efficient."),
    DesktopEnvironment("Cinnamon Desktop", "Pure Cinnamon",
      "Gets you vanilla Cinnamon without Ubuntu customizations. Smooth, intuitive, polished."),
    DesktopEnvironment("MATE Desktop", "Pure MATE",
      "Gets you vanilla MATE without Ubuntu modifications. Stable, traditional, reliable.")
  ]

  /** The index the section starts with. */
  const InitialIndex: nat := 0

  /** One timer tick: the next environment, wrapping after the fifth. */
  function Tick(i: nat): (r: nat)
    ensures r < |DesktopEnvironments| == 5
    ensures r == (i + 1) % 5
  {
    Succ(i, |DesktopEnvironments|)
  }

  /** The index shown after `ticks` ticks: always in bounds, and `ticks` modulo five. */
  function IndexAfter(ticks: nat): (r: nat)
    ensures r < |DesktopEnvironments|
    ensures r == ticks % 5
    decreases ticks
  {
    if ticks == 0 then InitialIndex else Tick(IndexAfter(ticks - 1))
  }

  /** After exactly five ticks, from any index in range, the rotation is back where it started. */
  lemma FiveTicksReturn(i: nat)
    requires i < |DesktopEnvironments|
    ensures Tick(Tick(Tick(Tick(Tick(i))))) == i
    ensures SuccN(i, |DesktopEnvironments|, |DesktopEnvironments|) == i
  {
    FullCycle(i, |DesktopEnvironments|);
  }

  /** What the hero shows for an index: headline title, subtitle and the mock window's caption. */
  datatype HeroView = HeroView(title: string, description: string, name: string)

  /**
   * The headline, the subtitle and the caption are read from one entry, so
   * they never mix environments; every headline reads "Pure ...".
   */
  function View(i: nat): (r: HeroView)
    requires i < |DesktopEnvironments|
    ensures r.title == DesktopEnvironments[i].title && r.description == DesktopEnvironments[i].description
    ensures r.name == DesktopEnvironments[i].name
    ensures "Pure " <= r.title
  {
    var e := DesktopEnvironments[i];
    HeroView(e.title, e.description, e.name)
  }

  /**
   * `IndexAfter` and `View` unfolded together: at every moment the three
   * lookups are in bounds and all come from the same entry.
   */
  lemma ViewIsOneEntry(ticks: nat)
    ensures IndexAfter(ticks) < |DesktopEnvironments|
    ensures exists k ::
              && 0 <= k < |DesktopEnvironments|
              && View(IndexAfter(ticks)) == HeroView(DesktopEnvironments[k].title,
                                                     DesktopEnvironments[k].description,
                                                     DesktopEnvironments[k].name)
  {
    var k := IndexAfter(ticks);
    assert View(k) == HeroView(DesktopEnvironments[k].title,
      DesktopEnvironments[k].description, DesktopEnvironments[k].name);
  }
}
