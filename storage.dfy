/**
 * The in-memory content store (gnomix-website/server/storage.ts).
 *
 * `StoreState` is everything a `MemStorage` holds, as one value; the
 * functions over it are the specification the class methods are proved
 * against, and the lemmas about them are the store's guarantees: the seed
 * data, what one increment does, and that `downloads` never decreases over
 * any sequence of store calls.
 */
module Storage {
  import opened Wrappers
  import opened Schema

  datatype StoreState = StoreState(
    stats: Stats,
    downloads: seq<Download>,
    faqs: seq<FAQ>,
    features: seq<Feature>,
    testimonials: seq<Testimonial>,
    systemRequirements: seq<SystemRequirement>)

  // ---------------------------------------------------------------- seed data

  const SeedStats: Stats := Stats(8547, 50, 463, 2)

  const SeedDownloads: seq<Download> := [
    Download(
      "1", "v1.0.0", "gnomix.sh", "~2 MB", "November 5, 2025",
      "https://github.com/gnomixperson/gnomix_script/releases",
      "https://github.com/gnomixperson/gnomix_script/",
      "https://github.com/gnomixperson/gnomix_script/",
      "sha256:8f3d2c1b4a5e9f6c7d8e9a0b1c2d3e4f5a6b7c8d9e0a1b2c3d4e5f6a7b8c9d",
      true)
  ]

  const SeedFaqs: seq<FAQ> := [
    FAQ("1", "What is Gnomix?",
      "Gnomix is an Ubuntu-based Linux distribution that provides a pure, stock GNOME desktop experience. It removes Canonical's modifications, custom themes, and the Snap ecosystem to give you vanilla GNOME exactly as upstream intended.",
      "General"),
    FAQ("2", "Why choose Gnomix over Ubuntu?",
      "If you prefer the stock GNOME experience without Ubuntu's Yaru theme, Snap packages, and other Canonical modifications, Gnomix is for you. It offers a cleaner, more upstream-aligned GNOME while maintaining Ubuntu's stability and package ecosystem.",
      "General"),
    FAQ("3", "Is Gnomix stable for daily use?",
      "Gnomix is currently in beta and is actively developed. While many users run it as their daily driver, we recommend backing up important data and being prepared for potential issues. Stability improves with each release.",
      "Usage"),
    FAQ("4", "How do I install Gnomix?",
      "Download the ISO, create a bootable USB drive using Balena Etcher or Ventoy, boot from the USB, and follow the graphical installer. The process is similar to installing Ubuntu.",
      "Installation"),
    FAQ("5", "Can I still use Ubuntu packages and PPAs?",
      "Yes! Gnomix is fully compatible with Ubuntu's APT repositories and PPAs. You can install any software that works on Ubuntu. Additionally, Flatpak is available for sandboxed application installation.",
      "Usage"),
    FAQ("6", "How often are updates released?",
      "We release updates regularly, typically following major GNOME releases and important security patches. Beta releases may be more frequent as we work toward a stable release.",
      "Updates")
  ]

  const SeedFeatures: seq<Feature> := [
    Feature("1", "Stock GNOME",
      "Pure GNOME desktop environment, exactly as upstream intended. No modifications, no compromises.",
      "Sparkles"),
    Feature("2", "Snap-Free",
      "Built on Ubuntu's solid foundation, minus the Snap ecosystem. No snap store, no telemetry.",
      "Shield"),
    Feature("3", "No Ubuntu Themes",
      "Clean, vanilla GNOME aesthetics. Experience GNOME the way it was designed to look and feel.",
      "Palette"),
    Feature("4", "Active Development",
      "Currently in beta and actively maintained. Regular updates bringing the latest GNOME improvements.",
      "RefreshCw")
  ]

  const SeedTestimonials: seq<Testimonial> := [
    Testimonial("1", "Alex Chen", "Software Developer",
      "Finally, a distro that gives me stock GNOME without having to build it myself. Gnomix is exactly what I've been looking for.",
      None),
    Testimonial("2", "Sarah Miller", "UX Designer",
      "As a designer, I appreciate the attention to detail in keeping GNOME pure. No unnecessary theme modifications.",
      None),
    Testimonial("3", "Marcus Johnson", "System Administrator",
      "Switched from Ubuntu after years of removing Snaps manually. Gnomix saves me hours of configuration time.",
      None)
  ]

  const SeedSystemRequirements: seq<SystemRequirement> := [
    SystemRequirement("1", "Processor", "2 GHz dual-core", "2 GHz quad-core or better"),
    SystemRequirement("2", "Memory", "4 GB RAM", "8 GB RAM or more"),
    SystemRequirement("3", "Storage", "25 GB", "50 GB or more"),
    SystemRequirement("4", "Display", "1024×768", "1920×1080 or higher")
  ]

  /**
   * The state a freshly constructed store holds: the counters 8547, 50, 463
   * and 2, one download, six FAQs, four features, three testimonials and
   * four system requirements.
   */
  function Seed(): (r: StoreState)
    ensures r.stats == Stats(8547, 50, 463, 2)
    ensures |r.downloads| == 1 && |r.faqs| == 6 && |r.features| == 4
    ensures |r.testimonials| == 3 && |r.systemRequirements| == 4
  {
    StoreState(SeedStats, SeedDownloads, SeedFaqs, SeedFeatures, SeedTestimonials, SeedSystemRequirements)
  }

  /** The categories the seeded FAQs are filed under. */
  const FaqCategories: set<string> := {"General", "Usage", "Installation", "Updates"}

  function DownloadIds(ds: seq<Download>): seq<string> { seq(|ds|, i requires 0 <= i < |ds| => ds[i].id) }
  function FaqIds(fs: seq<FAQ>): seq<string> { seq(|fs|, i requires 0 <= i < |fs| => fs[i].id) }
  function FeatureIds(fs: seq<Feature>): seq<string> { seq(|fs|, i requires 0 <= i < |fs| => fs[i].id) }
  function TestimonialIds(ts: seq<Testimonial>): seq<string> { seq(|ts|, i requires 0 <= i < |ts| => ts[i].id) }
  function RequirementIds(rs: seq<SystemRequirement>): seq<string> { seq(|rs|, i requires 0 <= i < |rs| => rs[i].id) }

  /** Every collection of `s` has pairwise distinct ids. */
  predicate IdsDistinct(s: StoreState)
  {
    && DistinctIds(DownloadIds(s.downloads))
    && DistinctIds(FaqIds(s.faqs))
    && DistinctIds(FeatureIds(s.features))
    && DistinctIds(TestimonialIds(s.testimonials))
    && DistinctIds(RequirementIds(s.systemRequirements))
  }

  lemma SeedFaqIdsDistinct()
    ensures DistinctIds(FaqIds(SeedFaqs))
  {
  }

  lemma SeedFeatureIdsDistinct()
    ensures DistinctIds(FeatureIds(SeedFeatures))
  {
  }

  lemma SeedTestimonialIdsDistinct()
    ensures DistinctIds(TestimonialIds(SeedTestimonials))
  {
  }

  lemma SeedRequirementIdsDistinct()
    ensures DistinctIds(RequirementIds(SeedSystemRequirements))
  {
  }

  /** In every seeded collection the ids are pairwise distinct. */
  lemma SeedIdsDistinct()
    ensures IdsDistinct(Seed())
  {
    assert DownloadIds(SeedDownloads) == ["1"];
    SeedFaqIdsDistinct();
    SeedFeatureIdsDistinct();
    SeedTestimonialIdsDistinct();
    SeedRequirementIdsDistinct();
  }

  /** Every seeded FAQ is filed under one of the four known categories. */
  lemma SeedFaqCategories()
    ensures forall i :: 0 <= i < |Seed().faqs| ==> Seed().faqs[i].category in FaqCategories
  {
  }

  // ---------------------------------------------------------------- operations

  /** The effect of `incrementDownloads` on the store. */
  function Increment(s: StoreState): (r: StoreState)
    ensures r.stats.downloads == s.stats.downloads + 1
    ensures r.stats.communityMembers == s.stats.communityMembers
    ensures r.stats.githubStars == s.stats.githubStars
    ensures r.stats.contributors == s.stats.contributors
    ensures r.downloads == s.downloads && r.faqs == s.faqs && r.features == s.features
    ensures r.testimonials == s.testimonials && r.systemRequirements == s.systemRequirements
  {
    s.(stats := s.stats.(downloads := s.stats.downloads + 1))
  }

  /** What `getLatestDownload` returns: the first download, or nothing. */
  function Latest(s: StoreState): (r: Option<Download>)
    ensures r.Some? <==> |s.downloads| > 0
    ensures r.Some? ==> r.value == s.downloads[0]
  {
    if |s.downloads| > 0 then Some(s.downloads[0]) else None
  }

  /** The eight operations of the store's interface. */
  datatype StoreOp =
    | GetStats
    | IncrementDownloads
    | GetDownloads
    | GetLatestDownload
    | GetFAQs
    | GetFeatures
    | GetTestimonials
    | GetSystemRequirements

  /** What a store operation hands back to its caller. */
  datatype Reply =
    | StatsReply(stats: Stats)
    | DownloadsReply(downloads: seq<Download>)
    | LatestReply(latest: Option<Download>)
    | FaqsReply(faqs: seq<FAQ>)
    | FeaturesReply(features: seq<Feature>)
    | TestimonialsReply(testimonials: seq<Testimonial>)
    | RequirementsReply(requirements: seq<SystemRequirement>)

  datatype CallResult = CallResult(reply: Reply, next: StoreState)

  /** One store operation on state `s`: its reply and the state afterwards. */
  function Call(op: StoreOp, s: StoreState): (r: CallResult)
    ensures op != IncrementDownloads ==> r.next == s
    ensures op == IncrementDownloads ==> r.next == Increment(s) && r.reply == StatsReply(r.next.stats)
    ensures op == GetStats ==> r.reply == StatsReply(s.stats)
    ensures op == GetLatestDownload ==> r.reply == LatestReply(Latest(s))
    ensures op == GetDownloads ==> r.reply == DownloadsReply(s.downloads)
    ensures op == GetFAQs ==> r.reply == FaqsReply(s.faqs)
    ensures op == GetFeatures ==> r.reply == FeaturesReply(s.features)
    ensures op == GetTestimonials ==> r.reply == TestimonialsReply(s.testimonials)
    ensures op == GetSystemRequirements ==> r.reply == RequirementsReply(s.systemRequirements)
  {
    match op
    case GetStats => CallResult(StatsReply(s.stats), s)
    case IncrementDownloads =>
      var s' := Increment(s);
      CallResult(StatsReply(s'.stats), s')
    case GetDownloads => CallResult(DownloadsReply(s.downloads), s)
    case GetLatestDownload => CallResult(LatestReply(Latest(s)), s)
    case GetFAQs => CallResult(FaqsReply(s.faqs), s)
    case GetFeatures => CallResult(FeaturesReply(s.features), s)
    case GetTestimonials => CallResult(TestimonialsReply(s.testimonials), s)
    case GetSystemRequirements => CallResult(RequirementsReply(s.systemRequirements), s)
  }

  /** The state after performing `ops` in order, starting from `s`. */
  function Run(s: StoreState, ops: seq<StoreOp>): StoreState
    decreases |ops|
  {
    if ops == [] then s else Run(Call(ops[0], s).next, ops[1..])
  }

  /** How many of `ops` are increments. */
  function Increments(ops: seq<StoreOp>): nat
    decreases |ops|
  {
    if ops == [] then 0 else (if ops[0] == IncrementDownloads then 1 else 0) + Increments(ops[1..])
  }

  /** `s` with `n` more downloads and nothing else changed. */
  function WithMoreDownloads(s: StoreState, n: nat): StoreState
  {
    s.(stats := s.stats.(downloads := s.stats.downloads + n))
  }

  /**
   * Any sequence of store calls raises `downloads` by exactly the number of
   * increments in it and changes nothing else: no increment is lost.
   */
  lemma {:induction false} RunEffect(s: StoreState, ops: seq<StoreOp>)
    ensures Run(s, ops) == WithMoreDownloads(s, Increments(ops))
    decreases |ops|
  {
    if ops != [] {
      RunEffect(Call(ops[0], s).next, ops[1..]);
    }
  }

  lemma {:induction false} RunAppend(s: StoreState, xs: seq<StoreOp>, ys: seq<StoreOp>)
    ensures Run(s, xs + ys) == Run(Run(s, xs), ys)
    decreases |xs|
  {
    if xs != [] {
      assert (xs + ys)[1..] == xs[1..] + ys;
      RunAppend(Call(xs[0], s).next, xs[1..], ys);
    } else {
      assert xs + ys == ys;
    }
  }

  /** `downloads` never decreases: a later point of any run has at least as many. */
  lemma DownloadsNeverDecrease(s: StoreState, ops: seq<StoreOp>, i: nat, j: nat)
    requires i <= j <= |ops|
    ensures Run(s, ops[..i]).stats.downloads <= Run(s, ops[..j]).stats.downloads
  {
    assert ops[..j] == ops[..i] + ops[i..j];
    RunAppend(s, ops[..i], ops[i..j]);
    RunEffect(Run(s, ops[..i]), ops[i..j]);
  }

  // ---------------------------------------------------------------- the class

  /** The store object: one mutable `Stats` record and five fixed collections. */
  class MemStorage {
    var stats: Stats
    var downloads: seq<Download>
    var faqs: seq<FAQ>
    var features: seq<Feature>
    var testimonials: seq<Testimonial>
    var systemRequirements: seq<SystemRequirement>

    /** The abstract value of this store. */
    function State(): StoreState
      reads this
    {
      StoreState(stats, downloads, faqs, features, testimonials, systemRequirements)
    }

    constructor ()
      ensures State() == Seed()
      ensures stats == Stats(8547, 50, 463, 2)
    {
      stats := SeedStats;
      downloads := SeedDownloads;
      faqs := SeedFaqs;
      features := SeedFeatures;
      testimonials := SeedTestimonials;
      systemRequirements := SeedSystemRequirements;
    }

    method GetStats() returns (r: Stats)
      ensures r == stats
    {
      r := stats;
    }

    /** Adds one download and returns the updated counters. */
    method IncrementDownloads() returns (r: Stats)
      modifies this`stats
      ensures stats.downloads == old(stats.downloads) + 1
      ensures stats.communityMembers == old(stats.communityMembers)
      ensures stats.githubStars == old(stats.githubStars)
      ensures stats.contributors == old(stats.contributors)
      ensures r == stats
      ensures State() == Increment(old(State()))
    {
      stats := stats.(downloads := stats.downloads + 1);
      r := stats;
    }

    method GetDownloads() returns (r: seq<Download>)
      ensures r == downloads
    {
      r := downloads;
    }

    /** The first download, or `None` when there is none. */
    method GetLatestDownload() returns (r: Option<Download>)
      ensures r.Some? <==> |downloads| > 0
      ensures r.Some? ==> r.value == downloads[0]
    {
      if |downloads| > 0 {
        r := Some(downloads[0]);
      } else {
        r := None;
      }
    }

    method GetFAQs() returns (r: seq<FAQ>)
      ensures r == faqs
    {
      r := faqs;
    }

    method GetFeatures() returns (r: seq<Feature>)
      ensures r == features
    {
      r := features;
    }

    method GetTestimonials() returns (r: seq<Testimonial>)
      ensures r == testimonials
    {
      r := testimonials;
    }

    method GetSystemRequirements() returns (r: seq<SystemRequirement>)
      ensures r == systemRequirements
    {
      r := systemRequirements;
    }
  }
}
