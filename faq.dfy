/**
 * The FAQ section (gnomix-website/client/src/components/faq-section.tsx):
 * a search box that filters the questions, and an accordion in which at
 * most one item is open. The two state cells, `openIndex` (a position in
 * the filtered list, or none) and `searchQuery`, are fields of
 * `FaqSection`; the filter itself is a function.
 */
module Faq {
  import opened Wrappers
  import opened Cyclic

  datatype FaqEntry = FaqEntry(question: string, answer: string, category: string)

  const Faqs: seq<FaqEntry> := [
    FaqEntry("What is Gnomix?",
      "Gnomix is a powerful customization script that transforms your Ubuntu system into a pure, vanilla desktop environment. It strips away Canonical modifications, Snap packages, and bloatware—giving you your choice of GNOME, KDE Plasma, XFCE, Cinnamon, MATE, or any desktop environment exactly as intended. No compromises, just beautiful Linux.",
      "General"),
    FaqEntry("Which desktop environments does Gnomix support?",
      "Gnomix currently supports GNOME, KDE Plasma, XFCE, Cinnamon, and MATE. You choose which desktop environment you want during installation. More environments may be added in the future.",
      "General"),
    FaqEntry("Why use Gnomix instead of stock Ubuntu?",
      "Gnomix gives you the performance and clean design of stock desktop environments without Ubuntu's Yaru theme, Snap ecosystem, and unwanted services. You get a faster, leaner system while keeping full access to Ubuntu's extensive software ecosystem.",
      "General"),
    FaqEntry("Do I need to reinstall my system to use Gnomix?",
      "No! Gnomix works on an existing Ubuntu installation. Just run the script and your system is transformed. All your files, settings, and installed applications remain intact.",
      "Installation"),
    FaqEntry("How do I install and run Gnomix?",
      "Download the script from GitHub and run it with: `bash gnomix.sh`. The script handles everything automatically—removes Snap, installs your chosen desktop environment, removes Ubuntu customizations, and optimizes your system. Takes 5-10 minutes.",
      "Installation"),
    FaqEntry("Is Gnomix safe to use?",
      "Yes! The Gnomix script is non-destructive and only removes packages and services. It never touches your personal files or data. We recommend backing up your system first as a precaution with any significant changes.",
      "Safety"),
    FaqEntry("Can I still use Ubuntu packages and PPAs?",
      "Yes! 100% compatible. Gnomix keeps Ubuntu's full APT repository and PPAs intact. Install anything you want normally. Flatpak and Snap (if desired) are also available for sandboxed applications.",
      "Usage"),
    FaqEntry("Can I undo the changes or switch desktop environments?",
      "The script doesn't delete system files, just removes and installs packages. You can reinstall any removed packages anytime with `apt install`, or run the script again to switch to a different desktop environment.",
      "Safety"),
    FaqEntry("Does Gnomix collect any data?",
      "No telemetry, no tracking, no data collection—ever. The script is fully open-source on GitHub. Your privacy and system control are paramount.",
      "Privacy"),
    FaqEntry("How can I contribute or get support?",
      "Visit our GitHub repository to report bugs, suggest features, or contribute code. Join our Discord community to connect with other users, share feedback, and get support.",
      "Community")
  ]

  // ---------------------------------------------------------------- search

  /** Lower-casing of one character, for the ASCII letters. */
  function LowerChar(c: char): (r: char)
    ensures !('A' <= r <= 'Z')
    ensures 'A' <= c <= 'Z' ==> 'a' <= r <= 'z' && r as int == c as int + 32
    ensures !('A' <= c <= 'Z') ==> r == c
  {
    if 'A' <= c <= 'Z' then (c as int + 32) as char else c
  }

  function Lower(s: string): (r: string)
    ensures |r| == |s|
    ensures forall i :: 0 <= i < |r| ==> !('A' <= r[i] <= 'Z')
  {
    seq(|s|, i requires 0 <= i < |s| => LowerChar(s[i]))
  }

  /** Lower-casing twice is lower-casing once. */
  lemma LowerIdempotent(s: string)
    ensures Lower(Lower(s)) == Lower(s)
  {
  }

  /** `needle` occurs in `hay` as a contiguous block (`String.prototype.includes`). */
  predicate Includes(hay: string, needle: string)
    ensures Includes(hay, needle) ==> |needle| <= |hay|
    ensures needle == [] ==> Includes(hay, needle)
    decreases |hay|
  {
    needle <= hay || (hay != [] && Includes(hay[1..], needle))
  }

  /** `Includes` holds exactly when `needle` sits at some offset of `hay`. */
  lemma {:induction false} IncludesAtOffset(hay: string, needle: string)
    ensures Includes(hay, needle) <==>
      exists i :: 0 <= i <= |hay| && needle <= hay[i..]
    decreases |hay|
  {
    if hay == [] {
      assert hay[0..] == hay;
    } else {
      IncludesAtOffset(hay[1..], needle);
      if Includes(hay, needle) {
        if needle <= hay {
          assert hay[0..] == hay;
        } else {
          assert Includes(hay[1..], needle);
          var i :| 0 <= i <= |hay[1..]| && needle <= hay[1..][i..];
          assert hay[1..][i..] == hay[i + 1..];
        }
      }
      if exists i :: 0 <= i <= |hay| && needle <= hay[i..] {
        var i :| 0 <= i <= |hay| && needle <= hay[i..];
        if i == 0 {
          assert hay[0..] == hay;
        } else {
          assert hay[1..][i - 1..] == hay[i..];
          assert Includes(hay[1..], needle);
        }
        assert Includes(hay, needle);
      }
    }
  }

  /** Whether an FAQ is kept for query `q`: the case-folded query occurs in its question or its answer. */
  predicate Matches(f: FaqEntry, q: string)
    ensures q == "" ==> Matches(f, q)
  {
    Includes(Lower(f.question), Lower(q)) || Includes(Lower(f.answer), Lower(q))
  }

  /** `faqs.filter(...)`: the matching FAQs, in their order. */
  function Filter(faqs: seq<FaqEntry>, q: string): (r: seq<FaqEntry>)
    ensures |r| <= |faqs|
    ensures forall i :: 0 <= i < |r| ==> r[i] in faqs && Matches(r[i], q)
    decreases |faqs|
  {
    if faqs == [] then []
    else (if Matches(faqs[0], q) then [faqs[0]] else []) + Filter(faqs[1..], q)
  }

  /** An FAQ is in the filtered list iff it is in the list and matches the query. */
  lemma {:induction false} FilterMembership(faqs: seq<FaqEntry>, q: string, f: FaqEntry)
    ensures f in Filter(faqs, q) <==> f in faqs && Matches(f, q)
    decreases |faqs|
  {
    if faqs != [] {
      FilterMembership(faqs[1..], q, f);
      assert faqs == [faqs[0]] + faqs[1..];
    }
  }

  /** Each matching FAQ is kept as often as it occurs in the list; a non-matching one never. */
  lemma {:induction false} FilterCount(faqs: seq<FaqEntry>, q: string, f: FaqEntry)
    ensures multiset(Filter(faqs, q))[f] == if Matches(f, q) then multiset(faqs)[f] else 0
    decreases |faqs|
  {
    if faqs != [] {
      FilterCount(faqs[1..], q, f);
      assert faqs == [faqs[0]] + faqs[1..];
      assert multiset(faqs) == multiset([faqs[0]]) + multiset(faqs[1..]);
      var head := if Matches(faqs[0], q) then [faqs[0]] else [];
      assert Filter(faqs, q) == head + Filter(faqs[1..], q);
      assert multiset(Filter(faqs, q)) == multiset(head) + multiset(Filter(faqs[1..], q));
    }
  }

  /** `xs` is `ys` with some elements left out, the rest in their order. */
  predicate IsSubsequence(xs: seq<FaqEntry>, ys: seq<FaqEntry>)
    decreases |ys|
  {
    if xs == [] then true
    else if ys == [] then false
    else (xs[0] == ys[0] && IsSubsequence(xs[1..], ys[1..])) || IsSubsequence(xs, ys[1..])
  }

  /** The filtered list is an order-preserving subsequence of the list. */
  lemma {:induction false} FilterIsSubsequence(faqs: seq<FaqEntry>, q: string)
    ensures IsSubsequence(Filter(faqs, q), faqs)
    decreases |faqs|
  {
    if faqs != [] {
      FilterIsSubsequence(faqs[1..], q);
      var rest := Filter(faqs[1..], q);
      if Matches(faqs[0], q) {
        assert Filter(faqs, q) == [faqs[0]] + rest;
        assert ([faqs[0]] + rest)[1..] == rest;
      } else {
        assert Filter(faqs, q) == rest;
        if rest != [] {
          assert IsSubsequence(rest, faqs);
        }
      }
    }
  }

  /** An empty query keeps every FAQ. */
  lemma {:induction false} EmptyQueryKeepsAll(faqs: seq<FaqEntry>)
    ensures Filter(faqs, "") == faqs
    decreases |faqs|
  {
    if faqs != [] {
      assert Lower("") == "";
      EmptyQueryKeepsAll(faqs[1..]);
      assert faqs == [faqs[0]] + faqs[1..];
    }
  }

  /** The search ignores the case of the query: it matches as its lower-cased form does. */
  lemma {:induction false} QueryCaseIgnored(faqs: seq<FaqEntry>, q: string)
    ensures Filter(faqs, q) == Filter(faqs, Lower(q))
    decreases |faqs|
  {
    LowerIdempotent(q);
    if faqs != [] {
      QueryCaseIgnored(faqs[1..], q);
    }
  }

  /** Nothing is left exactly when no FAQ matches. */
  lemma NothingFoundIff(faqs: seq<FaqEntry>, q: string)
    ensures |Filter(faqs, q)| == 0 <==> forall i :: 0 <= i < |faqs| ==> !Matches(faqs[i], q)
  {
    if |Filter(faqs, q)| == 0 {
      forall i | 0 <= i < |faqs| ensures !Matches(faqs[i], q) {
        FilterMembership(faqs, q, faqs[i]);
      }
    } else {
      var f := Filter(faqs, q)[0];
      FilterMembership(faqs, q, f);
      var i :| 0 <= i < |faqs| && faqs[i] == f;
    }
  }

  // ---------------------------------------------------------------- the accordion

  /** The toggle of item `index`: closing it if it is the open one, opening it (alone) otherwise. */
  function Toggle(open: Option<nat>, index: nat): (r: Option<nat>)
    ensures r.None? <==> open == Some(index)
    ensures r.Some? ==> r.value == index
  {
    if open == Some(index) then None else Some(index)
  }

  /** Whether each of `n` rendered items is open. */
  function OpenFlags(open: Option<nat>, n: nat): (r: seq<bool>)
    ensures |r| == n
    ensures forall k :: 0 <= k < n ==> (r[k] <==> open == Some(k))
  {
    seq(n, k => open == Some(k))
  }

  /** At most one item is open; exactly one when the open position is among the rendered items. */
  lemma AtMostOneOpen(open: Option<nat>, n: nat)
    ensures CountTrue(OpenFlags(open, n)) == if open.Some? && open.value < n then 1 else 0
  {
    var c := if open.Some? then open.value else n;
    assert OpenFlags(open, n) == Highlights(c, n);
    HighlightCount(c, n);
  }

  /** Toggling the open item closes everything; toggling another item makes it the only open one. */
  lemma ToggleEffect(open: Option<nat>, index: nat, n: nat, k: nat)
    requires index < n && k < n
    ensures open == Some(index) ==> CountTrue(OpenFlags(Toggle(open, index), n)) == 0
    ensures open != Some(index) ==> CountTrue(OpenFlags(Toggle(open, index), n)) == 1
    ensures OpenFlags(Toggle(open, index), n)[k] <==> k == index && open != Some(index)
  {
    AtMostOneOpen(Toggle(open, index), n);
  }

  // ---------------------------------------------------------------- the component

  /** What the list area shows: the items with their open flags, or the no-result message. */
  datatype ListView = Items(items: seq<FaqEntry>, open: seq<bool>) | NothingFound(message: string)

  function NothingFoundMessage(q: string): string
  {
    "No questions found matching \"" + q + "\""
  }

  class FaqSection {
    var openIndex: Option<nat>
    var searchQuery: string

    /** The first item starts open and the search box empty. */
    constructor ()
      ensures openIndex == Some(0) && searchQuery == ""
    {
      openIndex := Some(0);
      searchQuery := "";
    }

    /** The FAQs the current query keeps. */
    function Visible(): seq<FaqEntry>
      reads this
    {
      Filter(Faqs, searchQuery)
    }

    function View(): (r: ListView)
      reads this
      ensures r.NothingFound? <==> |Visible()| == 0
      ensures r.Items? ==> r.items == Visible() && |r.open| == |Visible()|
      ensures r.Items? ==> forall k :: 0 <= k < |r.open| ==> (r.open[k] <==> openIndex == Some(k))
    {
      var visible := Visible();
      if |visible| > 0 then Items(visible, OpenFlags(openIndex, |visible|))
      else NothingFound(NothingFoundMessage(searchQuery))
    }

    /** The click handler of visible item `index`. */
    method ToggleItem(index: nat)
      modifies this`openIndex
      ensures openIndex == Toggle(old(openIndex), index)
      ensures searchQuery == old(searchQuery)
    {
      openIndex := if openIndex == Some(index) then None else Some(index);
    }

    /** Typing in the search box: the query changes, the open position does not. */
    method SetSearchQuery(q: string)
      modifies this`searchQuery
      ensures searchQuery == q
      ensures openIndex == old(openIndex)
    {
      searchQuery := q;
    }
  }

  /**
   * The no-result message is shown exactly when no FAQ matches the query;
   * otherwise the items shown are the matching ones and at most one is open.
   */
  lemma ViewBranches(s: FaqSection)
    ensures s.View().NothingFound? <==> forall i :: 0 <= i < |Faqs| ==> !Matches(Faqs[i], s.searchQuery)
    ensures s.View().NothingFound? ==> s.View().message == NothingFoundMessage(s.searchQuery)
    ensures s.View().Items? ==> s.View().items == Filter(Faqs, s.searchQuery)
    ensures s.View().Items? ==> CountTrue(s.View().open) <= 1
  {
    var v := s.View();
    NothingFoundIff(Faqs, s.searchQuery);
    if v.Items? {
      assert v.open == OpenFlags(s.openIndex, |s.Visible()|);
      AtMostOneOpen(s.openIndex, |s.Visible()|);
    }
  }
}
