/** The service detail page's content selection: the lookup of the route's
    slug in the service table, the slug-keyed helper tables with their
    fallbacks, and the single-open accordion. The marketing text itself is
    not modelled; a table entry is represented by the slug it is keyed
    on. */
module ServiceContent {

  import opened Wrappers

  /** The slugs of the service table, in table order. */
  const ServiceSlugs: seq<string> := [
    "electrical-installation-repair",
    "remodeling-renovations",
    "ev-charger-installation",
    "residential-services",
    "commercial-services",
    "adu-electrical-services",
    "insurance-electrical-work",
    "security-systems",
    "network-data-cabling",
    "audio-video-installation"]

  /* The key sets of the page's six slug-keyed helper tables, each as
     written in its own table. */

  const ServiceHeadingKeys: set<string> := {
    "electrical-installation-repair", "remodeling-renovations", "ev-charger-installation",
    "residential-services", "commercial-services", "adu-electrical-services",
    "insurance-electrical-work", "security-systems", "network-data-cabling",
    "audio-video-installation"}

  const ServiceDescriptionKeys: set<string> := {
    "electrical-installation-repair", "remodeling-renovations", "ev-charger-installation",
    "residential-services", "commercial-services", "adu-electrical-services",
    "insurance-electrical-work", "security-systems", "network-data-cabling",
    "audio-video-installation"}

  const BulletListHeadingKeys: set<string> := {
    "electrical-installation-repair", "remodeling-renovations", "ev-charger-installation",
    "residential-services", "commercial-services", "adu-electrical-services",
    "insurance-electrical-work", "security-systems", "network-data-cabling",
    "audio-video-installation"}

  const AdditionalDescriptionKeys: set<string> := {
    "electrical-installation-repair", "remodeling-renovations", "ev-charger-installation",
    "residential-services", "commercial-services", "adu-electrical-services",
    "insurance-electrical-work", "security-systems", "network-data-cabling",
    "audio-video-installation"}

  const AccordionHeadingKeys: set<string> := {
    "electrical-installation-repair", "remodeling-renovations", "ev-charger-installation",
    "residential-services", "commercial-services", "adu-electrical-services",
    "insurance-electrical-work", "security-systems", "network-data-cabling",
    "audio-video-installation"}

  const AccordionItemKeys: set<string> := {
    "electrical-installation-repair", "remodeling-renovations", "ev-charger-installation",
    "residential-services", "commercial-services", "adu-electrical-services",
    "insurance-electrical-work", "security-systems", "network-data-cabling",
    "audio-video-installation"}

  /** Every service has four accordion entries. */
  const AccordionEntriesPerService: nat := 4

  /** Position of the first entry of `slugs` equal to `slug`, searching from
      `from`, as `Array.prototype.find` does. */
  function FindFrom(slugs: seq<string>, slug: string, from: nat): (r: Option<nat>)
    requires from <= |slugs|
    ensures r.Some? ==> from <= r.value < |slugs| && slugs[r.value] == slug
    ensures r.Some? ==> forall j :: from <= j < r.value ==> slugs[j] != slug
    ensures r.None? ==> forall j :: from <= j < |slugs| ==> slugs[j] != slug
    decreases |slugs| - from
  {
    if from == |slugs| then None
    else if slugs[from] == slug then Some(from)
    else FindFrom(slugs, slug, from + 1)
  }

  /** What the page renders for a route slug. */
  datatype Page = NotFound | Detail(service: nat)

  function PageFor(slug: string): (p: Page)
    ensures p.NotFound? <==> slug !in ServiceSlugs
    ensures p.Detail? ==> p.service < |ServiceSlugs| && ServiceSlugs[p.service] == slug
  {
    match FindFrom(ServiceSlugs, slug, 0)
    case None => NotFound
    case Some(i) => Detail(i)
  }

  /** What a string helper renders: the table's (non-empty) entry for the
      slug, or its fixed fallback string. */
  datatype Text = Entry(slug: string) | Fallback(text: string)

  /** `table[slug] || fallback` over a table keyed by `keys`. */
  function Lookup(keys: set<string>, slug: string, fallback: string): (t: Text)
    ensures t.Entry? <==> slug in keys
    ensures t.Entry? ==> t.slug == slug
    ensures t.Fallback? ==> t.text == fallback
  {
    if slug in keys then Entry(slug) else Fallback(fallback)
  }

  function GetServiceHeading(slug: string): Text {
    Lookup(ServiceHeadingKeys, slug, "")
  }

  function GetServiceDescription(slug: string): Text {
    Lookup(ServiceDescriptionKeys, slug, "")
  }

  function GetBulletListHeading(slug: string): Text {
    Lookup(BulletListHeadingKeys, slug, "Our Services Include:")
  }

  function GetAdditionalDescription(slug: string): Text {
    Lookup(AdditionalDescriptionKeys, slug, "")
  }

  function GetAccordionHeading(slug: string): Text {
    Lookup(AccordionHeadingKeys, slug, "Services We Offer")
  }

  /** Number of accordion entries for a slug: `items[slug] || []`, where an
      array is never falsy. */
  function AccordionLength(slug: string): nat {
    if slug in AccordionItemKeys then AccordionEntriesPerService else 0
  }

  /** Every helper table is keyed by exactly the slugs of the service
      table: no service lacks an entry, and no table has a stray key. */
  lemma HelperTablesKeyedByServiceSlugs(slug: string)
    ensures slug in ServiceHeadingKeys <==> slug in ServiceSlugs
    ensures slug in ServiceDescriptionKeys <==> slug in ServiceSlugs
    ensures slug in BulletListHeadingKeys <==> slug in ServiceSlugs
    ensures slug in AdditionalDescriptionKeys <==> slug in ServiceSlugs
    ensures slug in AccordionHeadingKeys <==> slug in ServiceSlugs
    ensures slug in AccordionItemKeys <==> slug in ServiceSlugs
  {
  }

  /** An unknown slug renders "Service Not Found". */
  lemma UnknownSlugNotFound(slug: string)
    requires slug !in ServiceSlugs
    ensures PageFor(slug) == NotFound
  {
  }

  /** For a slug outside their tables, every helper falls back to its
      default, and the accordion is empty. */
  lemma UnknownSlugFallbacks(slug: string)
    requires slug !in ServiceSlugs
    ensures GetServiceHeading(slug) == Fallback("")
    ensures GetServiceDescription(slug) == Fallback("")
    ensures GetBulletListHeading(slug) == Fallback("Our Services Include:")
    ensures GetAdditionalDescription(slug) == Fallback("")
    ensures GetAccordionHeading(slug) == Fallback("Services We Offer")
    ensures AccordionLength(slug) == 0
  {
  }

  /** A known slug renders its service, and no helper falls back. */
  lemma KnownSlug(slug: string)
    requires slug in ServiceSlugs
    ensures PageFor(slug).Detail?
    ensures GetServiceHeading(slug) == Entry(slug)
    ensures GetServiceDescription(slug) == Entry(slug)
    ensures GetBulletListHeading(slug) == Entry(slug)
    ensures GetAdditionalDescription(slug) == Entry(slug)
    ensures GetAccordionHeading(slug) == Entry(slug)
    ensures AccordionLength(slug) == AccordionEntriesPerService
  {
  }

  /** The accordion: `null` or the index of the one open entry. */
  type Expanded = Option<nat>

  /** The first entry starts open. */
  const InitialExpanded: Expanded := Some(0)

  predicate IsOpen(e: Expanded, j: nat) {
    e == Some(j)
  }

  /** A click on the header of entry `i`. */
  function Toggle(e: Expanded, i: nat): (r: Expanded)
    ensures IsOpen(e, i) ==> r.None?
    ensures !IsOpen(e, i) ==> IsOpen(r, i)
  {
    if e == Some(i) then None else Some(i)
  }

  /** At most one entry is open at a time. */
  lemma AtMostOneOpen(e: Expanded, j: nat, k: nat)
    requires IsOpen(e, j) && IsOpen(e, k)
    ensures j == k
  {
  }

  /** After a click on entry `i`, entry `j` is open exactly when it is the
      clicked entry and that entry was closed. */
  lemma ToggleOpensOnlyClicked(e: Expanded, i: nat, j: nat)
    ensures IsOpen(Toggle(e, i), j) <==> (j == i && !IsOpen(e, i))
  {
  }

  /** Two clicks on the same header restore the accordion when that entry
      was open or nothing was. */
  lemma ToggleTwice(e: Expanded, i: nat)
    requires e.None? || IsOpen(e, i)
    ensures Toggle(Toggle(e, i), i) == e
  {
  }

  /** The accordion after a sequence of header clicks. */
  function ToggleAll(e: Expanded, clicks: seq<nat>): Expanded
    decreases |clicks|
  {
    if clicks == [] then e else ToggleAll(Toggle(e, clicks[0]), clicks[1..])
  }

  predicate InRange(e: Expanded, n: nat) {
    e.None? || e.value < n
  }

  /** On a rendered service page the open entry, if any, always names one of
      its accordion entries. */
  lemma {:induction false} ExpandedStaysInRange(slug: string, e: Expanded, clicks: seq<nat>)
    requires slug in ServiceSlugs
    requires InRange(e, AccordionLength(slug))
    requires forall k :: 0 <= k < |clicks| ==> clicks[k] < AccordionLength(slug)
    ensures InRange(ToggleAll(e, clicks), AccordionLength(slug))
    decreases |clicks|
  {
    if clicks != [] {
      ExpandedStaysInRange(slug, Toggle(e, clicks[0]), clicks[1..]);
    }
  }

  /** The initial open entry exists on every rendered service page. */
  lemma InitialInRange(slug: string)
    requires slug in ServiceSlugs
    ensures InRange(InitialExpanded, AccordionLength(slug))
  {
  }
}
