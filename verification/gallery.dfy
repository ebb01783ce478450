/** The gallery page's lightbox: a nullable selected index over a fixed,
    non-empty list of project photos, with wrap-around previous/next
    navigation, keyboard shortcuts and three ways to close. */
module Gallery {

  import opened Wrappers

  /** One gallery entry. Its text (title, category, description) is copy and
      is kept only as opaque strings. */
  datatype Item = Item(id: string, image: string, title: string, category: string, description: string)

  /** Number of entries in the page's fixed list of photos. */
  const GallerySize: nat := 26

  /** `null` or the index of the photo shown in the lightbox. */
  type Selection = Option<nat>

  /** The selection is null or an index into a list of `n` photos. */
  predicate Valid(n: nat, sel: Selection) {
    sel.None? || sel.value < n
  }

  /** Index shown after "next": the last photo wraps to the first. */
  function Next(n: nat, i: nat): (j: nat)
    requires i < n
    ensures j < n
    ensures i == n - 1 ==> j == 0
    ensures i < n - 1 ==> j == i + 1
  {
    if i < n - 1 then i + 1 else 0
  }

  /** Index shown after "previous": the first photo wraps to the last. */
  function Previous(n: nat, i: nat): (j: nat)
    requires i < n
    ensures j < n
    ensures i == 0 ==> j == n - 1
    ensures i > 0 ==> j == i - 1
  {
    if i > 0 then i - 1 else n - 1
  }

  /** Next and previous are the successor and predecessor modulo `n`. */
  lemma NavigationIsModular(n: nat, i: nat)
    requires i < n
    ensures Next(n, i) == (i + 1) % n
    ensures Previous(n, i) == (i - 1 + n) % n
  {
  }

  /** Previous undoes next and next undoes previous. */
  lemma NextPreviousInverse(n: nat, i: nat)
    requires i < n
    ensures Previous(n, Next(n, i)) == i
    ensures Next(n, Previous(n, i)) == i
  {
  }

  /** `k` presses of "next" starting at `i`. */
  function NextTimes(n: nat, i: nat, k: nat): (j: nat)
    requires i < n
    ensures j < n
    decreases k
  {
    if k == 0 then i else Next(n, NextTimes(n, i, k - 1))
  }

  /** Below the wrap point, `k` presses of "next" just add `k`. */
  lemma {:induction false} NextTimesBelowWrap(n: nat, i: nat, k: nat)
    requires i + k < n
    ensures NextTimes(n, i, k) == i + k
    decreases k
  {
    if k > 0 {
      NextTimesBelowWrap(n, i, k - 1);
    }
  }

  /** Presses of "next" compose: `a` presses then `b` presses is `a + b`. */
  lemma {:induction false} NextTimesCompose(n: nat, i: nat, a: nat, b: nat)
    requires i < n
    ensures NextTimes(n, NextTimes(n, i, a), b) == NextTimes(n, i, a + b)
    decreases b
  {
    if b > 0 {
      NextTimesCompose(n, i, a, b - 1);
    }
  }

  /** Going round the whole list with "next" comes back to the start. */
  lemma NextFullCircle(n: nat, i: nat)
    requires i < n
    ensures NextTimes(n, i, n) == i
  {
    NextTimesBelowWrap(n, i, n - 1 - i);
    assert NextTimes(n, i, n - i) == 0;
    NextTimesCompose(n, i, n - i, i);
    if i > 0 {
      NextTimesBelowWrap(n, 0, i);
    }
  }

  /** The things a visitor can do on the page. Key events carry the
      `KeyboardEvent.key` string. */
  datatype Event =
    | CardClick(index: nat)    // a card in the grid (covered while a photo is shown)
    | PreviousButton           // the lightbox's left arrow
    | NextButton               // the lightbox's right arrow
    | CloseButton              // the lightbox's X
    | BackdropClick            // the dark overlay around the photo
    | ContentClick             // the photo and caption panel
    | KeyDown(key: string)

  /** Keyboard handling while a photo is shown. */
  function HandleKey(n: nat, i: nat, key: string): (r: Selection)
    requires i < n
    ensures key == "ArrowLeft" ==> r == Some(Previous(n, i))
    ensures key == "ArrowRight" ==> r == Some(Next(n, i))
    ensures key == "Escape" ==> r == None
    ensures key !in {"ArrowLeft", "ArrowRight", "Escape"} ==> r == Some(i)
  {
    if key == "ArrowLeft" then Some(Previous(n, i))
    else if key == "ArrowRight" then Some(Next(n, i))
    else if key == "Escape" then None
    else Some(i)
  }

  /** The page's response to one event, over a list of `n` photos. */
  function Step(n: nat, sel: Selection, e: Event): (r: Selection)
    requires Valid(n, sel)
    ensures Valid(n, r)
  {
    match e
    case CardClick(i) => if sel.None? && i < n then Some(i) else sel
    case PreviousButton => if sel.None? then sel else Some(Previous(n, sel.value))
    case NextButton => if sel.None? then sel else Some(Next(n, sel.value))
    case CloseButton => None
    case BackdropClick => None
    case ContentClick => sel
    // The window keydown listener is registered only while a photo is shown.
    case KeyDown(k) => if sel.Some? then HandleKey(n, sel.value, k) else sel
  }

  /** The selection after a sequence of events. */
  function Run(n: nat, sel: Selection, events: seq<Event>): (r: Selection)
    requires Valid(n, sel)
    ensures Valid(n, r)
    decreases |events|
  {
    if events == [] then sel else Run(n, Step(n, sel, events[0]), events[1..])
  }

  /** The photo the lightbox displays; the index is always in bounds. */
  function SelectedItem(items: seq<Item>, sel: Selection): (r: Option<Item>)
    requires Valid(|items|, sel)
    ensures r.None? <==> sel.None?
    ensures sel.Some? ==> r == Some(items[sel.value])
  {
    if sel.None? then None else Some(items[sel.value])
  }

  /** The "Image i of n" counter: a one-based position and the total. */
  function Counter(n: nat, i: nat): (r: (nat, nat))
    requires i < n
    ensures 1 <= r.0 <= r.1 && r.1 == n
    ensures r.0 - 1 == i
  {
    (i + 1, n)
  }

  /** From any reachable state, any events keep the selection in bounds
      (the page starts with nothing selected). */
  lemma RunKeepsSelectionInBounds(n: nat, events: seq<Event>)
    ensures Valid(n, Run(n, None, events))
  {
  }

  /** Keys and the lightbox buttons do nothing while no photo is shown. */
  lemma NoSelectionIgnoresNavigation(n: nat, key: string)
    ensures Step(n, None, KeyDown(key)) == None
    ensures Step(n, None, PreviousButton) == None
    ensures Step(n, None, NextButton) == None
  {
  }

  /** While a photo is shown, the right arrow button moves to the next photo,
      the left one to the previous, and a key goes through the keyboard
      shortcuts. */
  lemma NavigationEvents(n: nat, i: nat, k: string)
    requires i < n
    ensures Step(n, Some(i), NextButton) == Some(Next(n, i))
    ensures Step(n, Some(i), PreviousButton) == Some(Previous(n, i))
    ensures Step(n, Some(i), KeyDown(k)) == HandleKey(n, i, k)
  {
  }

  /** Escape, the close button and the backdrop all clear the selection; a
      click on the photo panel and any key other than the three shortcuts
      leave it unchanged. */
  lemma ClosingEvents(n: nat, sel: Selection, key: string)
    requires Valid(n, sel)
    requires key !in {"ArrowLeft", "ArrowRight", "Escape"}
    ensures sel.Some? ==> Step(n, sel, KeyDown("Escape")) == None
    ensures Step(n, sel, CloseButton) == None
    ensures Step(n, sel, BackdropClick) == None
    ensures Step(n, sel, ContentClick) == sel
    ensures Step(n, sel, KeyDown(key)) == sel
  {
  }

  /** Closing is idempotent. */
  lemma CloseIdempotent(n: nat, sel: Selection)
    requires Valid(n, sel)
    ensures Step(n, Step(n, sel, CloseButton), CloseButton) == Step(n, sel, CloseButton)
  {
  }

  /** A card opens its photo from the grid; while a photo is shown the
      overlay covers the grid, so no card can be clicked. */
  lemma CardClickOpensFromGrid(n: nat, sel: Selection, i: nat)
    requires Valid(n, sel) && i < n
    ensures sel.None? ==> Step(n, sel, CardClick(i)) == Some(i)
    ensures sel.Some? ==> Step(n, sel, CardClick(i)) == sel
  {
  }

  /** Opening the third photo and pressing ArrowRight twice shows the fifth. */
  lemma OpenThenArrowRightTwice(n: nat)
    requires n >= 5
    ensures Run(n, None, [CardClick(2), KeyDown("ArrowRight"), KeyDown("ArrowRight")]) == Some(4)
  {
    var s1 := Step(n, None, CardClick(2));
    var s2 := Step(n, s1, KeyDown("ArrowRight"));
    var s3 := Step(n, s2, KeyDown("ArrowRight"));
    assert [CardClick(2), KeyDown("ArrowRight"), KeyDown("ArrowRight")][1..] == [KeyDown("ArrowRight"), KeyDown("ArrowRight")];
    assert [KeyDown("ArrowRight"), KeyDown("ArrowRight")][1..] == [KeyDown("ArrowRight")];
    assert s3 == Some(4);
  }

  /** On the page's own list of 26 photos, the last wraps to the first and
      back. */
  lemma GalleryWraps()
    ensures Next(GallerySize, 25) == 0
    ensures Previous(GallerySize, 0) == 25
  {
  }
}
