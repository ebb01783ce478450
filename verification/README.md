# Rad Electric marketing site: verified model of its interactive state

The site is almost entirely markup. Three pieces of it hold real state, and
this project models each as a pure transition function over immutable state,
with lemmas about those functions:

- **Gallery lightbox** (`Gallery`, from `GalleryPage`). The state is a nullable
  index into the fixed list of 26 project photos. Previous and next wrap
  around. Escape, the X button and the overlay close the lightbox. The window
  key listener exists only while a photo is shown.
- **Lead-capture form** (`LeadForm`, shared by `ServiceDetail` and `Contact`).
  The form exists in two diverging copies. Both are instances of one machine,
  parameterised by a `Config`: the input names, which inputs are required,
  the success rule, the auto-reset delay after success and after failure
  (`None` for no reset), and whether the result is shown in a dismissable
  modal. The state is the status (`Idle | Submitting | Success | Error`),
  the field map, a multiset of pending `setTimeout` resets, and the number
  of posts still awaiting a reply.
  - Input events: keystrokes, submission, a post resolving to
    `Responded(status)` or `Thrown`, a pending reset firing, and clicks on
    the result modal.
  - Nothing cancels a pending reset. The model shows the consequence: a
    stale reset can return "submitting" to "idle" while a post is in flight,
    and this re-enables the button for a second concurrent post.
- **Service page content** (`ServiceContent`, from `ServiceDetailPage`).
  - Looking up the route's slug in the service table gives either the page or
    "Service Not Found".
  - Six slug-keyed helper tables (five string helpers and the accordion
    items) fall back to fixed defaults for slugs they do not know.
  - The accordion has at most one open entry.

`Wrappers` holds the `Option` type used for the nullable values.

### Behaviour worth noting

- Dismissing the result modal does not cancel the pending reset.
- The contact section resets 5000 ms after success and never after a failure.
  It does not use the 8000/5000 ms pair of the detail page.
- On the detail page, city and zip code are required and the message is not.
- The contact section accepts only `response.ok`. The detail page also
  accepts status 200, but that adds nothing, because `ok` already means
  status 200..299 (`LeadForm.SuccessRulesAgree`).

## Model

| member | source | states |
|---|---|---|
| Gallery.Next | src/app/pages/GalleryPage.tsx:222-227 | "Next" stays within the list; it maps the last index to 0 and any other index i to i+1 |
| Gallery.Previous | src/app/pages/GalleryPage.tsx:215-220 | "Previous" stays within the list; it maps 0 to the last index and any other index i to i-1 |
| Gallery.NavigationIsModular | src/app/pages/GalleryPage.tsx:199-205 | Next is (i+1) mod n and previous is (i-1+n) mod n, for every index of a non-empty list |
| Gallery.NextPreviousInverse | src/app/pages/GalleryPage.tsx:215-227 | Previous after next, and next after previous, return the original index |
| Gallery.NextFullCircle | src/app/pages/GalleryPage.tsx:222-227 | Pressing next n times on a list of n photos returns to the starting photo |
| Gallery.HandleKey | src/app/pages/GalleryPage.tsx:199-209 | ArrowLeft goes to the previous photo, ArrowRight to the next, Escape closes, and any other key leaves the selection unchanged |
| Gallery.Step | src/app/pages/GalleryPage.tsx:192-229 | Every event (card click, arrow buttons, X, overlay, panel click, key) keeps the selection null or an index below n |
| Gallery.Run | src/app/pages/GalleryPage.tsx:193-213 | Any sequence of events keeps the selection null or within the list |
| Gallery.RunKeepsSelectionInBounds | src/app/pages/GalleryPage.tsx:193-229 | From the initial null selection, every reachable selection is in bounds, so the array access at line 229 never goes out of range |
| Gallery.SelectedItem | src/app/pages/GalleryPage.tsx:229 | The shown photo is absent exactly when nothing is selected; otherwise it is the list entry at the selected index |
| Gallery.Counter | src/app/pages/GalleryPage.tsx:383 | The "Image i+1 of n" counter lies between 1 and n, and n is the list length |
| Gallery.NoSelectionIgnoresNavigation | src/app/pages/GalleryPage.tsx:196-227 | With nothing selected, keys and the arrow buttons do nothing |
| Gallery.NavigationEvents | src/app/pages/GalleryPage.tsx:199-227 | While a photo is shown, the right arrow button moves to the next photo and the left one to the previous, and a key press goes through the ArrowLeft/ArrowRight/Escape shortcuts |
| Gallery.ClosingEvents | src/app/pages/GalleryPage.tsx:323-371 | Escape (while open), the X and the overlay all give "no selection"; a click on the photo panel and any other key change nothing |
| Gallery.CloseIdempotent | src/app/pages/GalleryPage.tsx:336 | Closing an already closed lightbox leaves it closed |
| Gallery.CardClickOpensFromGrid | src/app/pages/GalleryPage.tsx:287-327 | A card click opens that photo when the grid is showing; while a photo is shown the overlay covers the grid and a card click changes nothing |
| Gallery.OpenThenArrowRightTwice | src/app/pages/GalleryPage.tsx:199-213 | With at least five photos, opening index 2 and pressing ArrowRight twice shows index 4 |
| Gallery.GalleryWraps | src/app/pages/GalleryPage.tsx:6-190 | On the page's own list of 26 photos, next from 25 gives 0 and previous from 0 gives 25 |
| LeadForm.EmptyFields | src/app/pages/ServiceDetailPage.tsx:10-18 | The initial and cleared field map has exactly the form's inputs as keys, each holding '' |
| LeadForm.SuccessRulesAgree | src/app/pages/ServiceDetailPage.tsx:57 | `ok \|\| status === 200` and plain `ok` accept the same outcomes |
| LeadForm.ReachableInv | src/app/pages/ServiceDetailPage.tsx:10-80 | Every reachable state has exactly the form's inputs as fields; "submitting" always has a post outstanding; every pending reset has a configured delay |
| LeadForm.ChangeTouchesOneField | src/app/pages/ServiceDetailPage.tsx:36-41 | A keystroke sets the named field to the new value and leaves every other field as it was; the field set, status, pending resets and outstanding posts are unchanged |
| LeadForm.LastWriteWins | src/app/pages/ServiceDetailPage.tsx:36-41 | After any run of keystrokes, each field holds the last value typed into it (or its earlier value), and the status is unchanged |
| LeadForm.SubmitDisabledWhileSubmitting | src/app/pages/ServiceDetailPage.tsx:328-330 | While "submitting" the button is disabled, so a submission changes nothing and starts no post |
| LeadForm.SubmitStartsPost | src/app/pages/ServiceDetailPage.tsx:43-55 | An enabled submission with the required inputs filled moves to "submitting" and starts exactly one post; fields and timers stay as they were |
| LeadForm.SubmitNeedsRequired | src/app/pages/ServiceDetailPage.tsx:248-309 | While any required input is empty the browser blocks the submission: nothing changes and no post starts (the same `required` attributes sit at src/app/components/Contact.tsx:146-217) |
| LeadForm.ResolveOutcome | src/app/pages/ServiceDetailPage.tsx:57-79 | Whenever a post is outstanding, whatever the status by then, its reply retires it; a successful post empties every field and schedules the success reset; a failed or thrown post keeps the fields exactly and schedules the failure reset |
| LeadForm.TimerResetsToIdle | src/app/pages/ServiceDetailPage.tsx:69-78 | A pending reset fires into "idle" whatever the status is by then; it fires once (it leaves the pending resets) and leaves the fields and outstanding posts alone |
| LeadForm.DismissKeepsTimers | src/app/pages/ServiceDetailPage.tsx:424-447 | The overlay and the X set "idle"; a card click changes nothing; a dismissal keeps every pending reset, the fields and the outstanding posts |
| ServiceDetail.FieldUpdateIsolated | src/app/pages/ServiceDetailPage.tsx:36-41 | A keystroke in one of the seven inputs changes that field alone; status, pending resets and outstanding posts are unchanged |
| ServiceDetail.MessageOptionalCityRequired | src/app/pages/ServiceDetailPage.tsx:240-325 | With the other six inputs filled, an empty message box still lets the post start, while an empty city or an empty zip code blocks the submission |
| ServiceDetail.SuccessClearsSeven | src/app/pages/ServiceDetailPage.tsx:57-70 | With a post outstanding, whatever the status: a reply with `ok` or status 200 gives "success" with all seven fields '' and an 8000 ms reset added |
| ServiceDetail.FailureKeepsFields | src/app/pages/ServiceDetailPage.tsx:71-79 | With a post outstanding, whatever the status: a non-ok reply or a thrown fetch gives "error" with the fields unchanged and a 5000 ms reset added, on both paths |
| ServiceDetail.ModalBehaviour | src/app/pages/ServiceDetailPage.tsx:426-447 | The modal shows exactly in "success" and "error"; the overlay and the X dismiss it to "idle" keeping fields, pending resets and outstanding posts; a card click changes nothing |
| ServiceDetail.StaleResetInterruptsSubmission | src/app/pages/ServiceDetailPage.tsx:43-80 | After success, dismissal and a new submission, the stale 8000 ms reset moves "submitting" to "idle" with the post still outstanding; submitting again starts a second concurrent post |
| ServiceContent.FindFrom | src/app/pages/ServiceDetailPage.tsx:21 | The service search returns the first table position holding the slug, or none when no entry holds it |
| ServiceContent.PageFor | src/app/pages/ServiceDetailPage.tsx:21-34 | The page is "Service Not Found" exactly when the slug is not in the service table; otherwise it is the service with that slug |
| ServiceContent.Lookup | src/app/pages/ServiceDetailPage.tsx:494-508 | A helper gives its table entry exactly when the slug is a key, and the fixed fallback otherwise |
| ServiceContent.HelperTablesKeyedByServiceSlugs | src/app/pages/ServiceDetailPage.tsx:494-759 | Each of the six helper tables, with its keys written as in its own table, is keyed by exactly the ten slugs of the service table |
| ServiceContent.UnknownSlugNotFound | src/app/pages/ServiceDetailPage.tsx:21-34 | An unknown slug renders "Service Not Found" |
| ServiceContent.UnknownSlugFallbacks | src/app/pages/ServiceDetailPage.tsx:494-759 | For an unknown slug, the helpers give '', '', 'Our Services Include:', '' and 'Services We Offer', and the accordion list is empty |
| ServiceContent.KnownSlug | src/app/pages/ServiceDetailPage.tsx:494-759 | For a known slug, the page renders that service, no helper falls back, and the accordion has four entries |
| ServiceContent.Toggle | src/app/pages/ServiceDetailPage.tsx:167 | A click on the open entry collapses the accordion; a click on any other entry makes that entry open |
| ServiceContent.AtMostOneOpen | src/app/pages/ServiceDetailPage.tsx:164-178 | No two distinct entries are open at once |
| ServiceContent.ToggleOpensOnlyClicked | src/app/pages/ServiceDetailPage.tsx:167-178 | After a click on entry i, an entry j is open exactly when j is i and i was closed before |
| ServiceContent.ToggleTwice | src/app/pages/ServiceDetailPage.tsx:167 | Two clicks on the same header restore the accordion, when that entry was open or no entry was |
| ServiceContent.ExpandedStaysInRange | src/app/pages/ServiceDetailPage.tsx:164-190 | On a rendered service page, header clicks keep the open entry among that page's accordion entries |
| ServiceContent.InitialInRange | src/app/pages/ServiceDetailPage.tsx:9 | The initially open entry 0 exists on every rendered service page |
| Contact.BannerFor | src/app/components/Contact.tsx:115-135 | The success banner shows exactly when its guard (status "success", line 116) holds, the error banner exactly when its guard (status "error", line 127) holds, and neither in "idle" or "submitting"; the success banner names the email, or 'the email provided' when it is empty |
| Contact.FieldUpdateIsolated | src/app/components/Contact.tsx:44-49 | A change in one of the five inputs updates that field alone; status, pending resets and outstanding posts are unchanged |
| Contact.SuccessOnlyOnOk | src/app/components/Contact.tsx:30-34 | With a post outstanding, whatever the status: the post ends in "success" exactly when the reply is `ok`; then all five fields are '' and a 5000 ms reset is added |
| Contact.FailureSchedulesNothing | src/app/components/Contact.tsx:35-41 | With a post outstanding, whatever the status: a non-ok reply or a thrown fetch gives "error" and the error banner, with the fields unchanged and no reset scheduled |
| Contact.SuccessBannerShowsFallback | src/app/components/Contact.tsx:116-124 | Right after any success transition, from whatever status, the banner shows 'the email provided', because the email field was cleared in that same transition |
| Contact.TypingAfterSuccessChangesBanner | src/app/components/Contact.tsx:121 | The inputs stay live in "success", so typing any non-empty address afterwards makes the banner show that address |
| Contact.BannersExclusive | src/app/components/Contact.tsx:116-127 | The guards of the two banners (lines 116 and 127) never hold together, and neither holds in "idle" or "submitting" |
| Contact.OnlySuccessResets | src/app/components/Contact.tsx:30-41 | Every reset the contact form ever schedules is the 5000 ms success reset |
| Contact.ErrorPersistsUntilSubmit | src/app/components/Contact.tsx:35-41 | With no post outstanding and no reset pending, "error" survives every event sequence that has no submission |
| Contact.StaleResetClearsError | src/app/components/Contact.tsx:34 | The qualification above is needed: a success reset still pending from an earlier post clears a later "error" without any new submission |

## Left out

- The `fetch` call, the `FormData`/`URLSearchParams` body, and the hidden
  `form-name` and `bot-field` inputs. A post is reduced to its outcome:
  `Responded(status)` with `ok` meaning 200..299, or `Thrown`.
- Real time. A pending reset is a delay in a multiset. `TimerFires(d)` fires
  any one pending reset with that delay, at any point and in any order. This
  over-approximates the browser's timer ordering.
- A reply arriving while no post is outstanding cannot happen. The model
  treats such a `Resolve` as a no-op.
- Browser constraint validation is modelled as "every `required` input is
  non-empty". The format checks of `type="email"` and `type="tel"` are left
  out.
- React rendering, the `useEffect` listener lifecycle and `stopPropagation`
  are modelled only through their effect. The listener is active exactly
  while a photo is selected. A click on the photo panel or the result card
  does not reach the overlay.
- The detail page's change handler spreads `formData` from the render
  closure, while the contact section uses a functional update. Events here
  are processed one at a time against the latest state, so the two behave
  the same in the model.
- A change event for a name that is not one of the form's inputs is ignored.
  No such input exists. JavaScript would instead add the key.
- The marketing text is left out: helper table entries, service
  descriptions, accordion entry text and gallery captions. A helper's table
  entry is represented by its slug (`ServiceContent.Text.Entry`), and an
  accordion list by its length. Every entry in the source is non-empty, so
  the falsy-string branch of `table[slug] || fallback` never applies to a key
  of the table.
- Keys inherited from `Object.prototype` (such as `constructor`) would be
  found in the helper tables, but they are not modelled. The helpers are
  only reached with a slug that the service table contains.
- The accordion index persisting across navigation between service pages is
  not modelled.
- Animations, styling, icons, routing, and the header, footer and hero
  components are left out.
