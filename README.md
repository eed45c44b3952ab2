# Portfolio page state machines, in Dafny

This project models the small pieces of logic in a single-page portfolio site
built from React components. The rest of the site is markup and animation. The
modelled pieces are:

- **Page shell** (`page.dfy`, module `Page`). The page owns the active section,
  starting at `"home"`, and a loading flag. A single timer clears the flag, and
  nothing sets it again. The loading overlay shows exactly while the flag is
  set, and the main content is invisible then. The intersection-observer
  handler makes the last intersecting entry of a batch the active section.
- **Hero** (`hero.dfy`). A typing effect cycles through "Fullstack",
  "Blockchain" and "AI". Each timer callback appends the next character of the
  current word. On a complete word the callback clears the text and moves to
  the next word. A cleaned-up effect ignores late callbacks. The call-to-action
  buttons set the active section and scroll when the target exists.
- **Skills** (`skills.dfy`). The category tabs and the table of skills per
  category. The `CountUp` counter adds `end / (duration / 16)` to an
  accumulator on each tick and shows `min(floor(start), end)`. Its interval
  clears on the first tick with `start >= end`.
- **Navigation bar** (`navbar.dfy`). On each scroll, the bar sets its
  "scrolled" look and makes the last section whose top lies strictly inside
  `(-h/2, h/2)` active. Link clicks set the active section and close the
  mobile menu. The menu button flips the menu.
- **Testimonials** (`testimonials.dfy`). A three-item carousel with
  cyclic next and previous arrows and one dot per item.
- **Projects** (`projects.dfy`). The category filter: `"all"` shows the whole
  list, and any other category keeps, in order, the projects listed under it.
- **Contact form** (`contact.dfy`). Four fields and an `isSubmitting` flag. The
  change handler updates one field. A simulated submission has two halves: it
  begins by marking the form as submitting and completes by clearing
  everything.

Timer callbacks are explicit methods (`Step`, `Tick`, `LoadingTimerFires`,
`CompleteSubmit`). Values read from the browser are parameters:

- section tops and the window height for the scroll handler;
- observer entries for the intersection handler;
- the set of element ids present in the document, where `getElementById` decides whether to scroll.

Where the source loops (`forEach` over sections or entries), the model has a
method with a loop. That method is proved against a recursive specification
function. Lemmas then give that function its declarative meaning: the last
match wins, and with no match nothing changes.

The counter's real arithmetic is modelled exactly with integers. After `k` ticks,
`start = 16·k·end / duration`. So `floor(start)` is `(16·k·end) / duration`, and
`start >= end` holds exactly when `16·k·end >= end·duration`.

In app/page.tsx:235-237 the projects section is commented out, while the
navigation bar (components/Navbar.tsx:22) keeps a "Projects" link. The model
follows the code: `Navbar.ProjectsLinkHasNoSection` shows that this is the only
link whose id is not a section of the page. `Navbar.ProjectsLinkClick` shows
that a click on it highlights it, and scrolls only if some other element of the
document carries the id "projects".

## Model

| member | source | states |
|---|---|---|
| Page.Index.constructor | app/page.tsx:15-16 | The active section starts as "home" and loading starts as true. |
| Page.Index.SetActiveSection | app/page.tsx:15 | The setter passed down to the bar and the hero sets the active section and leaves loading alone. |
| Page.Index.LoadingTimerFires | app/page.tsx:18-25 | The loading timer sets loading to false and leaves the active section unchanged. No page method sets loading back to true. |
| Page.Index.HandleIntersection | app/page.tsx:27-33 | After a batch, the active section is the last-intersecting-wins result over the batch, starting from the old value. Loading is unchanged. |
| Page.LastIntersecting | app/page.tsx:28-32 | The forEach loop over the entries computes exactly the last-intersecting-wins value. |
| Page.NoIntersectionKeepsActive | app/page.tsx:28-30 | With no intersecting entry in the batch, the active section is unchanged. |
| Page.LastIntersectingWins | app/page.tsx:27-33 | When entry i intersects and no later entry does, the active section becomes entry i's target id, whatever came before it. |
| Page.Render | app/page.tsx:52-211 | The overlay is present exactly while loading. The main content has opacity 0 exactly when the overlay is present, and 1 otherwise. |
| Hero.NextWordIndex | components/Hero.tsx:15-23 | The next word index stays below 3. It steps by one, and wraps from the last word (AI) to the first (Fullstack). |
| Hero.Tick | components/Hero.tsx:20-38 | One callback keeps the text a prefix of the current word. An incomplete word grows by exactly its next character. A complete word gives empty text and the next word index. |
| Hero.TickN | components/Hero.tsx:13-44 | After any number of callbacks, the index is below 3 and the text is a prefix of its word. |
| Hero.TypesPrefix | components/Hero.tsx:27-37 | Starting from empty text, k callbacks have typed exactly the first k characters of the word, for k up to its length. |
| Hero.CompletesWord | components/Hero.tsx:20-28 | A word of length n takes n callbacks to type, and one more clears it and moves to the next word. |
| Hero.FullCycle | components/Hero.tsx:15-23 | After 24 callbacks (three words typed and changed) the effect is back at empty text on the same word. |
| Hero.ButtonTargetsExist | components/Hero.tsx:142-216 | The three buttons target skills, contact and about, and all three are section ids the page renders. |
| Hero.ButtonScrolls | components/Hero.tsx:142-216 | When every section of the page is in the document, each hero button sets its target as the active section and scrolls. Loading is unchanged. |
| Hero.TypingEffect.constructor | components/Hero.tsx:13-19 | The text starts empty, the word index starts at 0, and the effect is mounted. |
| Hero.TypingEffect.Step | components/Hero.tsx:20-38 | A callback on a mounted effect performs Tick. After cleanup it leaves the text and the word index unchanged. |
| Hero.TypingEffect.Cleanup | components/Hero.tsx:29-43 | Cleanup unmounts the effect and changes no visible state. |
| Hero.ScrollToSection | components/Hero.tsx:46-52 | The active section becomes the requested id. The page scrolls exactly when an element with that id exists. |
| Skills.TabsMatchTable | components/Skills.tsx:77-156 | Every tab id is a key of the skills table, every key has a tab, and the initial "frontend" is a key. So the lookup is total. |
| Skills.LevelsArePercentages | components/Skills.tsx:87-156 | Every level in the table lies in 0..100. |
| Skills.ShownSkills | components/Skills.tsx:235 | The list shown for a category is non-empty and all of its levels are percentages. |
| Skills.SkillsPanel.constructor | components/Skills.tsx:71 | The initial category is "frontend", a key of the table. |
| Skills.SkillsPanel.SelectCategory | components/Skills.tsx:211 | A tab click selects that tab's id, and the selection stays a key of the table. |
| Skills.SkillsPanel.Shown | components/Skills.tsx:235 | The skills rendered are exactly the table's entry for the selected tab: a non-empty list of percentages. |
| Skills.Displayed | components/Skills.tsx:30 | The count shown after any tick never exceeds end. For a non-negative end it is never negative. |
| Skills.DisplayedMonotone | components/Skills.tsx:26-30 | For a non-negative end, the shown count never decreases from one tick to a later one. |
| Skills.DoneShowsEnd | components/Skills.tsx:30-32 | The tick that clears the interval (start >= end) shows exactly end. |
| Skills.NotDoneBelowEnd | components/Skills.tsx:30-32 | Every tick that does not clear the interval shows less than end. |
| Skills.StopsFirstAt | components/Skills.tsx:26-32 | In exact arithmetic, for end >= 0 and a positive duration, the interval clears on tick StopTick and on no earlier tick. StopTick is ceil(duration/16) for a positive end, and 1 for end = 0. |
| Skills.DefaultCounterStopsAt125 | components/Skills.tsx:17-32 | In exact arithmetic, with the default duration of 2000, a counter for a positive level clears its interval on tick 125 and on no earlier tick. |
| Skills.CountUp.constructor | components/Skills.tsx:17-18 | The count starts at 0. The counter is not in view and not ticking. |
| Skills.CountUp.EnterView | components/Skills.tsx:20-28 | Nothing ticks before the counter is in view. The first time it is in view, the interval starts from start = 0. Later calls change nothing, and end is never changed. |
| Skills.CountUp.Tick | components/Skills.tsx:28-33 | A tick advances the accumulator and shows Displayed for the new tick number, which is at most end. For end >= 0 the count never decreases between two ticks of one run. The interval clears exactly when start >= end, and the count is then end. |
| Skills.CountUp.SetEnd | components/Skills.tsx:22-36 | A different end re-runs the effect: the accumulator and the tick number restart at 0, and a new interval is set exactly when the counter has been seen. The shown count keeps its old value, which may exceed the new end until the next tick. The same end leaves the counter unchanged. |
| Skills.CountUp.RunToCompletion | components/Skills.tsx:28-33 | Left to run, a counter with end >= 0 stops after exactly StopTick ticks, showing end. |
| Navbar.IdOrEmpty | components/Navbar.tsx:36 | A missing id attribute reads as the empty string; a present one reads as itself. |
| Navbar.NoSectionInWindowKeepsActive | components/Navbar.tsx:33-38 | If no section's top lies in the window, a scroll leaves the active section unchanged. |
| Navbar.LastSectionInWindowWins | components/Navbar.tsx:31-38 | If section i is in the window and no later section is, the active section becomes section i's id ("" without one). |
| Navbar.ScrollSpy | components/Navbar.tsx:33-38 | The forEach loop over the sections computes exactly the last-in-window-wins value. |
| Navbar.AtMostOneHighlighted | components/Navbar.tsx:18-24 | The five link ids are distinct, so at most one link matches any active section. |
| Navbar.ProjectsLinkHasNoSection | app/page.tsx:215-241 | The "projects" link is the only one whose id is not a section of the page. |
| Navbar.ProjectsLinkClick | components/Navbar.tsx:45-53 | A click on the "Projects" link makes "projects" active and closes the menu. It scrolls exactly when some element carries the id "projects"; no section of the page does. isScrolled and loading are unchanged. |
| Navbar.Navbar.constructor | components/Navbar.tsx:14-15 | The bar starts not scrolled and with the menu closed. |
| Navbar.Navbar.HandleScroll | components/Navbar.tsx:27-38 | isScrolled is true exactly when scrollY > 10. The page's active section becomes the last-in-window-wins value. The menu and loading are unchanged. |
| Navbar.Navbar.HandleNavClick | components/Navbar.tsx:45-53 | A click sets the active section to the clicked id and closes the menu. The page scrolls exactly when the element exists. |
| Navbar.Navbar.ToggleMenu | components/Navbar.tsx:107 | The menu button flips isMobileMenuOpen and nothing else. |
| Navbar.ToggleTwiceRestores | components/Navbar.tsx:107 | Two clicks on the menu button restore the menu's original state. |
| Testimonials.JsRem | components/Testimonials.tsx:35-39 | JavaScript's truncating remainder agrees with the mathematical remainder on non-negative operands, and on a negative left operand it is the remainder of division truncated toward zero: a == r - n * trunc(-a / n), with -n < r <= 0. |
| Testimonials.Next | components/Testimonials.tsx:34-36 | The next index stays in [0, 3). It steps by one and wraps from 2 to 0. |
| Testimonials.Prev | components/Testimonials.tsx:38-40 | The previous index stays in [0, 3). It steps back by one and wraps from 0 to 2. |
| Testimonials.NextPrevInverse | components/Testimonials.tsx:35-39 | prev after next, and next after prev, both return the original index. |
| Testimonials.NextCycles | components/Testimonials.tsx:35 | Three nexts return to the starting index. |
| Testimonials.ActiveDots | components/Testimonials.tsx:97-101 | There is one dot per testimonial, and exactly the dot whose index equals current is active. |
| Testimonials.Carousel.Shown | components/Testimonials.tsx:73-81 | The testimonial shown is one of the list. The index is always in range. |
| Testimonials.Carousel.constructor | components/Testimonials.tsx:32 | current starts at 0. |
| Testimonials.Carousel.GoNext | components/Testimonials.tsx:34-36 | The right arrow sets current to Next(current), which stays in range. |
| Testimonials.Carousel.GoPrev | components/Testimonials.tsx:38-40 | The left arrow sets current to Prev(current), which stays in range. |
| Testimonials.Carousel.GoTo | components/Testimonials.tsx:97-100 | A dot click sets current to exactly that dot's index. |
| Projects.TabIndex | components/Projects.tsx:87-92 | Every category, "all" included, has a tab that selects it. |
| Projects.TabsDistinct | components/Projects.tsx:87-92 | The tabs select distinct categories, and the first tab is the initial "all". |
| Projects.FilterBy | components/Projects.tsx:96 | Every project the filter keeps is from the list and is listed under the category. |
| Projects.Filtered | components/Projects.tsx:94-96 | "all" shows the whole list in its order. Any other category shows only projects listed under it. |
| Projects.MatchingIndices | components/Projects.tsx:96 | The positions of the projects listed under the category, strictly increasing and in range. A position is included exactly when its project is listed under the category. |
| Projects.FilterIsOrderedSubsequence | components/Projects.tsx:96 | The k-th project shown is the project at the k-th matching position. No matching project is dropped and none is reordered. |
| Projects.FilterKeepsAllMatching | components/Projects.tsx:96 | A list whose projects all carry the category passes the filter unchanged. |
| Projects.FilterIdempotent | components/Projects.tsx:96 | Filtering an already filtered list by the same category changes nothing. |
| Projects.FilterDropsAllUnmatched | components/Projects.tsx:96 | A list in which no project carries the category filters to nothing. |
| Projects.InitialTabShowsEverything | components/Projects.tsx:22-96 | The initial "all" tab shows the whole list. No project is listed under "all", so a plain filter would show nothing. |
| Projects.ProjectIdsDistinct | components/Projects.tsx:24-85 | Project ids are distinct, so the card keys are unique. |
| Projects.LinkButtons | components/Projects.tsx:175-200 | "Live Demo" shows exactly when liveUrl is present and non-empty. "View Code" shows exactly when repoUrl is. |
| Projects.EveryProjectShowsBothLinks | components/Projects.tsx:24-85 | Every project of the list shows both link buttons. |
| Contact.FormData.Set | components/Contact.tsx:19-22 | A change sets the named field to the new value, and the other three keep theirs. |
| Contact.FieldsDetermineForm | components/Contact.tsx:11-16 | The draft is exactly its four fields: two drafts that agree on every field are the same draft. |
| Contact.SetTwice | components/Contact.tsx:19-22 | Two changes to one field keep only the second value. |
| Contact.SetOwnValue | components/Contact.tsx:19-22 | Writing back a field's own value leaves the draft unchanged. |
| Contact.SetCommutes | components/Contact.tsx:19-22 | Changes to two different fields give the same draft in either order. |
| Contact.ContactForm.constructor | components/Contact.tsx:11-17 | All four fields start as "" and isSubmitting starts as false. |
| Contact.ContactForm.HandleChange | components/Contact.tsx:19-22 | The draft becomes the old draft with the named field set, and isSubmitting is unchanged. |
| Contact.ContactForm.BeginSubmit | components/Contact.tsx:24-26 | A submission starts exactly when the form is not submitting and name, email and message are non-empty. Starting sets isSubmitting and leaves the fields alone. |
| Contact.ContactForm.CompleteSubmit | components/Contact.tsx:28-44 | Completion happens only after a submission has begun. It resets all four fields to "" and isSubmitting to false. There is no failure path. |
| Contact.NoSubmitWhileSubmitting | components/Contact.tsx:193 | While a submission is in flight, a submit attempt starts nothing and changes nothing. |

## Left out

- Rendering, CSS classes, framer-motion variants and all animation delays and durations are presentational and not modelled.
- Timer scheduling is not modelled: the `setTimeout`/`setInterval` delays (100 ms, 2000 ms, 16 ms, 1500 ms, 4500 ms), React batching, and effect re-runs other than the counter's restart on a new `end` (`Skills.CountUp.SetEnd`). Each timer firing is an explicit method call, and the typing effect's per-run `isMounted` flag is one `mounted` field.
- DOM reads (`querySelectorAll`, `getBoundingClientRect`, `window.scrollY`, `innerHeight`, `IntersectionObserver`, `getElementById`) are parameters. `scrollIntoView` is a returned boolean. The page's scroll-to-top button only calls `window.scrollTo` and is not modelled.
- Skills.CountUp.Tick: the accumulator is exact rational arithmetic, not IEEE floating point, so no claim is made about rounding in the browser.
- Skills.CountUp.Tick: "count <= end" and "count never decreases" hold within one run of the interval only. When a tab switch gives a live counter a new end (the list is keyed by position), `SetEnd` keeps the old count. That count can exceed the new end until the next tick, which may then show a smaller value.
- Skills.DefaultCounterStopsAt125: the stop on tick 125 holds in exact arithmetic. In the browser, `start` is a sum of IEEE doubles, and rounding can delay the stop by a tick (levels 30, 90 and 91 reach `start >= end` on tick 126 and show one less on tick 125). The same applies to `Skills.StopsFirstAt`.
- Skills.CountUp.RunToCompletion: proves termination only for `end >= 0`. Every counter on the page gets a skill level in 0..100. With a negative `end` and a duration under 16 the interval would never clear.
- Contact.ContactForm.HandleChange: takes one of the four field names. An input with another `name` would add a new key to the draft, but the form renders none.
- Contact.ContactForm.BeginSubmit: the browser's `type="email"` format check is not modelled; only emptiness of the required fields is.
- `toast`, `console.log` and `useIsMobile` (icon and text sizes only) are output-only and not modelled.
- Skill descriptions, testimonial quotes and images, and project descriptions and images are constant display text that no logic reads, so they are not carried.
- The Skills `hoveredSkill` state is declared but never set by any handler, so it is not modelled.
- The selected project category is a parameter of `Projects.Filtered` rather than a field, because the projects view is a single expression over it.
- components/About.tsx, DetailedAbout.tsx, Experience.tsx and Publications.tsx render constant content only. app/layout.tsx, app/tenstack-provider.tsx and next.config.mjs configure libraries. These files are not part of this model.
