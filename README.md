# Aglio restaurant site: page state, navigation sync and drawer logic in Dafny

This project models the decision rules and small state machines in the
restaurant site's `app.js`, with the browser taken away. It covers:

- the page controller, which switches between the "home" and "menu"
  containers, keeps the current page and marks nav links for the page;
- the navigation sync, which finds the home-page section at the scroll
  position and marks the in-page home links that point at it;
- the header's `scrolled` threshold, and the clamped scroll target used to
  bring a section below the fixed header;
- the mobile drawer (`open`, `close`, `toggle`, outside click, Escape);
- the keyboard helpers: activation keys and the focus trap;
- `throttle` and `debounce`;
- the fire-once scroll-reveal observer;
- the handlers that combine these: the delayed drawer close after a
  navigation click, the resize handler and its delayed recomputation, and
  the hash handlers.

Elements are values. A link is its class selection, its `data-page` and
`href` attributes and its `nav-link--active` marker. The document's links
are a sequence held by one `LinkList` object, which both the page
controller and the navigation sync write. A section is its id,
`offsetTop` and `offsetHeight`. Clock readings, scroll offsets and window
widths are parameters. A handler that defers part of its work with
`setTimeout` is modelled as two methods: one for the immediate part, and
one for the delayed step, which the caller runs later. Other events can
happen in between. The delayed step re-checks only what the source
re-checks.

Modules, one per file: `Dom` (dom.dfy), `Pages` (pages.dfy), `Navigation`
(navigation.dfy), `Header` (header.dfy), `Scrolling` (scrolling.dfy),
`MobileMenu` (mobile_menu.dfy), `Accessibility` (accessibility.dfy),
`RateLimit` (rate_limit.dfy), `Reveal` (reveal.dfy), `Site` (site.dfy).

Two behaviours of the code are easy to overstate, and the model states
them as the code has them:

- The active marker is not unique. `updateNavigationForPage` marks every
  nav link whose `data-page` equals the page, which includes both the
  desktop and the mobile link. On the hero section the scroll sync marks
  both `#` and `#home`. `Navigation.AtMostOneSectionLinkActive` proves
  uniqueness only where it holds: for sections other than the hero, and
  when hrefs are distinct.
- Closing the drawer does not restore the body's previous overflow. It
  writes `''`, so `open` followed by `close` restores the earlier value only
  when that value was `''`. `MobileMenu.Drawer.Close` states what the code
  writes.

## Model

| member | source | states |
|---|---|---|
| `Pages.ParsePage` | app.js:37-49 | only "home" and "menu" name a page, and each names the page whose id it is |
| `Pages.PageIdRoundTrip` | app.js:36-49 | a page's id parses back to that page |
| `Pages.MarkedForPageExact` | app.js:56-67 | after marking for `pageId`, each `.nav-link`/`.mobile-nav-link` is active exactly when its `data-page` equals `pageId`; other elements keep their marker; no attribute changes |
| `Pages.MarkedForPageIdempotent` | app.js:56-67 | marking for the same page twice equals marking once |
| `Pages.UnknownPageMarksNothing` | app.js:59-66 | a page id that no nav link's `data-page` names leaves every nav link inactive |
| `Pages.MenuClearsHomeSectionLinks` | app.js:56-67 | marking for "menu" leaves no nav link with `data-page="home"` and an `href` starting with `#` active |
| `Pages.ClickEffectOf` | app.js:73-107 | a click suppresses the default exactly when it calls `showPage`, always with its own `data-page`; an in-page anchor whose target is neither page does nothing; a deferred scroll happens exactly for an in-page home anchor whose href is not the bare `#`, and goes to that href |
| `Pages.MenuClickShowsMenu` | app.js:99-106 | a click on any element targeting "menu" suppresses the default and shows the menu page, with no scroll |
| `Pages.PageController.constructor` | app.js:29-33 | the current page starts as home |
| `Pages.PageController.ShowPage` | app.js:36-53 | "home" or "menu" shows that container, hides the other, sets the current page and scrolls to the top; any other id leaves all four alone; either way the links are marked for the id; exactly one container is visible afterwards whenever the id is known or that held before |
| `Pages.PageController.ShowPageTwice` | app.js:36-67 | two `showPage` calls with the same id leave the page, both containers, the scroll position and every link marker as one call does |
| `Pages.PageController.UpdateNavigationForPage` | app.js:56-67 | the loop over the links leaves exactly the list `MarkedForPage` describes |
| `Pages.PageController.OnNavigationClick` | app.js:73-107 | the click handler runs `showPage` with the argument `ClickEffectOf` chooses, or changes nothing, and returns the deferred scroll hash |
| `Navigation.LastMatch` | app.js:225-232 | the match is the last section, in document order, whose span `top <= pos < top + height` holds the position; None means that no section holds it |
| `Navigation.SectionAt` | app.js:218-233 | below 100 the section is "home"; otherwise it is the id of the last section holding `scrollY + 150`, or "home" when none does |
| `Navigation.CurrentSection` | app.js:218-233 | the overwriting scan over the sections returns `SectionAt` |
| `Navigation.HrefMatchesCases` | app.js:240 | for a section other than the hero, an href matches only `#<section>`; for the hero, only `#` and `#home` match |
| `Navigation.MarkedForSectionExact` | app.js:236-243 | each `[data-page="home"][href^="#"]` link ends up active exactly when its href matches the section; every other element keeps its marker |
| `Navigation.AtMostOneSectionLinkActive` | app.js:236-243 | for a section other than the hero, and in-page home links with distinct hrefs, at most one of them is left active |
| `Navigation.UpdateHomeLinks` | app.js:236-243 | the loop over the links leaves exactly the list `MarkedForSection` describes |
| `Navigation.UpdateActiveNavigation` | app.js:214-244 | off the home page the links are untouched; on it they are marked for the section at the scroll position |
| `Navigation.ScrollIntoSectionScenario` | app.js:218-243 | with a section `menu-story` spanning 800 to 1200 and no later section holding 850, scrolling to 700 highlights `menu-story`, and exactly the in-page home links with href `#menu-story` are active |
| `Header.ScrolledBoundary` | app.js:263-267 | the threshold is strict: 50 is not scrolled, 51 is |
| `Header.ScrolledMonotone` | app.js:263-267 | a larger offset is scrolled whenever a smaller one is |
| `Header.HeaderBar.HandleHeaderScroll` | app.js:259-268 | the class is present exactly when `pageYOffset || scrollTop` exceeds 50, whatever it was before |
| `Scrolling.HeaderHeight` | app.js:89 | the header height used is the measured height when that is not 0, and 70 when it is 0 |
| `Scrolling.ScrollTarget` | app.js:89-95 | the target is never negative, and it is the larger of 0 and `offsetTop - headerHeight - 20` |
| `Scrolling.SectionLandsBelowHeader` | app.js:90-93 | an unclamped target puts the section's top exactly 20px below the header; a clamped one puts it no lower |
| `Scrolling.FallbackClampsToTop` | app.js:89-93 | with header height 0, a section at most 90px down is reached by scrolling to the top |
| `MobileMenu.Toggled` | app.js:167-180 | toggling flips the drawer's class and leaves the three flags synchronised |
| `MobileMenu.ToggleInvolutive` | app.js:167-204 | on a synchronised drawer, toggling twice changes nothing |
| `MobileMenu.SyncedStates` | app.js:185-204 | the synchronised states are exactly the ones `open` and `close` write |
| `MobileMenu.Drawer.Open` | app.js:185-192 | both classes are set and the body's overflow is `hidden` |
| `MobileMenu.Drawer.Close` | app.js:197-204 | both classes are cleared and the body's overflow is `''`, from any state, so open then close ends closed |
| `MobileMenu.Drawer.Toggle` | app.js:167-180 | the drawer is closed if its class was set and opened otherwise |
| `MobileMenu.Drawer.OnDocumentClick` | app.js:147-154 | a click outside the drawer and the toggle closes an open drawer; any other click changes nothing |
| `MobileMenu.Drawer.OnEscapeKeydown` | app.js:157-161 | Escape closes an open drawer; any other key changes nothing |
| `Accessibility.OnToggleKeydown` | app.js:432-437 | Enter or Space on the toggle toggles the drawer; other keys change nothing |
| `Accessibility.TrapFocus` | app.js:440-463 | focus moves only for Tab in the open drawer with at least one focusable element: from the first element with Shift to the last, and from the last without Shift to the first |
| `Accessibility.FocusStaysInDrawer` | app.js:447-461 | with the trap and the browser's own order, Tab goes from element i to (i+1) mod n and Shift+Tab to (i-1) mod n, so focus never leaves the drawer |
| `Accessibility.TabThenShiftTab` | app.js:447-461 | Tab followed by Shift+Tab returns to the same element |
| `RateLimit.PreviousIsAFiredCall` | app.js:331-337 | `previous` is 0 or the time of a call that ran: dropped calls leave no trace |
| `RateLimit.PreviousAfterFire` | app.js:334-337 | with a non-negative window, after a call runs at time t, `previous` stays at least t at every later call |
| `RateLimit.PreviousAfterPrefix` | app.js:334-337 | with a non-negative window, `previous` never decreases as calls arrive |
| `RateLimit.ThrottleSpacing` | app.js:327-339 | for a non-negative window (the site passes 100ms and 10ms), two calls that both run are more than `wait` apart, whatever order the clock readings come in |
| `RateLimit.FirstCallFires` | app.js:329-334 | since `previous` starts at 0, the first call runs exactly when its clock reading exceeds `wait` |
| `RateLimit.Throttle.constructor` | app.js:327-329 | `previous` starts at 0 |
| `RateLimit.Throttle.Invoke` | app.js:331-338 | the wrapped function runs exactly when `now - previous > wait`; then `previous` becomes `now`, and otherwise it is unchanged |
| `RateLimit.Debouncer.Invoke` | app.js:346-353 | any pending timer is replaced by one for this call, due `wait` later; only the latest call can be pending |
| `RateLimit.Debouncer.Elapse` | app.js:347-350 | a due timer runs the wrapped function with the latest call's arguments and is then no longer pending; otherwise nothing runs |
| `Reveal.RevealObserver.constructor` | app.js:305-309 | every candidate element is marked and observed, and none is revealed |
| `Reveal.RevealObserver.OnIntersection` | app.js:294-302 | intersecting targets are revealed and unobserved, and nothing else changes; each animated element is either watched or revealed, never both, so a revealed element is never delivered or revealed again |
| `Site.CloseAfterDelay` | app.js:137-144 | the delayed step of a mobile nav link click, and of any navigation click (app.js:110), closes the drawer whatever happened meanwhile |
| `Site.ScrollToSection` | app.js:86-97 | the delayed scroll of a home-link click (and of the load-time hash handler) scrolls to the found section's clamped target, which is never negative; if no section is found, the scroll position is unchanged; the page is not checked again |
| `Site.OnPageButtonKeydown` | app.js:494-504 | Enter or Space on a page button acts as a click: `showPage` with its `data-page`; other keys change nothing |
| `Site.OnResize` | app.js:359-370 | a window wider than 768 closes the drawer, and narrower ones leave it alone; a recomputation is scheduled exactly on the home page |
| `Site.ResizeSettled` | app.js:371-396 | the delayed recomputation marks the in-page home links for the section at the scroll position, without checking the page again |
| `Site.HashScroll` | app.js:510-526 | the hash-change handler scrolls exactly when on the home page with a non-empty hash whose section exists, and then to that section's clamped target |
| `Site.OnLoadHash` | app.js:529-531 | on load, a scroll to the hash is scheduled exactly when the URL has a hash and the page is home |
| `Site.LoadHashThenScroll` | app.js:510-545 | the load-time hash handler followed by its delayed scroll ends where the hash-change handler ends for the same page, hash and section: at `HashScroll`'s target when that handler scrolls, and at the old position when it does not |

## Left out

- DOM querying and listener registration: elements are passed in as values, and each handler is a method the caller invokes.
- Timing: the length of `setTimeout` delays, smooth scrolling, `requestAnimationFrame` and `Date.now` are left out. A delayed step is a separate method, so the caller decides its order relative to other events. Clock readings are parameters.
- The load-time reveal of elements already in view, staggered by 100ms per element (app.js:403-419), is left out. It depends on bounding rectangles and timers. `Reveal` models only the observer's fire-once rule. Because that path (app.js:413-416) adds `in-view` to elements the observer still watches, `Reveal.RevealObserver.Valid`'s "watched or revealed, never both" holds for what the observer does, not for the page as a whole.
- The early exit when `window.IntersectionObserver` is missing (app.js:286): the model assumes the observer exists. On that path no element is marked or observed.
- The observer's 0.1 threshold and -50px root margin: whether an entry intersects is an input.
- Inline hover and focus styles (app.js:311-321, 467-491): they are cosmetic.
- `initializeSmoothScrolling`, the passive scroll listener and the logo click (app.js:276-279, 548-567): they contain no logic of their own. The logo click is `showPage("home")`.
- The `document.body.classList.add('loaded')` on load: it is cosmetic.
- Crash paths: `openMobileMenu`, `closeMobileMenu`, the header handler, the scroll-target code and `showPage` (the two containers fetched at app.js:30-31 and written at app.js:38-45) dereference their elements without a check. The model takes the existence of these elements as given. An anchor without `href` would throw at app.js:77; `Pages.ClickEffectOf` requires that an anchor has one.
- The early returns when the toggle or drawer is missing (app.js:127, 171, 429): these elements are assumed to exist.
- `window.getCurrentPage` is treated as always defined, since page management is initialised before navigation.
- Offsets, scroll positions and widths are integers; browsers may report fractions.
- `Pages.PageController.ShowPage`: `window.scrollTo` is recorded as the requested target (`scrollTarget`), not as an animation.
- `Site.HashScroll`: a hash that is not a valid CSS selector would make `querySelector` throw; the model takes the lookup's result (`sectionTop`) as given.
- `MobileMenu.Drawer.constructor`: the drawer's initial classes are taken as unset. The markup is not part of this model.
