# Portfolio home page and timeline: a Dafny model

This project models the small amount of logic in a personal portfolio
single-page application (React and TypeScript). It covers two components.

- **Home page** (`home.dfy`, module `Home`).
  - The project carousel shows three projects per page and wraps round at both ends.
  - The image-gallery lightbox opens on one card of the current page. Its image index cycles through that card's images.
  - The navbar highlights the first section, in the order home, journey, skills, projects, whose box spans the viewport line y = 100.
  - The component's state slots are the fields of the class `HomePage`. Its event handlers are that class's methods. The derived values (`totalPages`, `visibleProjects`, the section lookup) are functions.
- **Timeline** (`timeline.dfy`, module `Timeline`).
  - Pure layout arithmetic: card and dot positions, the container's minimum height, the connecting line, the side a card is anchored to, its z-index and its border colour.
  - A one-slot hover state (`TimelineView`) that mouse-enter sets and mouse-leave clears.
- **Ring steps** (`cyclic.dfy`, module `Cyclic`). The wrap-around steps `(i + 1) % n` and `(i - 1 + n) % n` are written once here. Both the carousel pages and the gallery images use them.
- `wrappers.dfy` holds the `Option` type. It stands for the `number | null` and `string | null` state slots.

Section boxes come from the DOM as `getBoundingClientRect()`. Here they are plain integer inputs: a map from each section found in the document to its top and bottom.

`Timeline.tsx` computes nothing from the scroll position: its cards are always rendered, and details appear only on hover.

Page changes in the model close an open gallery. As written, `goToNext`, `goToPrevious` and the page dots move only the page index, which can leave the gallery pointing past the end of the new page; see "## Findings".

## Model

| member | source | states |
|---|---|---|
| Cyclic.Next | frontend/src/Pages/Home.tsx:86-88 | the forward step stays in `[0, n)`, moves `i` to `i + 1` and wraps the last position to 0 |
| Cyclic.Prev | frontend/src/Pages/Home.tsx:82-84 | the backward step stays in `[0, n)`, moves `i` to `i - 1` and wraps 0 to `n - 1` |
| Cyclic.PrevAfterNext | frontend/src/Pages/Home.tsx:82-88 | going back after going forward restores every in-range index |
| Cyclic.NextAfterPrev | frontend/src/Pages/Home.tsx:82-88 | going forward after going back restores every in-range index |
| Cyclic.Forward | frontend/src/Pages/Home.tsx:86-88 | repeated forward steps stay in range |
| Cyclic.ForwardWithoutWrap | frontend/src/Pages/Home.tsx:86-88 | `k` forward steps that do not pass the end add exactly `k` |
| Cyclic.ForwardAdd | frontend/src/Pages/Home.tsx:86-88 | `a` steps then `b` steps equal `a + b` steps |
| Cyclic.FullCycle | frontend/src/Pages/Home.tsx:100-105 | `n` forward steps go once round and return to the starting page or image |
| Home.TotalPages | frontend/src/Pages/Home.tsx:50-51 | the page count is the ceiling of count / 3: the least `r` with `3r >= count` |
| Home.ShownProjectsFillTwoPages | frontend/src/Pages/Home.tsx:14-51 | the four shipped projects make two pages |
| Home.PageControlsShown | frontend/src/Pages/Home.tsx:457 | arrows and page dots are shown exactly when there are more than 3 projects |
| Home.VisibleSlice | frontend/src/Pages/Home.tsx:120-123 | a page is `projects[3p .. 3p+3)` clipped to the list; it has at most 3 items, its exact length is given, and it is non-empty exactly when `p` is a real page |
| Home.PagesUpTo | frontend/src/Pages/Home.tsx:120-123 | the first `k` pages together hold `min(3k, n)` projects |
| Home.PagesUpToIsPrefix | frontend/src/Pages/Home.tsx:120-123 | the first `k` pages laid end to end are the first `min(3k, n)` projects |
| Home.PagesCoverProjects | frontend/src/Pages/Home.tsx:120-123 | all pages laid end to end are exactly the project list, in order |
| Home.ShownProjectsHaveImages | frontend/src/Pages/Home.tsx:14-48 | every shipped project has at least one image, so each card can open the gallery |
| Home.Straddles | frontend/src/Pages/Home.tsx:57-61 | a section counts only when its element is in the document; a box that spans y = 100 has its top at or above its bottom |
| Home.FindFirst | frontend/src/Pages/Home.tsx:55-63 | the lookup gives the first straddling section of the order, or nothing exactly when no section straddles y = 100 |
| Home.Rank | frontend/src/Pages/Home.tsx:55 | each section has its position in the fixed lookup order |
| Home.PickSection | frontend/src/Pages/Home.tsx:55-64 | the picked section straddles y = 100 and no section before it in the order does; nothing is picked exactly when none straddles |
| Home.GalleryFits | frontend/src/Pages/Home.tsx:149 | what the gallery's render needs: an open card exists on the page and the image index is one of its images; a closed gallery has image index 0 |
| Home.OpenCardFallsOffPage | frontend/src/Pages/Home.tsx:82-88 | with the shipped projects, a gallery open on card 2 of page 0 fits, but next page, previous page and the second page dot all lead to page 1, which has one card, so the gallery no longer fits |
| Home.HomePage.Visible | frontend/src/Pages/Home.tsx:120-123 | the current page's cards: at most 3, the `k`-th being project `3p + k` |
| Home.HomePage.OpenImages | frontend/src/Pages/Home.tsx:100-112 | the open card's image list is non-empty and holds the current image index, so the image steps never divide by zero |
| Home.HomePage.constructor | frontend/src/Pages/Home.tsx:8-12 | the first page, a closed gallery, image index 0 and `home` active; the state invariant holds |
| Home.HomePage.GoToNextAsWritten | frontend/src/Pages/Home.tsx:86-88 | as written: the page index takes the forward step and the gallery slots are untouched; the invariant is kept only when the gallery was closed |
| Home.HomePage.GoToNext | frontend/src/Pages/Home.tsx:86-88 | the page index becomes the forward step of the old one and stays a real page; an open gallery is closed; with the gallery closed nothing else changes; the invariant holds |
| Home.HomePage.GoToPrevious | frontend/src/Pages/Home.tsx:82-84 | the page index becomes the backward step of the old one and stays a real page; an open gallery is closed; with the gallery closed nothing else changes; the invariant holds |
| Home.HomePage.GoToPage | frontend/src/Pages/Home.tsx:484-487 | a page-dot click sets the page index to its page, which is in `[0, totalPages)`; an open gallery is closed; the invariant holds |
| Home.HomePage.OpenGallery | frontend/src/Pages/Home.tsx:90-93 | the gallery opens on the card and the image index resets to 0 |
| Home.HomePage.ClickCardImage | frontend/src/Pages/Home.tsx:393 | a click on a card opens its gallery when it has images, and otherwise changes nothing |
| Home.HomePage.CloseGallery | frontend/src/Pages/Home.tsx:95-98 | the gallery closes and the image index resets to 0 |
| Home.HomePage.NextImage | frontend/src/Pages/Home.tsx:100-105 | nothing changes while the gallery is closed; while it is open, the index takes the forward step modulo the card's image count and stays a valid image |
| Home.HomePage.PrevImage | frontend/src/Pages/Home.tsx:107-112 | nothing changes while the gallery is closed; while it is open, the index takes the backward step modulo the image count and stays a valid image |
| Home.HomePage.SelectImage | frontend/src/Pages/Home.tsx:170-173 | an image-dot click sets the image index to that image |
| Home.HomePage.HandleScroll | frontend/src/Pages/Home.tsx:54-65 | the active section becomes the picked section, and stays unchanged when none is picked; nothing else changes |
| Home.NextThenPrevImage | frontend/src/Pages/Home.tsx:100-112 | next image then previous image changes only the image index, and leaves it as it was |
| Home.NextThenPrevPage | frontend/src/Pages/Home.tsx:82-88 | next page then previous page returns to the same page; with the gallery closed the whole state is unchanged |
| Timeline.ShownIdsDistinct | frontend/src/Pages/Timeline.tsx:16-53 | the four shipped entries have distinct ids |
| Timeline.NodePosition | frontend/src/Pages/Timeline.tsx:55-57 | positions lie on a 150 px grid offset by 30, and are at least 30 for real entries; spacing and order are stated by ConstantGap and PositionStrictlyIncreasing, containment by MinHeight |
| Timeline.DotTop | frontend/src/Pages/Timeline.tsx:138 | a node's dot lies below its card's top and above the next card's top |
| Timeline.ConstantGap | frontend/src/Pages/Timeline.tsx:55-57 | consecutive node positions are exactly 150 px apart |
| Timeline.PositionStrictlyIncreasing | frontend/src/Pages/Timeline.tsx:55-57 | node positions strictly increase with the index, by at least one spacing |
| Timeline.MinHeight | frontend/src/Pages/Timeline.tsx:76 | every card top (line 93) and dot top (line 138) of the `n` entries is non-negative and lies above the container's minimum height `150n + 100` |
| Timeline.ConnectingLine | frontend/src/Pages/Timeline.tsx:80-85 | for a non-empty list the line runs from the first dot to the last dot, covers every dot and stays inside the container; for an empty list its ends are inverted |
| Timeline.IsLeft | frontend/src/Pages/Timeline.tsx:94 | a card is anchored left exactly when its entry is education, that is, not work |
| Timeline.IsHovered | frontend/src/Pages/Timeline.tsx:107 | an entry is hovered only when the hover slot holds its id, and never when the slot is empty |
| Timeline.CardStyleOf | frontend/src/Pages/Timeline.tsx:93-108 | exactly one of `left`/`right` and one of the margins is `auto`; the card is anchored left exactly when its type is not work; its top is the node position; z-index is 10 when hovered and 2 otherwise |
| Timeline.BorderColorOf | frontend/src/Pages/Timeline.tsx:59-63 | slate exactly when not hovered; purple exactly for a hovered education entry; cyan exactly for a hovered work entry |
| Timeline.ExpandedCount | frontend/src/Pages/Timeline.tsx:119 | the number of expanded cards is at most the number of entries, and 0 when nothing is hovered |
| Timeline.ExpandedCountPositive | frontend/src/Pages/Timeline.tsx:119 | some card is expanded exactly when the hovered id belongs to an entry |
| Timeline.AtMostOneExpanded | frontend/src/Pages/Timeline.tsx:119 | with distinct ids, at most one card shows its details, and exactly one does when the hovered id is an entry's id |
| Timeline.OnlyHoveredExpanded | frontend/src/Pages/Timeline.tsx:107-119 | with distinct ids, hovering entry `i` expands entry `j` exactly when `j = i`; that card alone gets z-index 10 and every other card gets 2 |
| Timeline.TimelineView.constructor | frontend/src/Pages/Timeline.tsx:14 | nothing is hovered at first, so no card is expanded |
| Timeline.TimelineView.MouseEnter | frontend/src/Pages/Timeline.tsx:112 | the entered entry becomes the hovered one; with distinct ids it is the only expanded card |
| Timeline.TimelineView.MouseLeave | frontend/src/Pages/Timeline.tsx:113 | nothing is hovered; no card is expanded; every card has z-index 2 and a slate border |

## Left out

- Markup, Tailwind class strings, icons and inline style strings. Only the integers and enumerations they are chosen from are kept. Colours are an enumeration, not class names.
- Fields the model does not compute with are dropped: project descriptions, tags, links and gradients. Timeline descriptions are shortened.
- Home.HomePage.GoToNext: closes an open gallery, which the component does not do. The gallery's overlay blocks pointer clicks on the page arrows, but the arrows stay reachable with the keyboard. Moving the page under an open gallery can break the render; the as-written step is `GoToNextAsWritten` (see "## Findings").
- Home.HomePage.GoToPrevious: closes an open gallery, for the same reason as `GoToNext`.
- Home.HomePage.GoToPage: closes an open gallery, for the same reason as `GoToNext`; the page dots are buttons that stay reachable with the keyboard.
- Home.HomePage.GoToPrevious: requires at least one page. With no projects `goToPrevious` would compute `% 0`, which is `NaN` in JavaScript. The arrows are rendered only when there are at least two pages. The same applies to `GoToNext` and `GoToNextAsWritten`.
- DOM effects in the home page are not modelled: `getBoundingClientRect`, `scrollIntoView`, and adding and removing the scroll listener. Section boxes are integer inputs. Browser coordinates are doubles.
- Home.PickSection: a section missing from the document is a key missing from the map.
- The mobile menu toggle, `scrollToSection` and the skills tab switch are not modelled. They set a flag or a tab name, or scroll the browser, and nothing else computes with them.
- The router wrapper (`App.tsx`) is not part of this model.
- The not-found page's particle animation (`NotFound.tsx`) is not part of this model. It uses random numbers, floating-point wrap-around and an animation-frame loop.
- The fluid background (`FluidBackgroud.tsx`) is not part of this model. It uses a sine of the clock inside an animation-frame loop.
- There is no scroll-progress reveal sequencer, because the timeline code has none.

## Findings

| source | as written | input that shows it | evidently intended | confidence | as-written member | corrected member |
|---|---|---|---|---|---|---|
| frontend/src/Pages/Home.tsx:82-88 | `goToNext`, `goToPrevious` and the page dots (lines 484-487) change only `projectIndex`, even while the gallery is open; the arrows and dots are buttons the keyboard can still reach behind the overlay | the four shipped projects, page 0, gallery open on card 2, then Tab to "Next projects" and Enter: page 1 has one card, so line 149 reads `images` of `undefined` during render | a page change leaves no gallery pointing at a card of another page; the model closes the gallery on every page change | medium, not executed | Home.HomePage.GoToNextAsWritten, Home.OpenCardFallsOffPage | Home.HomePage.GoToNext |
