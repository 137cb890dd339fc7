# Portfolio site UI state machines, modelled in Dafny

The site is a single-page personal portfolio written in React. Most of it is
static markup. Seven components hold small state machines driven by clicks,
scrolling, resizing and timers. This project models those state machines and
proves what they promise:

- **Typewriter** (`TextType`, file `text_type.dfy`). The hero section types a
  list of phrases one character per tick. It deletes each phrase again and
  moves on to the next one, cyclically. The pure function `Step` specifies one
  tick. The class `TextTyper` holds the component's state, and its `Tick`
  method is proved to perform `Step`. The lemmas prove these facts:
  - the displayed text is always a prefix of the current phrase;
  - for a non-empty phrase, typing adds exactly one character and deleting
    removes exactly one;
  - a non-empty phrase of n characters (Unicode scalar values) is typed in
    exactly n ticks and deleted in exactly n ticks, after which the next
    phrase is selected;
  - an empty phrase takes one tick to switch to deleting and one more to
    move on to the next phrase.
- **Testimonial slider** (`Carousel`, `carousel.dfy`). There is one
  testimonial per view below a width of 768 px and two otherwise. "Next" and
  "prev" wrap around, pagination dots jump to a view, and autoplay calls
  "next". A resize may leave the index one past the last view of the new
  layout. Both "next" and "prev" bring it back in range. Repeated "next" runs
  through the views cyclically.
- **Toasts** (`Toasts`, `toasts.dfy`). `showToast` appends one toast and
  schedules its removal. When a removal fires, it filters out every toast with
  that id. The filter is proved to keep the other toasts in order, to be
  idempotent, and to commute with other removals. The class invariant says
  that every toast on screen still has a removal to come.
- **Contact form** (`Contact`, `contact.dfy`). Submitting moves the form from
  idle to sending. A reply with status "success" shows the overlay, resets the
  inputs and schedules the return to idle. Any other reply raises the
  "Something went wrong" toast. A thrown error raises the "Failed to send
  message" toast. The outcome of the request is a parameter.
- **Blog post page** (`Comments`, `comments.dfy`). JavaScript's `trim` is
  modelled, and a draft counts as blank exactly when it is all whitespace.
  Posting puts the comment, untrimmed, at the head of the list and clears the
  draft. Like and bookmark are toggles.
- **FAQ accordion** (`Faq`, `faq.dfy`). The component keeps a single optional
  open index. One question's answer toggles, and opening one question closes
  the one that was open, so at most one answer is ever visible, as the code
  does it. Submitting the enquiry form changes no state: it is
  the method `Faq.Accordion.SubmitEnquiry`, which has an empty body and no
  `modifies` clause.
- **Navigation bar** (`Navbar`, `navbar.dfy`). The bar counts as scrolled
  strictly past 20 px. The menu button toggles the menu, and any link in the
  mobile menu closes it.

`optional.dfy` declares `Option` (JavaScript's `null`). `modular.dfy` holds
facts about `%` that the typewriter and the slider share.

Timers, the clock and the network are not modelled. Instead, each of them
becomes an explicit event or parameter:

- a tick of the typewriter is `TextTyper.Tick`;
- an autoplay tick is `Slider.AutoplayTick`;
- the firing of a toast's removal is `ToastCenter.Expire`;
- the firing of the contact form's reset is `ContactForm.ResetTimerFires`;
- `Date.now()` ids are method parameters;
- the outcome of the contact request is the `Outcome` parameter of
  `ContactForm.Settle`.

## Model

| member | source | states |
|---|---|---|
| `TextType.Substring` | src/components/Main.jsx:37-39 | `substring(0, end)` returns a prefix of the string; `end` is clamped to 0 below and to the length above |
| `TextType.PhraseIndex` | src/components/Main.jsx:35-36 | `loopNum % text.length` is a valid index into a non-empty phrase list |
| `TextType.NextPhraseIndex` | src/components/Main.jsx:35-52 | incrementing `loopNum` selects the next phrase, wrapping from the last phrase to the first |
| `TextType.Phrase` | src/components/Main.jsx:35-36 | the phrase of round `loopNum` is always one of the list |
| `TextType.PhrasePeriodic` | src/components/Main.jsx:35-36 | after as many rounds as there are phrases, the same phrase comes back |
| `TextType.Step` | src/components/Main.jsx:34-55 | one tick: the new text is a prefix of the current phrase; `loopNum` grows by at most one, and only when deleting switches to typing; typing switches to deleting exactly when the full phrase is reached, with delay `pauseDuration`; deleting switches to typing exactly at "", with delay `typingSpeed`; otherwise a deleting tick divides the delay by 1.5 and a typing tick keeps it |
| `TextType.InitialSatisfiesInv` | src/components/Main.jsx:21-24 | the mount state ("", typing, round 0) satisfies the invariant |
| `TextType.StepPreservesInv` | src/components/Main.jsx:34-55 | a tick preserves the invariant: the text is a prefix of the phrase, a typing phrase is not yet complete and a deleting text is not yet empty, unless the phrase is empty |
| `TextType.StepMovesOneCharacter` | src/components/Main.jsx:37-39 | in reachable states a typing tick on a non-empty phrase adds the next character of the phrase; a deleting tick removes the last character, and deleting at "" stays at "" |
| `TextType.RunPreservesInv` | src/components/Main.jsx:26-55 | after any number n of ticks the invariant still holds, and `loopNum` has not decreased and has grown by at most n |
| `TextType.TypingCompletesPhrase` | src/components/Main.jsx:38-49 | for a non-empty phrase, from any reachable typing state, exactly as many ticks as characters are missing produce the full phrase in deleting mode with delay `pauseDuration` |
| `TextType.DeletingCompletesRound` | src/components/Main.jsx:38-53 | from any reachable deleting state with non-empty text t, exactly \|t\| ticks give "", typing mode, `loopNum + 1` and delay `typingSpeed` |
| `TextType.RoundAdvancesPhrase` | src/components/Main.jsx:34-55 | starting a non-empty phrase p at "", 2\|p\| ticks return to "" in typing mode on the next phrase, taken cyclically |
| `TextType.EmptyPhraseRound` | src/components/Main.jsx:37-53 | for an empty phrase, the first tick from "" switches to deleting with delay `pauseDuration`, and the second moves to the next round in typing mode with delay `typingSpeed` |
| `TextType.TextTyper.constructor` | src/components/Main.jsx:20-24 | mounting with defaults 75 and 1500 starts at "", typing, round 0, delay `typingSpeed`, and in a valid state |
| `TextType.TextTyper.Tick` | src/components/Main.jsx:34-55 | the setter-by-setter update equals `Step` of the old state and keeps the invariant |
| `Carousel.NextIndex` | src/components/Testimonials.jsx:75-77 | from a non-negative index the result lies in [0, maxIndex]; every index ≥ maxIndex wraps to 0, so an index left out of range is repaired |
| `Carousel.PrevIndex` | src/components/Testimonials.jsx:79-81 | 0 wraps to maxIndex; any other index decrements; from [0, maxIndex + 1] the result lies in [0, maxIndex] |
| `Carousel.MaxIndex` | src/components/Testimonials.jsx:71-73 | `maxIndex` starts the last full view: the view there is full, the view one further would not be, and with one full view it names a testimonial |
| `Carousel.NavigationRepairsResize` | src/components/Testimonials.jsx:71-81 | for any window width, one press of next or prev from an index that names a testimonial lands on an admissible view of the new layout |
| `Carousel.DotCount` | src/components/Testimonials.jsx:193 | the number of dots, `length - (slidesPerView - 1)`, equals `maxIndex + 1` whenever one full view exists, and is 0 otherwise |
| `Carousel.MaxIndexByLayout` | src/components/Testimonials.jsx:71-73 | `maxIndex` is `length - 1` on mobile and `length - 2` on desktop; both are valid slide indices |
| `Carousel.PrevUndoesNext` | src/components/Testimonials.jsx:75-81 | on [0, maxIndex], prev after next restores the index |
| `Carousel.NextUndoesPrev` | src/components/Testimonials.jsx:75-81 | on [0, maxIndex], next after prev restores the index |
| `Carousel.AdvanceIsCyclic` | src/components/Testimonials.jsx:75-89 | k presses of next (or k autoplay ticks) from index i reach `(i + k) mod (maxIndex + 1)` |
| `Carousel.AdvanceFullCycle` | src/components/Testimonials.jsx:83-89 | autoplay stays in [0, maxIndex] and is back at its start after `maxIndex + 1` ticks |
| `Carousel.Slider.constructor` | src/components/Testimonials.jsx:22-24 | the slider starts at index 0 with autoplay on |
| `Carousel.Slider.Dots` | src/components/Testimonials.jsx:193-198 | one dot is drawn per admissible view; whenever the index is admissible exactly one dot is highlighted, the one at the index, and no other dot ever is |
| `Carousel.Slider.Resize` | src/components/Testimonials.jsx:27-34 | a resize sets only the layout; the index is unchanged and still names a testimonial |
| `Carousel.Slider.NextSlide` | src/components/Testimonials.jsx:75-77 | the index becomes `NextIndex` of the old index and lies in [0, maxIndex] |
| `Carousel.Slider.PrevSlide` | src/components/Testimonials.jsx:79-81 | the index becomes `PrevIndex` of the old index and lies in [0, maxIndex] |
| `Carousel.Slider.SelectDot` | src/components/Testimonials.jsx:193-196 | clicking dot i sets the index to exactly i, which is in range, and dot i is then the highlighted one |
| `Carousel.Slider.MouseEnter` | src/components/Testimonials.jsx:117 | hovering stops autoplay, changes nothing else and keeps the invariant |
| `Carousel.Slider.MouseLeave` | src/components/Testimonials.jsx:118 | leaving resumes autoplay, changes nothing else and keeps the invariant |
| `Carousel.Slider.AutoplayTick` | src/components/Testimonials.jsx:83-89 | while autoplay is on, a tick acts as next; otherwise no timer is running and nothing changes |
| `Toasts.WithoutId` | src/context/ToastContext.jsx:16 | the filter keeps exactly the toasts whose id differs, never grows the list, and leaves it unchanged when the id is absent |
| `Toasts.WithoutIdAppend` | src/context/ToastContext.jsx:16 | the filter distributes over concatenation, so the survivors keep their relative order |
| `Toasts.WithoutIdIdempotent` | src/context/ToastContext.jsx:16 | repeating an expiry of the same id changes nothing |
| `Toasts.ExpiriesCommute` | src/context/ToastContext.jsx:15-17 | expiries of two ids give the same list in either order |
| `Toasts.ExpiryOfNewToast` | src/context/ToastContext.jsx:11-16 | a toast's own expiry removes it with every earlier toast of the same id; with a fresh id the earlier list is restored exactly |
| `Toasts.ToastCenter.constructor` | src/context/ToastContext.jsx:8 | the provider starts with no toasts and no scheduled removals |
| `Toasts.ToastCenter.ShowToast` | src/context/ToastContext.jsx:10-18 | exactly one `{id, message, type}` is appended at the end, with type "success" and duration 4000 as defaults; one removal is scheduled; earlier toasts are unchanged; a toast of the default type is drawn in the success colour |
| `Toasts.ToastCenter.Expire` | src/context/ToastContext.jsx:15-17 | a firing removal filters out every toast with its id, so no toast with that id remains, and is itself dropped from the schedule |
| `Toasts.ToastCenter.ToastsAwaitRemoval` | src/context/ToastContext.jsx:10-17 | every toast on screen has a removal still to come, so once all removals have fired the list is empty |
| `Contact.OutcomeEffect` | src/components/Contact.jsx:30-41 | only the reply status "success" leads to `success`, and exactly that outcome raises no toast; any other status leads to "Something went wrong" and a thrown error to "Failed to send message"; no outcome stays in `sending` |
| `Contact.RequiredFilled` | src/components/Contact.jsx:128-156 | the `required` check passes only when no input is empty, so inputs that were reset cannot be sent again without typing |
| `Contact.ContactForm.ButtonDisabled` | src/components/Contact.jsx:162 | the button is disabled only while a request is in flight, and never under the success overlay |
| `Contact.ContactForm.ShowsOverlay` | src/components/Contact.jsx:117 | while the overlay shows, a return-to-idle timer is always pending to remove it |
| `Contact.ContactForm.constructor` | src/components/Contact.jsx:15 | the form starts `idle`, with the button enabled and no overlay |
| `Contact.ContactForm.Edit` | src/components/Contact.jsx:128-156 | typing sets the three inputs and nothing else |
| `Contact.ContactForm.Submit` | src/components/Contact.jsx:17-19 | a submission goes through exactly when the button is enabled and every required input is filled; it then moves to `sending` before any reply and adds one request in flight |
| `Contact.ContactForm.Settle` | src/components/Contact.jsx:23-42 | only a request in flight can settle, and it leaves flight. The state becomes that of `OutcomeEffect`. On success the overlay shows, the inputs are reset, a return to idle is scheduled and no toast is raised. Otherwise exactly one error toast with the outcome's message is appended, and every toast raised is drawn in the error colour |
| `Contact.ContactForm.ResetTimerFires` | src/components/Contact.jsx:33 | the scheduled return sets the state to `idle` (overlay hidden, button enabled) |
| `Comments.TrimStart` | src/components/BlogDetailPage.jsx:84 | the result is a suffix of the draft; all removed characters are whitespace and the result does not start with whitespace |
| `Comments.TrimEnd` | src/components/BlogDetailPage.jsx:84 | the result is a prefix of the draft; all removed characters are whitespace and the result does not end with whitespace |
| `Comments.Trim` | src/components/BlogDetailPage.jsx:84 | the result is no longer than the draft, and neither starts nor ends with whitespace |
| `Comments.TrimIsInnerPiece` | src/components/BlogDetailPage.jsx:84 | the result is the piece of the draft that starts after its leading whitespace, and everything before and after that piece is whitespace |
| `Comments.TrimPiece` | src/components/BlogDetailPage.jsx:84 | the result is the piece of the draft that starts after its leading whitespace |
| `Comments.TrimDropsTrailingWhitespace` | src/components/BlogDetailPage.jsx:84 | everything after the kept piece is whitespace |
| `Comments.TrimEmptyIffBlank` | src/components/BlogDetailPage.jsx:84 | `trim()` gives "" exactly when the draft is empty or all whitespace |
| `Comments.BlogDetail.constructor` | src/components/BlogDetailPage.jsx:69-72 | the page starts with the two initial comments, nothing posted, an empty draft, posting disabled, and nothing liked or bookmarked |
| `Comments.BlogDetail.CanPost` | src/components/BlogDetailPage.jsx:243 | the post button is enabled exactly when the draft has a character other than whitespace |
| `Comments.BlogDetail.DiscussionCount` | src/components/BlogDetailPage.jsx:221 | the heading counts the initial comments plus every comment the visitor has posted |
| `Comments.BlogDetail.EditDraft` | src/components/BlogDetailPage.jsx:236 | editing the comment box sets the draft and nothing else |
| `Comments.BlogDetail.SubmitComment` | src/components/BlogDetailPage.jsx:82-95 | a submit that reaches the handler posts exactly when the post button is enabled, i.e. the draft is not all whitespace. Posting prepends {id, "Guest User", the untrimmed draft, "Just now"}, keeps all old comments in order (the initial ones stay last), clears the draft and adds one to the count. A refused draft changes nothing |
| `Comments.BlogDetail.ToggleLike` | src/components/BlogDetailPage.jsx:199 | a click flips `isLiked` and changes nothing else |
| `Comments.BlogDetail.ToggleBookmark` | src/components/BlogDetailPage.jsx:206 | a click flips `isBookmarked` and changes nothing else |
| `Comments.TwoClicksRestore` | src/components/BlogDetailPage.jsx:199-206 | two clicks on like and two on bookmark restore both flags and the comments |
| `Faq.ToggleTwiceCloses` | src/components/Faqs.jsx:46 | toggling a closed item twice leaves every item closed |
| `Faq.ToggleTwiceKeepsOpen` | src/components/Faqs.jsx:46 | toggling the open item twice (closed, then open again) leaves it open |
| `Faq.Accordion.AtMostOneOpen` | src/components/Faqs.jsx:74 | at most one item is drawn open |
| `Faq.Accordion.IsOpen` | src/components/Faqs.jsx:74 | only a rendered item can be drawn open |
| `Faq.Accordion.constructor` | src/components/Faqs.jsx:24 | initially no item is open |
| `Faq.Accordion.ToggleFaq` | src/components/Faqs.jsx:45-47 | toggling the open item closes every item; toggling a closed item opens it and closes every other item |
| `Faq.Accordion.SubmitEnquiry` | src/components/Faqs.jsx:131 | submitting the enquiry form leaves the open item as it was |
| `Navbar.ThresholdIsNotScrolled` | src/components/Navbar.jsx:26 | an offset of 20 or less, 20 itself included, is not scrolled |
| `Navbar.NavLinkNamesDistinct` | src/components/Navbar.jsx:32-38 | the link names, used as list keys, are pairwise distinct |
| `Navbar.NavBar.constructor` | src/components/Navbar.jsx:15-16 | initially the menu is closed and the bar is not scrolled |
| `Navbar.NavBar.OnScroll` | src/components/Navbar.jsx:25-27 | scrolling sets the flag to `ScrolledAt(scrollY)` and leaves the menu alone |
| `Navbar.NavBar.ToggleMenu` | src/components/Navbar.jsx:103 | the menu button flips `isOpen` |
| `Navbar.NavBar.ClickMobileLink` | src/components/Navbar.jsx:133 | any mobile link closes the menu, whatever its previous state |
| `Navbar.MenuTwiceRestores` | src/components/Navbar.jsx:103 | two presses of the menu button restore both flags |

## Left out

- Timers and wall-clock time. These are the typewriter interval, the
  autoplay interval, the toast removals and the contact reset. Each firing is
  an explicit method call. Firing order and delays are not modelled: any
  scheduled toast removal may fire next.
- `delta / 1.5` and the other delays are modelled as exact `real`
  arithmetic. IEEE double rounding is not modelled.
- React scheduling. Batched `setState`, the stale closure of `tick` and
  effect re-subscription are not modelled: each handler is one atomic
  transition computed from the state before it.
- `fetch`, the hard-coded endpoint, `FormData` and JSON decoding in the
  contact form. They become the `Outcome` parameter: a decoded `status`, or a
  thrown error. The `console.error` call in the error path is not modelled.
- `Date.now()` ids. They are parameters of the methods that create toasts and
  comments.
- Floating-point animation values are not modelled. These are the reading
  progress spring of the blog page and the `translateX` percentage of the
  slider. All markup, class strings, animations and icons are also left out,
  except the conditions that choose a toast's colour, the contact button's
  disabled state, the success overlay, the highlighted dot and the open FAQ
  item.
- The static sections and composition files are not part of this model:
  tools, academic, services, blog list, footer, app, entry point and
  configuration. The project gallery is also out: it is one foreign GET
  request and its rendering. The work-experience timeline is out too: it is
  driven by the browser's `IntersectionObserver`.
- The "Your Name" input of the comment form is not modelled: it is
  uncontrolled and only subject to the browser's `required` check.
- `TextType.Step` counts characters as Unicode scalar values, while
  `length` and `substring` in the source count UTF-16 code units. For a
  phrase with a character outside the Basic Multilingual Plane the source
  needs one tick per code unit and shows a lone surrogate half-way; the
  model types that character in one tick. The tick counts proved for the
  typewriter hold for phrases inside that plane.
- `TextType.TextTyper.constructor` requires a non-empty phrase list. With an
  empty list the source's `loopNum % 0` is `NaN`, `text[NaN]` is
  `undefined`, and the first tick throws when it calls `substring` on it.
- `Carousel.Slider.constructor` takes the number of testimonials as a
  parameter of at least 2, the largest `slidesPerView`. The source hard-codes
  four.
- `Contact.ContactForm.Submit`: of the browser's validation it models only
  the `required` check (no input empty). It does not model the format check
  of the `type="email"` input, so it admits some submissions the browser
  refuses.
