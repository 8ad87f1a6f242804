# Portfolio site logic in Dafny

This project models the small pieces of sequential logic inside the React
components of a personal portfolio site, and proves what each of them does.
Almost all of the site is markup and animation. What is left is:

- the contact forms, with their field updates, required-field check, e-mail
  check and submit/reset state machine (`ContactHub`, `ContactSection`);
- the particle background, with particle creation, the per-frame update
  (ageing, damping, fading, removal and edge bounce) and the capped spawn
  (`ParticleSystem`);
- the typing animation in the hero area, with its line cursor, its snippet
  cycle, its line numbering and its keyword highlighting (`LiveCoding`);
- the two testimonial carousels, with their index arithmetic, direct
  selection, autoplay flag and avatar initials (`Carousel`,
  `TestimonialsCarousel`, `TestimonialsSection`);
- the navigation bar's hide-on-scroll rule and mobile menu (`Navbar`);
- the category filters, count badges, truncations and link conditions of the
  project and blog listings (`CategoryFilter`, `ProjectsSection`,
  `ProjectsShowcase`, `BlogSection`);
- the timeline's icon mapping and active entry (`InteractiveTimeline`), the
  theme switch and its persisted value (`ThemeToggle`), and the project page's
  lookup and render decision (`ProjectDetails`).

Components whose fields change in place become classes: their methods carry
`modifies` clauses and state the whole new state. The pure parts (filters,
checks, mappings) become functions on datatypes, with lemmas for the
properties that relate several of them. Shared helpers model the JavaScript
operations the components rely on: `String.prototype.split` and `join`,
`trim` and the `\s` character class (`Text`), `Array.prototype.filter` and
`slice(0, k)` (`Seqs`), and the e-mail regular expression as a hand-written
predicate (`EmailCheck`). `Wrappers` holds an `Option` type.

Modelling choices:

- Particle coordinates, velocities and opacities are exact `real`s.
  `Math.random` results are parameters: `Draws` and `SpawnDraws` records of
  values in [0, 1), and a coin value for each spawn decision.
- Every `setTimeout`, `setInterval` and `requestAnimationFrame` callback is an
  explicit step method (`SuccessStep`, `Tick`, `AutoPlayTick`,
  `IntervalTick`, `Animate`). They fire when the caller says so, and no
  duration is modelled.
- Notifications are returned values (`Toast`). The browser's key-value store
  is a `map<string, string>`, and the document's `dark` class is a boolean.
- The project collection of the project page comes from a data file that is
  not part of this model. It is a parameter, and `Number(params.id)` is an
  `Option<int>`, where `None` stands for NaN.
- A particle at (5, 300) with velocity (-3, 0) moves to x = 2, which is
  still inside, so it does not bounce (`ParticleSystem.LeftEdgeExamples`).

## Model

| member | source | states |
|---|---|---|
| ContactHub.WithField | components/contact-hub.tsx:45-48 | the named field takes the new value and every other field keeps its old value |
| ContactHub.Validate | components/contact-hub.tsx:55-75 | the verdict is "required fields" exactly when name, email or message is the empty string (no trimming); otherwise it is "invalid e-mail" exactly when the address does not match `^[^\s@]+@[^\s@]+\.[^\s@]+$`; otherwise it is accepted |
| ContactHub.OptionalFieldsIgnored | components/contact-hub.tsx:55 | changing subject, opportunity type, company or preferred contact never changes the verdict |
| ContactHub.ContactForm.constructor | components/contact-hub.tsx:33-43 | all seven fields start empty and the form is not submitting |
| ContactHub.ContactForm.HandleInputChange | components/contact-hub.tsx:45-48 | the form data becomes the single-field update of the old data; the flags are unchanged |
| ContactHub.ContactForm.HandleSubmit | components/contact-hub.tsx:50-77 | the data is untouched; a rejection returns its notification and leaves the form not submitting; an acceptance leaves it submitting with one delayed success step scheduled |
| ContactHub.ContactForm.PressSend | components/contact-hub.tsx:489 | while submitting, the disabled button does nothing; otherwise the form is submitting afterwards iff the data was accepted, and the invariant that a success step is pending exactly while submitting is kept |
| ContactHub.ContactForm.SuccessStep | components/contact-hub.tsx:78-93 | the success notification is returned, all seven fields are reset to "" and the flag is cleared |
| EmailCheck.IsValidEmail | components/contact-hub.tsx:66-67 | no white space, exactly one '@' with a non-empty part before it, and a '.' in the domain that is neither its first nor its last character |
| EmailCheck.EmailCheckMatchesPattern | components/contact-hub.tsx:66-67 | the hand-written check holds iff the address has the shape of the pattern: a '@' at some i > 0, a later '.' at j with i + 1 < j < length - 1, and every other character neither white space nor '@' |
| EmailCheck.RejectsPlainWord | components/contact-hub.tsx:66-67 | "not-an-email", which has no '@', is rejected |
| EmailCheck.RejectsWithoutAt | components/contact-hub.tsx:66-67 | any string without an '@' is rejected |
| EmailCheck.AcceptsSimpleAddress | components/contact-hub.tsx:66-67 | "a@b.co" is accepted |
| Text.Split | components/live-coding-animation.tsx:462 | `split` on one separator character yields at least one piece, and no piece contains the separator |
| Text.Join | components/testimonials-carousel.tsx:163-166 | `join` starts with the first piece, followed by the separator when there are more pieces |
| Text.JoinSplit | components/testimonials-carousel.tsx:163-166 | joining the pieces of a split with the same separator restores the string |
| Text.SplitJoin | components/testimonials-carousel.tsx:163-166 | splitting a join of separator-free pieces gives back exactly those pieces |
| Text.TrimEmptyIff | components/live-coding-animation.tsx:497 | `trim()` gives the empty string iff every character is white space |
| Text.Trim | components/live-coding-animation.tsx:497 | `trim()` is no longer than its input and neither starts nor ends with white space |
| Seqs.Filter | components/projects-section.tsx:160 | `filter` keeps at most as many elements as it is given, each satisfying the predicate |
| Seqs.FilterMembership | components/projects-section.tsx:160 | an element is kept iff it is in the input and satisfies the predicate |
| Seqs.FilterSubsequence | components/projects-section.tsx:160 | the kept elements keep their original relative order |
| Seqs.FilterCount | components/projects-section.tsx:160 | an element that satisfies the predicate is kept exactly as often as it occurs, any other element not at all |
| Seqs.FilterCountAll | components/projects-section.tsx:160 | the kept elements form a sub-multiset of the input, and every element that satisfies the predicate keeps its multiplicity |
| Seqs.FilterKeepsOne | components/projects-section.tsx:160 | when only the element at one index satisfies the predicate, `filter` returns exactly that element |
| Seqs.Take | components/projects-section.tsx:191 | `slice(0, k)` is a prefix of length min(k, length) |
| ContactSection.WithField | components/contact-section.tsx:31-34 | the named field of the six takes the new value and every other field keeps its old value |
| ContactSection.Validate | components/contact-section.tsx:41-61 | name, email and message are required; then the same e-mail pattern decides |
| ContactSection.OptionalFieldsIgnored | components/contact-section.tsx:41 | subject, opportunity type and company never change the verdict |
| ContactSection.ContactForm.constructor | components/contact-section.tsx:20-29 | all six fields start empty and the form is not submitting |
| ContactSection.ContactForm.HandleInputChange | components/contact-section.tsx:31-34 | the form data becomes the single-field update of the old data |
| ContactSection.ContactForm.HandleSubmit | components/contact-section.tsx:36-63 | a rejection keeps the data and clears the flag; an acceptance schedules the success step |
| ContactSection.ContactForm.PressSend | components/contact-section.tsx:294 | the disabled button does nothing while submitting; otherwise it submits |
| ContactSection.ContactForm.SuccessStep | components/contact-section.tsx:64-71 | all six fields are reset to "" and the flag is cleared |
| ParticleSystem.CreateParticle | components/particle-system.tsx:39-53 | life 0, maxLife in [50, 150), a colour from the five-entry palette, velocities in [-1, 1), size in [1, 4), opacity in [0.2, 1) |
| ParticleSystem.CreatedWellFormed | components/particle-system.tsx:41-53 | a new particle is younger than its lifespan, has a palette colour and an opacity in [0, 1] |
| ParticleSystem.Fade | components/particle-system.tsx:95 | `max(0, 1 - life/maxLife)` lies in [0, 1] and is 0 iff life has reached maxLife |
| ParticleSystem.Advance | components/particle-system.tsx:85-95 | position grows by the old velocity, life by exactly 1, vx becomes 0.99·vx, vy becomes 0.99·(vy + 0.01), opacity is the fade value, and nothing else changes |
| ParticleSystem.Bounce | components/particle-system.tsx:104-105 | vx is multiplied by -0.8 iff the new x is outside [0, width], likewise vy for y and height, and nothing else changes |
| ParticleSystem.LeftEdgeExamples | components/particle-system.tsx:85-105 | a particle at x = 5 moving at -3 stays inside and keeps moving left; one at x = 2 leaves the surface and turns back |
| ParticleSystem.FrameUpdate | components/particle-system.tsx:81-106 | the update-and-remove pass never lengthens the list, and every particle it keeps is short of its lifespan and visible |
| ParticleSystem.FrameUpdateSurvivors | components/particle-system.tsx:81-106 | the frame's result has one entry per surviving particle, in order, each advanced and bounced |
| ParticleSystem.SurvivorMembership | components/particle-system.tsx:98-101 | a particle survives iff it is not dead after advancing; the survivors are a subsequence of the input |
| ParticleSystem.FrameUpdateWellFormed | components/particle-system.tsx:95-101 | every survivor is younger than its lifespan, keeps a palette colour and has an opacity in (0, 1] |
| ParticleSystem.YoungParticlesSurvive | components/particle-system.tsx:98 | a particle at least two frames from its lifespan is not removed |
| ParticleSystem.UpdateParticle | components/particle-system.tsx:82-105 | the field-by-field mutation reports removal iff the advanced particle is dead, and otherwise yields the advanced, bounced particle |
| ParticleSystem.ParticleField.constructor | components/particle-system.tsx:55-58 | exactly 30 particles, each created from its draws at a point of the surface |
| ParticleSystem.ParticleField.MouseMove | components/particle-system.tsx:60-68 | the pointer is recorded and active, and at most one particle is appended at the pointer when the draw is below 0.3 |
| ParticleSystem.ParticleField.MouseLeave | components/particle-system.tsx:70-72 | the pointer becomes inactive and nothing else changes |
| ParticleSystem.ParticleField.UpdateParticles | components/particle-system.tsx:81-106 | the reverse-index loop with its splices leaves exactly the frame's survivors, advanced and bounced, in order, and keeps every particle well formed |
| ParticleSystem.ParticleField.Animate | components/particle-system.tsx:77-143 | after the update loop, at most one particle is appended, and only when fewer than 50 are left and the draw is below 0.02 |
| LiveCoding.SplitTypedThen | components/live-coding-animation.tsx:466 | splitting typed lines followed by more text at newlines gives those lines back, then the pieces of the rest |
| LiveCoding.TypedLines | components/live-coding-animation.tsx:495 | the displayed text splits into the typed lines plus one empty last line |
| LiveCoding.LineLabel | components/live-coding-animation.tsx:497 | a displayed line gets a number iff it has a non-white-space character, and the number is its index + 1 |
| LiveCoding.LineLabels | components/live-coding-animation.tsx:495-497 | one label per displayed line, each the label of that line at its index |
| LiveCoding.NextSnippet | components/live-coding-animation.tsx:474 | the next snippet index lies in [0, 8) |
| LiveCoding.SwitchesCycle | components/live-coding-animation.tsx:474 | n snippet switches from k land on (k + n) mod 8, so the cycle is 0→1→…→7→0 |
| LiveCoding.FirstMatch | components/live-coding-animation.tsx:501 | the first listed alternative that occurs as a whole word at the position: a found word is the alternative at some index k, it matches, and no alternative before k matches; none only when no alternative matches |
| LiveCoding.KeywordAt | components/live-coding-animation.tsx:501 | a found keyword is one of the 17 and occurs there as a whole word |
| LiveCoding.NoKeywordAt | components/live-coding-animation.tsx:501 | when the pattern fails at a position, no keyword occurs there as a whole word |
| LiveCoding.SplitFrom | components/live-coding-animation.tsx:499-502 | the split loop always yields at least one piece: the text before each match, the match, and the text after the last match |
| LiveCoding.Segments | components/live-coding-animation.tsx:499-502 | the pieces of a line, at least one, spell the line |
| LiveCoding.SplitFromShape | components/live-coding-animation.tsx:499-502 | the split pieces alternate between plain text (which is never a keyword) and captured keywords, together they spell the text, no position inside a plain piece starts a keyword match, and each captured piece is the match where it starts |
| LiveCoding.PlainPieceNotKeyword | components/live-coding-animation.tsx:499-502 | the text between two matches, or after the last, is never one of the 17 words |
| LiveCoding.MatchesOfCaptures | components/live-coding-animation.tsx:499-502 | for a whole line, the pieces produced by the search have no keyword match at any position of a plain piece, and each captured piece is the keyword matched where it starts |
| LiveCoding.IsHighlighted | components/live-coding-animation.tsx:504-531 | a piece is highlighted iff it is one of the 17 words, so a highlighted piece is a non-empty run of word characters |
| LiveCoding.SegmentsHighlighting | components/live-coding-animation.tsx:499-531 | the pieces of a line spell the line; a piece is highlighted iff it is at an odd position; every odd piece is the keyword the pattern matches where it starts; and no position inside an even (plain) piece starts a keyword match, so no keyword of the line is left unhighlighted |
| LiveCoding.LiveCodingAnimation.constructor | components/live-coding-animation.tsx:456-458 | the first snippet, nothing displayed, cursor at line 0 |
| LiveCoding.LiveCodingAnimation.Tick | components/live-coding-animation.tsx:460-481 | with lines left, the next line and a newline are appended and the cursor advances by one; otherwise the next snippet mod 8 is selected and the display and cursor reset; either way the displayed text stays exactly the typed lines before the cursor, and the cursor stays within the snippet |
| LiveCoding.LiveCodingAnimation.DisplayedLines | components/live-coding-animation.tsx:495-497 | in every state the displayed lines are the snippet's lines before the cursor plus an empty line, with the last one unnumbered; the cursor is hidden exactly when the whole snippet is displayed |
| LiveCoding.LiveCodingAnimation.CursorShown | components/live-coding-animation.tsx:536 | the cursor is shown while lines remain; once it is hidden the display holds the whole snippet |
| Carousel.NextIndex | components/testimonials-carousel.tsx:79-81 | the next index lies in [0, n) and is i + 1 below the last slide |
| Carousel.PrevIndex | components/testimonials-carousel.tsx:83-85 | the previous index lies in [0, n) and is i - 1 above the first slide |
| Carousel.NextPrevInverse | components/testimonials-carousel.tsx:79-85 | previous after next, and next after previous, return to the same slide |
| Carousel.WrapAround | components/testimonials-carousel.tsx:79-85 | next of the last slide is the first, previous of the first is the last |
| Carousel.FirstChars | components/testimonials-carousel.tsx:165-166 | at most one character per word |
| Carousel.FirstCharsOfWords | components/testimonials-carousel.tsx:165-166 | with no empty words, exactly the first character of each word, in order |
| Carousel.FirstCharsAvoid | components/testimonials-carousel.tsx:165-166 | a character that occurs in no word is not among the initials |
| Carousel.Initials | components/testimonials-carousel.tsx:163-166 | at most one initial per word, never a space, and a name that does not start with a space has its own first character as first initial |
| Carousel.InitialsOfJoinedWords | components/testimonials-carousel.tsx:163-166 | a name of non-empty words joined by single spaces has as initials the first character of each word, in order |
| TestimonialsCarousel.FirstInitials | components/testimonials-carousel.tsx:163-166 | "Dr. Sarah Ahmed" shows "DSA" |
| TestimonialsCarousel.TestimonialsCarouselState.constructor | components/testimonials-carousel.tsx:13-14 | the first slide, autoplay on |
| TestimonialsCarousel.TestimonialsCarouselState.Next | components/testimonials-carousel.tsx:79-81 | the index becomes the next index mod 5 |
| TestimonialsCarousel.TestimonialsCarouselState.Prev | components/testimonials-carousel.tsx:83-85 | the index becomes the previous index mod 5 |
| TestimonialsCarousel.TestimonialsCarouselState.SelectDot | components/testimonials-carousel.tsx:199-207 | dot k selects slide k |
| TestimonialsCarousel.TestimonialsCarouselState.SelectPreview | components/testimonials-carousel.tsx:241-249 | preview card k, of the first three, selects slide k |
| TestimonialsCarousel.TestimonialsCarouselState.ToggleAutoPlay | components/testimonials-carousel.tsx:217 | the play button flips the autoplay flag |
| TestimonialsCarousel.TestimonialsCarouselState.AutoPlayTick | components/testimonials-carousel.tsx:87-92 | an interval tick advances the slide iff autoplay is on |
| TestimonialsSection.TestimonialsSectionState.constructor | components/testimonials-section.tsx:14 | the first slide |
| TestimonialsSection.TestimonialsSectionState.Next | components/testimonials-section.tsx:69-71 | the index becomes the next index mod 5 |
| TestimonialsSection.TestimonialsSectionState.Prev | components/testimonials-section.tsx:73-75 | the index becomes the previous index mod 5 |
| TestimonialsSection.TestimonialsSectionState.SelectDot | components/testimonials-section.tsx:164 | dot k selects slide k |
| TestimonialsSection.TestimonialsSectionState.SelectPreview | components/testimonials-section.tsx:191-199 | preview card k, of the first three, selects slide k |
| TestimonialsSection.TestimonialsSectionState.IntervalTick | components/testimonials-section.tsx:77-80 | every interval tick advances the slide; there is no pause flag |
| Navbar.VisibleAfter | components/navbar.tsx:17-21 | the bar is hidden iff the new offset is above the previous one and above 128; any offset up to 128, or up to the previous one, shows it |
| Navbar.OnScrollStep | components/navbar.tsx:16-23 | the stored offset becomes the event's offset and the visibility follows the rule |
| Navbar.Replay | components/navbar.tsx:16-23 | after a series of scroll events the stored offset is the last event's; no events leave the state unchanged |
| Navbar.ReplayLastEvent | components/navbar.tsx:16-23 | after any non-empty series of scroll events the stored offset is the last one, and the bar is hidden iff the last event moved down past 128 |
| Navbar.NavbarState.constructor | components/navbar.tsx:10-12 | visible, offset 0, menu closed |
| Navbar.NavbarState.OnScroll | components/navbar.tsx:16-23 | the state becomes the scroll step of the old state |
| Navbar.NavbarState.ScrollTo | components/navbar.tsx:36-40 | selecting a nav item leaves the mobile menu closed |
| Navbar.NavbarState.ToggleMenu | components/navbar.tsx:71 | the menu button flips the menu |
| CategoryFilter.Visible | components/projects-section.tsx:159-160 | "All" shows the list unchanged; any other category shows items of that category only, every item of that category, and only items of the list, in their original order |
| CategoryFilter.VisibleKeepsDuplicates | components/projects-section.tsx:159-160 | every shown item is shown at most as often as it occurs, and an item of the selected category exactly as often |
| CategoryFilter.BadgeCount | components/projects-section.tsx:308 | a button's badge equals the length of the list that button shows, is at most the number of items, and "All" shows the total |
| CategoryFilter.AbsentCategory | components/projects-section.tsx:160 | a category no item has shows an empty list and a zero badge |
| CategoryFilter.SingleCategory | components/projects-section.tsx:159-160 | a category exactly one item has shows that item alone, and its badge is 1 |
| ProjectsSection.FeaturedRow | components/projects-section.tsx:162-191 | the featured row is the first min(3, #featured) featured projects, in order |
| ProjectsSection.FilteredProjects | components/projects-section.tsx:159-160 | the shown projects are a subsequence of the eight; "All" shows all of them, any other filter only projects of that category |
| ProjectsSection.FilterBadge | components/projects-section.tsx:308 | the badge is the length of the list the button shows, at most 8 |
| ProjectsSection.FeaturedTechBadges | components/projects-section.tsx:249-258 | the first four technologies (all of them, when there are fewer) are listed; a "+N" badge appears iff there are more than four, with N = length − 4, so the listed ones and N account for all |
| ProjectsSection.FeaturedHighlights | components/projects-section.tsx:236 | exactly the first min(2, length) highlights |
| ProjectsSection.ShowsLiveLink | components/projects-section.tsx:272 | the Live link is rendered iff the address is not the "#" placeholder (its value on the eight projects is `ProjectsSection.LiveLinks`) |
| ProjectsSection.LiveLinks | components/projects-section.tsx:272-273 | of the eight projects only project 4, whose live address is "#", has no Live link |
| ProjectsSection.ProjectCategories | components/projects-section.tsx:20-157 | every project is Academic, Personal or Learning, each the label of a filter button other than "All" |
| ProjectsSection.NoFrontendProjects | components/projects-section.tsx:308 | "Frontend" shows an empty list and a zero badge |
| ProjectsSection.NoFullstackProjects | components/projects-section.tsx:308 | "Fullstack" shows an empty list and a zero badge |
| ProjectsSection.AllBadge | components/projects-section.tsx:308 | the "All" badge is 8 |
| ProjectsSection.FeaturedRowIds | components/projects-section.tsx:162 | the featured row shows projects 1, 2 and 4 |
| ProjectsSection.FirstProjectBadges | components/projects-section.tsx:249-258 | the first project lists four of its six technologies and "+2" |
| ProjectsShowcase.UnusedCategories | components/projects-showcase.tsx:93 | "Frontend" and "Full-stack" show empty grids and zero badges, "All" counts 3, every project has a Live link, its address being non-empty, and every project is under a filter button other than "All" |
| ProjectsShowcase.FilteredProjects | components/projects-showcase.tsx:62 | the shown projects are a subsequence of the three; "All" shows all of them, any other filter only projects of that category |
| ProjectsShowcase.FilterBadge | components/projects-showcase.tsx:93 | the badge is the length of the list the button shows, at most 3 |
| ProjectsShowcase.ShowsLiveLink | components/projects-showcase.tsx:172 | the Live link is rendered iff the address is non-empty (every project has one, by `ProjectsShowcase.UnusedCategories`) |
| BlogSection.FeaturedPosts | components/blog-section.tsx:109 | the featured list is the subsequence of the featured posts: only featured posts, all of them, in order |
| BlogSection.FeaturedKeepsDuplicates | components/blog-section.tsx:109 | a featured post is kept exactly as often as it occurs, and nothing is kept more often than it occurs |
| BlogSection.FilteredPosts | components/blog-section.tsx:106-107 | the shown posts are a subsequence of the six; "All" shows all of them, any other category only posts of that category |
| BlogSection.FilterBadge | components/blog-section.tsx:235 | the badge is the length of the list the button shows, at most 6 |
| BlogSection.PostCategories | components/blog-section.tsx:235 | every post is under a category button other than "All" |
| BlogSection.TutorialFilter | components/blog-section.tsx:106-107 | "Tutorial" shows post 3 alone, and its badge is 1 |
| BlogSection.FeaturedRow | components/blog-section.tsx:109 | posts 1 and 2 are featured |
| BlogSection.FeaturedCardTags | components/blog-section.tsx:181 | a featured card shows exactly the first min(3, length) tags |
| BlogSection.GridCardTags | components/blog-section.tsx:275 | a grid card shows exactly the first min(2, length) tags |
| BlogSection.GridTagsPrefixOfFeatured | components/blog-section.tsx:275 | the grid card's tags are a prefix of the featured card's |
| BlogSection.OnHover | components/blog-section.tsx:148-149 | hover start sets the hovered id, hover end clears it |
| BlogSection.HoveredIsLatestStart | components/blog-section.tsx:148-149 | after any series of events the hovered post is the latest hover start's id unless a hover end came last, and none otherwise |
| BlogSection.IconAnimated | components/blog-section.tsx:156 | a featured card's icon is animated iff that post is the hovered one |
| BlogSection.AnimatedAfter | components/blog-section.tsx:148-156 | after any series of hover events a card's icon is animated iff the last event was a hover start on that post |
| BlogSection.AtMostOneAnimated | components/blog-section.tsx:156 | at most one of the six cards is animated at a time, their ids being distinct |
| InteractiveTimeline.GetIcon | components/interactive-timeline.tsx:93-106 | education, skill, achievement and learning map, each iff, to the cap, code, trophy and book icons; every other type, and only those, maps to the award |
| InteractiveTimeline.IconIgnoresRecordIcon | components/interactive-timeline.tsx:127 | the drawn icon depends on the type alone, never on the record's own icon |
| InteractiveTimeline.ListedIcons | components/interactive-timeline.tsx:127 | the 2021 education entry, whose record names Code, is drawn with the cap; the milestone entry gets the award |
| InteractiveTimeline.Highlights | components/interactive-timeline.tsx:141-153 | one flag per entry, set iff its index is the active one |
| InteractiveTimeline.ExactlyOneHighlighted | components/interactive-timeline.tsx:141-153 | for any active index of the timeline exactly one entry is highlighted |
| InteractiveTimeline.TimelineState.constructor | components/interactive-timeline.tsx:12 | the active entry starts at 0 |
| InteractiveTimeline.TimelineState.HoverEntry | components/interactive-timeline.tsx:135 | hovering entry k makes it active, and the active index stays an index of the timeline |
| InteractiveTimeline.TimelineState.ClickDot | components/interactive-timeline.tsx:258 | clicking dot k makes entry k active |
| ThemeToggle.Lookup | components/theme-toggle.tsx:12 | a stored key yields its value, a missing key yields nothing |
| ThemeToggle.Decode | components/theme-toggle.tsx:13-15 | nothing stored or an empty value keeps the current flag; "dark" gives dark; any other value gives light |
| ThemeToggle.Encode | components/theme-toggle.tsx:20 | the persisted value is "dark" or "light" |
| ThemeToggle.LoadAfterPersist | components/theme-toggle.tsx:11-21 | persisting a flag and loading it back restores the flag |
| ThemeToggle.PersistAfterLoad | components/theme-toggle.tsx:11-21 | loading a persisted value and persisting it again writes the same value |
| ThemeToggle.ThemeToggleState.constructor | components/theme-toggle.tsx:9-21 | mounting loads the saved flag (dark when nothing is stored), persists its encoding and sets the class to match |
| ThemeToggle.ThemeToggleState.Toggle | components/theme-toggle.tsx:18-33 | the flag flips, the class follows it and the store holds its encoding, so a second toggle restores the first state |
| ProjectDetails.FirstIndexOf | components/project-details.tsx:30 | the position of the first project with the id, or the length when none has it |
| ProjectDetails.FindById | components/project-details.tsx:29-32 | the first project whose id equals the route id, or none iff no project has it (or the id is NaN) |
| ProjectDetails.FindsFirstOfDuplicates | components/project-details.tsx:30 | with a repeated id the first occurrence is found |
| ProjectDetails.Render | components/project-details.tsx:37-54 | not-found iff the collection is falsy; the spinner iff the collection is truthy and no project is set; otherwise the details of the set project |
| ProjectDetails.MissingIdShowsSpinner | components/project-details.tsx:37-54 | the collection is an array and so always truthy: an unknown id renders the spinner, never the not-found message |
| ProjectDetails.ShowsLink | components/project-details.tsx:117 | a repository link is rendered iff its address is present and non-empty (the `&&` tests truthiness) |
| ProjectDetails.CtaLinks | components/project-details.tsx:109-139 | the Live Demo address comes first; then the client address, then the server address, each iff it shows; one link per shown address, none empty |
| ProjectDetails.ImageSource | components/project-details.tsx:147 | a non-empty image is used as is, an empty one falls back to "/placeholder.svg" |
| ProjectDetails.ProjectDetailsPage.constructor | components/project-details.tsx:26 | no project before the effect runs |
| ProjectDetails.ProjectDetailsPage.LoadProject | components/project-details.tsx:28-33 | the effect sets the page's project to the lookup result |

## Left out

- Rendering: framer-motion properties, delays, hover and scale effects, CSS class strings and icons' markup are presentation with nothing to verify.
- Timer durations (150 ms, 3 s, 2 s, 5 s) and animation-frame scheduling: each callback is a step method that fires when called.
- Particle drawing: canvas calls, the hex opacity suffix and the pairwise connection lines with `Math.sqrt` are floating-point rendering. Canvas resizing is left out, so width and height are fixed at construction.
- Particle teardown: the effect cleanup, which does not cancel the animation frame, is component lifetime rather than sequential logic.
- ParticleSystem: floating-point rounding is not modelled; all arithmetic is exact on reals.
- ParticleSystem.ParticleField.UpdateParticles: the loop works on a local copy of the particle list and stores it at the end, while the component splices the shared array in place. The connection pass inside each iteration (components/particle-system.tsx:118) does read the partly spliced array, but what it reads only feeds drawing, so the final list is the same.
- The JavaScript regular-expression engine: the e-mail pattern is a hand-written predicate, and the keyword pattern is a hand-written scan with the same leftmost, first-alternative, whole-word matching. `\s` is the character predicate `Text.IsWhitespace` over the code points JavaScript counts as white space.
- Toast contents, the HTML `required` attributes (browser validation) and DOM scrolling (`scrollIntoView`) are side effects; toasts are returned values and `ScrollTo` only closes the menu.
- Carousel.Initials: Dafny strings are sequences of Unicode characters, not UTF-16 code units. `n[0]` takes one code unit, so for a word that starts with a character outside the Basic Multilingual Plane JavaScript yields half a surrogate pair, while the model yields the whole character.
- The texts of the eight code snippets are a constructor parameter; only their number is fixed.
- Navbar.NavbarState.OnScroll: each event sees the state left by the previous one; React's batching of state updates within one render is not modelled.
- The `activeFilter`, `selectedCategory` and `hoveredPost` setters are plain assignments; the filter and hover functions take the state value as a parameter.
- Testimonial texts, ratings, roles and colours, and the other records' display-only fields (titles, descriptions, dates, stars) are static data that only feed markup.
- `Number(params.id)`: the string-to-number conversion is not modelled; its result is an `Option<int>` parameter, with `None` for NaN.
- The mock-data module behind the project page is not part of this model; the projects are a parameter.
- Static sections (about, education, experience, certifications, skills, footer, hero), the skills radar geometry, the floating elements, the code playground's clipboard and timers, the sound toggle, the layout metadata and the page composition contain no modelled logic.
