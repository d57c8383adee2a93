# Reader core of clever-book-whisperer, in Dafny

This project models the reading side of the clever-book-whisperer front end:

- the summary-mark registry that the `useChapterSummaries` hook keeps in the browser's local
  storage;
- the table of contents that renders a book's chapter tree;
- the reading view of one chapter, covering its summary session, the request it sends to the
  summarizer and the markdown it renders;
- the reader page, covering the mobile and desktop layout, the back button and the effects that
  switch the mobile pane between the contents and the reading view.

It also proves what these parts promise about each other.

Modules, one concept each:

- `Wrappers`: `Option` and `Result`.
- `Text`: prefix tests, `indexOf`, ASCII `toLowerCase`.
- `JsObject`: a JavaScript object of booleans, a key-unique sequence in insertion order with
  object-spread update.
- `Json`: `JSON.stringify` and a `JSON.parse` for such objects. This covers the whitespace and
  every string escape, and comes with a proved round trip.
- `ChapterSummaries`: the registry, a class over the entries and the storage map.
- `Types`: `Chapter`, `SummarizeRequest`, `SummarizeResponse`.
- `TableOfContents`: the recursive rendering of the chapter tree into rows.
- `Markdown`: `renderMarkdown`'s eight replacements and the full-text newline replacement.
- `ReadingView`: the session state machine as pure transitions, and runs of user and backend
  events over it. The `SummarySession` class holds the six `useState` fields, and each of its
  methods is proved against one transition. What the component shows is given by `Render`.
- `ReaderPage`: the page state, with the two effects composed as React runs them, a `Reader`
  class whose methods are the event handlers, and `Screen`.

Inputs the model does not compute are parameters:
- the window width;
- the current chapter and the loading flags of the book hook;
- the summarizer's answer, as a `Result<SummarizeResponse>`.

Two defects of the code are modelled both ways, as written and corrected, and the corrected
reading is the one the rest of the model uses:
- As written, no summary can ever be generated (the third Findings row). The AI Summary
  button is disabled until a summary exists, and both Generate Summary buttons live in the
  summary view, so that view never opens. `Render`, `ShowSummary`, `Step` and the session
  class keep the AI Summary button enabled; `RenderAsWritten`, `ShowSummaryAsWritten` and
  `RunAsWritten` are the code as written.
- A summary session survives a chapter switch (the fourth Findings row). The corrected model
  gives each chapter a fresh session.

Behaviour of the code that a reader might not expect, modelled as the code has it:
- Content is sent to the summarizer without an emptiness check, so an empty chapter is sent too.
- A failed request keeps the previous summary and its statistics; only the loading flag drops.
- A successful summary does not mark the chapter in the registry: no core file calls
  `markChapterSummary`, so the badge of the table of contents depends only on what is stored.
- An empty summary is stored and its badge shown, and the summary view shows the "No Summary
  Generated" placeholder.
- The slider and the language select are on the summary view's controls card, so they act
  only in that view.

## Model

| member | source | states |
|---|---|---|
| Text.IndexOfFirst | src/components/reader/ReadingView.tsx:62-63 | the delimiter search behind the lazy `(.*?)` finds the first occurrence, or reports none exactly when there is none |
| Text.LowerAscii | src/components/reader/ReadingView.tsx:35 | `toLowerCase` keeps the length and lowers each character |
| JsObject.Get | src/hooks/useChapterSummaries.ts:31 | own-property access finds a value iff the key is an own key, and in a key-unique object that value is the key's own |
| JsObject.Set | src/hooks/useChapterSummaries.ts:24 | `{ ...prev, [id]: true }` reads `true` at `id`, and every other key reads as before |
| JsObject.SetPresentKeepsKeys | src/hooks/useChapterSummaries.ts:24 | spreading over a present key keeps every key in its place |
| JsObject.SetAbsentAppends | src/hooks/useChapterSummaries.ts:24 | spreading a new key appends it after the existing ones |
| JsObject.SetSameIsIdentity | src/hooks/useChapterSummaries.ts:24 | setting a key to the value it holds gives back the same object |
| JsObject.SetKeepsUnique | src/hooks/useChapterSummaries.ts:24 | the spread never creates a duplicate key |
| JsObject.TrueKeys | src/hooks/useChapterSummaries.ts:30-32 | the marked ids are exactly the keys paired with `true` |
| Json.NotAnObject | src/hooks/useChapterSummaries.ts:14-18 | a text that is blank, or whose first non-blank character is not `{`, fails to parse |
| Json.SkipWs | src/hooks/useChapterSummaries.ts:15 | skipping JSON whitespace drops a prefix made only of blanks and stops at the first other character |
| Json.ParseEscape | src/hooks/useChapterSummaries.ts:15 | a backslash escape, when accepted, consumes at least one character |
| Json.Parse | src/hooks/useChapterSummaries.ts:15 | any object `JSON.parse` accepts here has unique keys, because a repeated key overwrites in place |
| Json.EscapeCharRoundTrip | src/hooks/useChapterSummaries.ts:15-25 | the escape written for any single character reads back as that character |
| Json.StringRoundTrip | src/hooks/useChapterSummaries.ts:15-25 | every string `JSON.stringify` writes, with its escapes, parses back to the same string, whatever follows |
| Json.OneMemberRoundTrip | src/hooks/useChapterSummaries.ts:15-25 | one written `"key":bool` member parses back to the same pair |
| Json.MembersRoundTrip | src/hooks/useChapterSummaries.ts:15-25 | the written member list parses back, member by member, in order |
| Json.SetAllFresh | src/hooks/useChapterSummaries.ts:15 | parsing adds the members of a key-unique object in order and rebuilds exactly that object |
| Json.ParseStringify | src/hooks/useChapterSummaries.ts:15-25 | `JSON.parse(JSON.stringify(e))` is `e` for every key-unique object |
| ChapterSummaries.Loaded | src/hooks/useChapterSummaries.ts:11-20 | the load effect always leaves a key-unique object |
| ChapterSummaries.Has | src/hooks/useChapterSummaries.ts:31 | the own-key reading of `obj[id] \|\| false`: an id reads as marked only if it is an own key, and in a key-unique object exactly when the pair `(id, true)` is held |
| ChapterSummaries.Marked | src/hooks/useChapterSummaries.ts:24 | after `{ ...prev, [id]: true }` the id reads `true`, and every other id reads as before |
| ChapterSummaries.Registry.constructor | src/hooks/useChapterSummaries.ts:9-20 | mounting reads key `chapterSummaries`: a present, non-empty text that parses replaces the `{}` start state, and anything else leaves it |
| ChapterSummaries.Registry.MarkChapterSummary | src/hooks/useChapterSummaries.ts:22-28 | marking sets the id to `true` and writes the stringified object under `chapterSummaries`, leaving every other storage key alone |
| ChapterSummaries.Registry.HasChapterSummary | src/hooks/useChapterSummaries.ts:30-32 | the corrected lookup, read off own keys: true exactly for the ids held as `true`, and false for every other id |
| ChapterSummaries.HasIffTrueKey | src/hooks/useChapterSummaries.ts:31 | the own-key reading of `obj[id] \|\| false` is true iff the pair `(id, true)` is in the object, both directions |
| ChapterSummaries.FreshProfileHasNoMarks | src/hooks/useChapterSummaries.ts:12-13 | with nothing stored the registry is `{}`, and under the corrected lookup no id is marked |
| ChapterSummaries.UnparseableLoadsEmpty | src/hooks/useChapterSummaries.ts:14-18 | a stored text that fails to parse leaves the registry empty instead of failing |
| ChapterSummaries.CorruptTextLoadsEmpty | src/hooks/useChapterSummaries.ts:14-18 | the concrete corrupt payload `not json` loads as the empty registry |
| ChapterSummaries.ReloadRestoresMarks | src/hooks/useChapterSummaries.ts:15-25 | what a mark persisted is exactly what the next load reads back |
| ChapterSummaries.MarkSetsOnlyItsId | src/hooks/useChapterSummaries.ts:22-32 | after a mark the id reads as marked, and every other id reads as before |
| ChapterSummaries.MarkIsIdempotent | src/hooks/useChapterSummaries.ts:24 | marking an already-marked id leaves the object identical |
| ChapterSummaries.MarkGrowsMarkedSet | src/hooks/useChapterSummaries.ts:24 | the marked set after a mark is the old set plus the id: nothing is lost |
| ChapterSummaries.MarkRunKeepsEveryMark | src/hooks/useChapterSummaries.ts:22-32 | over any run of marks the object stays key-unique, and every id marked before or during the run reads as marked |
| ChapterSummaries.LoadedAsWritten | src/hooks/useChapterSummaries.ts:13-15 | as written, a stored `null` text is kept as the value `null` |
| ChapterSummaries.HasAsWritten | src/hooks/useChapterSummaries.ts:31 | as written, a lookup throws exactly when the stored value is `null`, and on an object it agrees with the own-key reading for every id that is not an `Object.prototype` name |
| ChapterSummaries.AsWrittenDiffersOnlyOnPrototypeNames | src/hooks/useChapterSummaries.ts:31 | the as-written reading differs from the own-key reading exactly on the inherited `Object.prototype` names the object does not hold itself |
| ChapterSummaries.FreshProfileMarksPrototypeNameAsWritten | src/hooks/useChapterSummaries.ts:12-31 | as written, with nothing stored, a chapter whose id is an inherited name such as `constructor` reads as summarized |
| ChapterSummaries.StoredNullThrowsAsWritten | src/hooks/useChapterSummaries.ts:13-31 | as written, the stored text `null` makes every lookup throw a TypeError |
| ChapterSummaries.NullTextThrowsAsWritten | src/hooks/useChapterSummaries.ts:13-31 | the same for `null` with blanks around it |
| ChapterSummaries.StoredNullLoadsEmpty | src/hooks/useChapterSummaries.ts:14-18 | loaded as corrupt data, `null` gives the empty registry and every lookup is false |
| TableOfContents.Render | src/components/reader/TableOfContents.tsx:63-81 | the header counts the top-level chapters, and the list holds one button per chapter of the whole tree, with the ids in pre-order and every button's indent, current, badge and disabled flags as its id and depth call for |
| TableOfContents.ChapterRows | src/components/reader/TableOfContents.tsx:23-61 | a chapter renders one button per node of its subtree, its own button first |
| TableOfContents.ForestRows | src/components/reader/TableOfContents.tsx:59-77 | a chapter list renders one button per chapter in all its subtrees |
| TableOfContents.TreeRowIds | src/components/reader/TableOfContents.tsx:23-61 | the buttons of a subtree list its ids in pre-order: the chapter, then its children's subtrees |
| TableOfContents.ForestRowIds | src/components/reader/TableOfContents.tsx:59-77 | the buttons of a list give the ids of each subtree in turn, in array order |
| TableOfContents.TreeFlags | src/components/reader/TableOfContents.tsx:26-54 | every button is indented iff its level is above 0, highlighted iff its id is current, badged iff marked, and disabled iff loading |
| TableOfContents.ForestFlags | src/components/reader/TableOfContents.tsx:26-54 | the same for every button of a list |
| TableOfContents.AtMostOneCurrent | src/components/reader/TableOfContents.tsx:26-54 | with distinct chapter ids, at most one button is highlighted |
| TableOfContents.TreeLevelsFrom | src/components/reader/TableOfContents.tsx:23-59 | a chapter's own button comes first, at its level, and every later button of its subtree is deeper |
| TableOfContents.ForestLevelsFrom | src/components/reader/TableOfContents.tsx:59 | no button of a list rendered at some level is shallower than that level |
| TableOfContents.ForestRowsAppend | src/components/reader/TableOfContents.tsx:59-77 | rendering two concatenated sibling lists renders each in turn |
| TableOfContents.SiblingBlock | src/components/reader/TableOfContents.tsx:59-77 | each sibling's block sits at its offset, with that sibling's own button first |
| TableOfContents.SiblingsInOrder | src/components/reader/TableOfContents.tsx:59-77 | an earlier sibling's whole block comes before a later sibling's button |
| TableOfContents.ChildOneLevelDeeper | src/components/reader/TableOfContents.tsx:59 | the `j`-th child is rendered at level + 1, at its place inside its parent's block |
| TableOfContents.RootsAtLevelZero | src/components/reader/TableOfContents.tsx:23-77 | top-level chapters render at level 0, unindented, in array order |
| TableOfContents.ForestSizeAtLeastLength | src/components/reader/TableOfContents.tsx:59-77 | a list has at least as many chapters in total as at its top level, and the same number iff no chapter has children |
| TableOfContents.HeaderCountsTopLevelOnly | src/components/reader/TableOfContents.tsx:71-77 | the header count never exceeds the number of buttons, and equals it iff no chapter has children |
| TableOfContents.LeafIsOneRow | src/components/reader/TableOfContents.tsx:59 | a chapter without children renders exactly its own button |
| Markdown.PairRuleWithoutStar | src/components/reader/ReadingView.tsx:62-63 | the bold and italic rules leave text without stars unchanged |
| Markdown.PairRuleSpan | src/components/reader/ReadingView.tsx:62-63 | a delimited star-free span is wrapped in the tags, and the rule goes on after the closing delimiter |
| Markdown.PairRuleAfterStarFree | src/components/reader/ReadingView.tsx:62-63 | star-free text in front of the rest is copied, and the rule goes on after it |
| Markdown.PairRuleBeforeStarFree | src/components/reader/ReadingView.tsx:62-63 | star-free text behind is copied: no span opens or closes in it, whatever comes before |
| Markdown.PairRuleInsideTag | src/components/reader/ReadingView.tsx:62-63 | the bold and italic rules pass a star-free tag pair and work on the text inside it |
| Markdown.BoldThenPlain | src/components/reader/ReadingView.tsx:62-63 | `**a**b` with star-free parts renders one strong span, and the italic rule finds nothing |
| Markdown.PairRuleKeepsLines | src/components/reader/ReadingView.tsx:62-63 | the bold and italic rules never create or move a line break |
| Markdown.PrefixRuleKeepsLines | src/components/reader/ReadingView.tsx:59-64 | the heading and list rules never create a line break |
| Markdown.LineRulesKeepLines | src/components/reader/ReadingView.tsx:59-64 | the six line rules together keep a line a single line |
| Markdown.MapLinesSplit | src/components/reader/ReadingView.tsx:59-64 | a multiline replacement works line by line: the text splits at a line terminator into its parts |
| Markdown.InertUnchanged | src/components/reader/ReadingView.tsx:59-64 | a line without stars and without a heading or list prefix passes all six rules unchanged |
| Markdown.H3Line | src/components/reader/ReadingView.tsx:59-63 | a `### ` line, whatever its text, becomes an h3 and not an h2 or h1, because the deepest heading is tried first; its text then goes through the bold rule and then the italic rule |
| Markdown.H2Line | src/components/reader/ReadingView.tsx:60-63 | a `## ` line, whatever its text, becomes an h2 whose text goes through the bold and then the italic rule |
| Markdown.H1Line | src/components/reader/ReadingView.tsx:61-63 | a `# ` line, whatever its text, becomes an h1 whose text goes through the bold and then the italic rule |
| Markdown.ListLine | src/components/reader/ReadingView.tsx:62-64 | a `- ` line, whatever its text, becomes a list item whose text went through the bold and then the italic rule |
| Markdown.TaggedLineRules | src/components/reader/ReadingView.tsx:59-64 | once a heading rule has wrapped a line, the later heading and list rules leave it alone and the emphasis rules work inside the tag |
| Markdown.StrongBeforeEm | src/components/reader/ReadingView.tsx:62-63 | `**t**` renders bold, because the bold rule runs before the italic one |
| Markdown.EmFirstWouldSplitBold | src/components/reader/ReadingView.tsx:62-63 | run alone, the italic rule turns `**t**` into two empty italics around `t`, which is why the order matters |
| Markdown.ParagraphBreaksAt | src/components/reader/ReadingView.tsx:65 | a blank line becomes the paragraph break, and the text before it is kept |
| Markdown.RenderOneLine | src/components/reader/ReadingView.tsx:58-66 | a single line renders as its rules' output inside one paragraph |
| Markdown.PlainLineVerbatim | src/components/reader/ReadingView.tsx:58-66 | an inert line renders verbatim inside one paragraph |
| Markdown.HeadingRendered | src/components/reader/ReadingView.tsx:58-66 | a `### ` heading with any single-line text renders as that h3, its text through the emphasis rules, inside a paragraph |
| Markdown.BlankLineSeparatesParagraphs | src/components/reader/ReadingView.tsx:58-66 | two inert lines around a blank line render as two paragraphs |
| Markdown.RenderMarkdown | src/components/reader/ReadingView.tsx:56-67 | whatever the summary, the rendered HTML opens a paragraph first, because the last pass wraps every line |
| Markdown.BreakLines | src/components/reader/ReadingView.tsx:189 | the full-text newline replacement never shrinks the text, and copies text without newlines verbatim |
| Markdown.BreakLinesAppend | src/components/reader/ReadingView.tsx:189 | the full-text newline replacement works piecewise over any cut of the text |
| Markdown.BreakLinesRemovesNewlines | src/components/reader/ReadingView.tsx:189 | no newline survives the replacement |
| Markdown.NewlineBecomesBreak | src/components/reader/ReadingView.tsx:189 | each newline becomes exactly one `<br />` |
| ReadingView.RequestFor | src/components/reader/ReadingView.tsx:32-36 | the request carries the chapter content and the slider's ratio unchanged, and the language as `english` or `russian` |
| ReadingView.Started | src/components/reader/ReadingView.tsx:29-31 | up to the `await`, the loading flag goes up and nothing else changes |
| ReadingView.Completed | src/components/reader/ReadingView.tsx:37-53 | after the call the flag is down, with the ratio and the language kept; success takes the summary, the statistics and the summary view, and failure changes nothing else |
| ReadingView.ShowSummary | src/components/reader/ReadingView.tsx:112-120 | corrected: AI Summary opens the summary view and changes nothing else |
| ReadingView.ShowSummaryAsWritten | src/components/reader/ReadingView.tsx:112-120 | as written: the click opens the summary view only when a summary exists, and changes nothing else |
| ReadingView.ClickGenerate | src/components/reader/ReadingView.tsx:127-220 | a Generate click sends a request iff the view is the summary view and nothing is loading, because both buttons live there and are disabled while loading; the request is then `RequestFor` with the flag raised, and otherwise nothing changes |
| ReadingView.Step | src/components/reader/ReadingView.tsx:104-171 | corrected: after an AI Summary click the summary view is shown |
| ReadingView.StepAsWritten | src/components/reader/ReadingView.tsx:104-171 | as written: an AI Summary click without a summary changes nothing |
| ReadingView.Render | src/components/reader/ReadingView.tsx:69-226 | the loading screen iff the chapter loads; otherwise the title and order, the controls iff in the summary view, the full text iff in the full view, and the placeholder iff in the summary view without a summary |
| ReadingView.RenderAsWritten | src/components/reader/ReadingView.tsx:112-120 | as written, AI Summary is enabled iff a summary exists |
| ReadingView.SummarySession.constructor | src/components/reader/ReadingView.tsx:21-26 | a mounted view starts in the full text, with no summary, not loading, at 30%, in English and with no statistics |
| ReadingView.SummarySession.StartGenerate | src/components/reader/ReadingView.tsx:29-36 | a Generate click and `generateSummary` up to the `await` do exactly what `ClickGenerate` says: in the summary view with nothing loading the flag goes up and the request is returned, and otherwise nothing happens |
| ReadingView.SummarySession.FinishGenerate | src/components/reader/ReadingView.tsx:37-53 | on success it takes the summary, the statistics and the summary view, with the "generated" toast; on failure only the flag drops, with the "failed" toast |
| ReadingView.SummarySession.ClickFull | src/components/reader/ReadingView.tsx:104-111 | Full Text switches to the full view and keeps the invariant |
| ReadingView.SummarySession.ClickSummary | src/components/reader/ReadingView.tsx:112-120 | AI Summary, enabled, switches to the summary view and keeps the invariant |
| ReadingView.SummarySession.SlideRatio | src/components/reader/ReadingView.tsx:135-142 | in the summary view the slider sets the ratio to one of its steps, 0.1 to 0.8; otherwise nothing changes |
| ReadingView.SummarySession.SelectLanguage | src/components/reader/ReadingView.tsx:149-156 | in the summary view the select sets the language; otherwise nothing changes |
| ReadingView.InitialView | src/components/reader/ReadingView.tsx:21-26 | a fresh view shows the title, the order and the full text, with no controls and no badge; AI Summary is enabled in the corrected rendering and disabled as written |
| ReadingView.RequestContents | src/components/reader/ReadingView.tsx:32-36 | the request carries the content, a ratio in the slider's range, and the language `english` or `russian` |
| ReadingView.LoadingBracketsRequest | src/components/reader/ReadingView.tsx:31-53 | the flag is up while a request is outstanding and down after it, on success and on failure |
| ReadingView.OneRequestAtATime | src/components/reader/ReadingView.tsx:160-171 | a second click while loading sends nothing |
| ReadingView.ClickSendsIffButtonEnabled | src/components/reader/ReadingView.tsx:127-220 | in both readings, a Generate click sends a request exactly when the screen shows an enabled Generate button |
| ReadingView.SuccessShowsResponse | src/components/reader/ReadingView.tsx:37-43 | after success the session holds the response's summary and statistics, and shows the rendered summary and the badge |
| ReadingView.FailureKeepsSession | src/components/reader/ReadingView.tsx:44-53 | a failure changes nothing but the loading flag |
| ReadingView.BadgeShowsActualRatio | src/components/reader/ReadingView.tsx:94-99 | the badge shows the achieved ratio, whatever ratio the slider now holds |
| ReadingView.RequestedThirtyShowsTwentyEight | src/components/reader/ReadingView.tsx:29-99 | from mounting, AI Summary then Generate sends 3 tenths in English, and with 28% achieved the badge and the toast say 28 |
| ReadingView.EnableRules | src/components/reader/ReadingView.tsx:112-171 | AI Summary is always enabled in the corrected rendering and, as written, iff a summary exists; the controls are shown iff in the summary view; generate is enabled iff not loading |
| ReadingView.BadgeIffStats | src/components/reader/ReadingView.tsx:94-99 | the badge is shown exactly when statistics exist |
| ReadingView.LoadingChapterHidesView | src/components/reader/ReadingView.tsx:69-78 | while the chapter loads, only the loading screen is shown |
| ReadingView.TransitionsKeepInv | src/components/reader/ReadingView.tsx:21-156 | every transition and every event step, in both readings, keeps the ratio in range, the shown summary equal to the statistics' summary, and no summary before statistics |
| ReadingView.RunKeepsInv | src/components/reader/ReadingView.tsx:21-171 | every run of events keeps the invariant |
| ReadingView.StuckAsWritten | src/components/reader/ReadingView.tsx:112-220 | as written, no run of events leaves a session showing the full text with no summary, no statistics and nothing loading |
| ReadingView.GenerateUnreachableAsWritten | src/components/reader/ReadingView.tsx:112-220 | as written, after any run of events from mounting there is no enabled Generate button, no controls, no badge and a disabled AI Summary, and a Generate click sends nothing |
| ReadingView.GenerateReachable | src/components/reader/ReadingView.tsx:112-220 | corrected, AI Summary on a fresh view shows the placeholder with an enabled Generate button, whose click sends the request |
| ReadingView.StaleSummaryAfterSwitch | src/pages/Reader.tsx:177-211 | as written, once a session has generated a summary (AI Summary, Generate, success) and the chapter changes, the next chapter's title is shown over the previous summary, badge and controls |
| ReadingView.AfterSwitchAsWritten | src/pages/Reader.tsx:177-211 | as written, the summary, the statistics and the view mode survive a chapter switch |
| ReadingView.AfterSwitch | src/pages/Reader.tsx:206-211 | keyed by chapter, a switch starts a session with no summary and no statistics that satisfies the invariant |
| ReadingView.SwitchShowsNextChapter | src/pages/Reader.tsx:206-211 | with a fresh session the next chapter opens on its own full text, with nothing left of the old summary |
| ReaderPage.Selected | src/pages/Reader.tsx:45-54 | a chapter is requested iff the book id is present and non-empty |
| ReaderPage.CheckIsMobile | src/pages/Reader.tsx:23-31 | the device is mobile iff the width is below 768, and on mobile without a chapter the contents are shown; nothing else changes |
| ReaderPage.ChapterEffect | src/pages/Reader.tsx:39-43 | with a chapter, on a render that was mobile, the reading view is shown; nothing else changes |
| ReaderPage.BackFrom | src/pages/Reader.tsx:56-62 | back stays on the page iff mobile and reading, and then only the pane switches to the contents; otherwise it navigates to `/` and changes nothing |
| ReaderPage.Screen | src/pages/Reader.tsx:64-224 | the layout iff the book is loaded; in it the mobile menu iff mobile and reading, the label "Contents" iff the menu is there, the sheet open only with the menu, and the reading view iff a chapter is current and the device is desktop or in the reading pane |
| ReaderPage.Reader.constructor | src/pages/Reader.tsx:18-43 | mounting runs both effects from the initial state, and effect 2 runs again when the device is mobile |
| ReaderPage.Reader.Resize | src/pages/Reader.tsx:22-43 | a resize runs effect 1, and effect 2 only if the device class flipped |
| ReaderPage.Reader.CurrentChapterChanged | src/pages/Reader.tsx:22-43 | a new current chapter runs both effects, effect 2 first with the old device class and again if it flipped |
| ReaderPage.Reader.HandleChapterSelect | src/pages/Reader.tsx:45-54 | with a book id the chapter is requested and, on mobile, the sheet closes and the reading view opens; without one nothing happens |
| ReaderPage.Reader.HandleBackNavigation | src/pages/Reader.tsx:56-62 | back switches to the contents on mobile in the reading view, and otherwise navigates to `/` |
| ReaderPage.Reader.SetSheetOpen | src/pages/Reader.tsx:131 | the sheet reports its open state |
| ReaderPage.Reader.ShowToc | src/pages/Reader.tsx:193-199 | Show Table of Contents switches the mobile pane to the contents |
| ReaderPage.MobileChapterChangeSettlesPane | src/pages/Reader.tsx:22-43 | on mobile, a mount or a chapter change shows the reading view with a chapter and the contents without one |
| ReaderPage.DesktopStaysDesktop | src/pages/Reader.tsx:22-36 | on a wide window the device stays desktop, and a resize keeps the pane mode |
| ReaderPage.MobileResizeKeepsPane | src/pages/Reader.tsx:34-43 | a resize within the mobile range changes nothing, so after back the contents stay up |
| ReaderPage.ResizeIntoMobileSettlesPane | src/pages/Reader.tsx:22-43 | turning mobile by a resize forces the pane as a chapter change does |
| ReaderPage.SelectRules | src/pages/Reader.tsx:45-54 | the request names the book and the chapter; on mobile the sheet closes and the reading view opens; otherwise the state is unchanged |
| ReaderPage.EmptyBookIdSelectsNothing | src/pages/Reader.tsx:46 | an empty or missing book id requests nothing and changes nothing |
| ReaderPage.BackRules | src/pages/Reader.tsx:56-62 | back stays on the page iff mobile and in the reading view, switching to the contents; otherwise it navigates to `/` and changes nothing |
| ReaderPage.BackLabelMatchesBack | src/pages/Reader.tsx:104 | the button reads "Contents" iff pressing it stays on the page, and "Library" iff it navigates home |
| ReaderPage.ScreenPrecedence | src/pages/Reader.tsx:64-89 | loading beats book-not-found, which beats the reader layout |
| ReaderPage.MainPaneRules | src/pages/Reader.tsx:164-224 | desktop shows the reading view iff a chapter is current; mobile shows the contents in contents mode, and otherwise the reading view or the placeholder with its button |
| ReaderPage.MobileMenuRule | src/pages/Reader.tsx:130-146 | the mobile menu is offered iff mobile and in the reading view |
| ReaderPage.DesktopIgnoresPaneMode | src/pages/Reader.tsx:164-224 | on desktop the pane mode and the sheet state never change what is shown |
| ReaderPage.SelectShowsChapter | src/pages/Reader.tsx:45-54 | after a chapter is selected with a book id and loaded, the page shows it on either device, with the sheet closed |
| ReaderPage.BackShowsContents | src/pages/Reader.tsx:56-62 | on mobile in the reading view, back shows the contents under the label "Library", and pressing back again leaves for the library |
| ReaderPage.MobileChapterArrivalShowsIt | src/pages/Reader.tsx:22-43 | on a mobile window, a chapter that becomes current, or is current at mount, is shown whichever pane was up |

## Left out

- JsObject.Get: reads own keys only. The prototype chain that JavaScript property access also walks is modelled separately, by `ChapterSummaries.HasAsWritten`, and is the second Findings row.
- ChapterSummaries.Registry.HasChapterSummary: is the corrected own-key lookup. For the inherited `Object.prototype` names (`constructor`, `toString`, `__proto__` and the others), the code as written reads an id the registry does not hold as marked; `HasAsWritten` models that.
- HasIffTrueKey: holds for the own-key reading; the as-written reading also answers true for an inherited name the object does not hold (`AsWrittenDiffersOnlyOnPrototypeNames`).
- FreshProfileHasNoMarks: holds for the own-key reading; as written, a fresh profile reads the inherited names as marked (`FreshProfileMarksPrototypeNameAsWritten`).
- TableOfContents.Render: the badge is the own-key reading `ChapterSummaries.Has`. As written, TableOfContents.tsx:46 calls `hasChapterSummary`, which walks the prototype chain (`HasAsWritten`, the second Findings row), so a chapter whose id is an inherited name such as `constructor` gets a badge this model does not show.
- TableOfContents.TreeFlags: the badge flag is the own-key reading, as for `Render`.
- TableOfContents.ForestFlags: the badge flag is the own-key reading, as for `Render`.
- ChapterSummaries.Registry.constructor: a stored text that parses to `null` or to an array counts as corrupt and loads `{}`. As written, `null` is kept (`LoadedAsWritten`, the first Findings row), and an array would be kept too.
- ReadingView.Render: AI Summary is enabled even without a summary, the corrected behaviour of the third Findings row. As written it is disabled then (`RenderAsWritten`).
- ReadingView.ShowSummary: opens the summary view without a summary too, as corrected; the as-written click is `ShowSummaryAsWritten`.
- ChapterSummaries.Loaded: stored JSON values other than an object of booleans count as unparseable and load as `{}`. JavaScript would store an array, a number, a string or an object with other values, and `obj[id] || false` would then read whatever those hold. The model keeps only `null`, in `LoadedAsWritten`, because it is the one that throws.
- JsObject.Set: does not model JavaScript's ordering of integer-like keys. Those come first, in ascending order, so `JSON.stringify` could list keys in another order than insertion. Lookups and the round trip do not depend on the order.
- Json.ParseEscape: `\u` escapes of surrogate halves are rejected, because a Dafny `char` cannot hold them. `JSON.stringify` of ids never writes them.
- ReadingView.RequestFor: the ratio is in tenths and the achieved ratio an integer percent, already `Math.round(x * 100)`. Floating-point arithmetic is not modelled.
- The toast's title and description text and its destructive variant are not modelled, only which toast and the percent it shows.
- The `console.error` logging in the load effect and in the summary request's `catch` is not modelled.
- `ApiService.summarizeContent` (src/services/api.ts) is an input: its outcome is a parameter of `FinishGenerate`.
- `useBookReader` (hooks/useBooks) is not part of this model. The book, the current chapter, the content and the loading flags are parameters, and `loadChapter` is the returned `LoadRequest`.
- The theme toggle, the logo, the book title and author in the header, icons and CSS classes are not modelled. The same goes for the `hidden sm:inline` and `hidden md:block` visibility, so the desktop sidebar is always rendered.
- The markup classes of the markdown tags are modelled exactly. The HTML is not escaped: the source injects it unescaped, and the model copies text verbatim too.
- `onViewModeChange` is passed to the mobile reading view but is not one of its props and is never called, so it has no effect and is not modelled.
- The window `resize` listener's subscription and removal are folded into the event methods.
- Content acquisition with caching, request deduplication and stale-response suppression, expanded content, and mermaid diagram rendering are not done by these files and are not modelled. Neither are the settings page, the library page and the book card.
- The shallow and expanded content modes, and `Chapter.level` and `Chapter.parentId` (kept in the data, unused by the view), are not modelled.
- Chapter `order` is a JavaScript number; the model uses integers.

## Findings

| source | as written | input that shows it | evidently intended | confidence | as-written member | corrected member |
|---|---|---|---|---|---|---|
| src/hooks/useChapterSummaries.ts:13-31 | any stored text that `JSON.parse` accepts replaces the registry, and `null` is accepted | stored text `null`: the registry becomes `null`, and every `hasChapterSummary` call in the table of contents throws a TypeError | corrupt or non-object data loads as the empty registry | not executed | ChapterSummaries.StoredNullThrowsAsWritten | ChapterSummaries.StoredNullLoadsEmpty |
| src/hooks/useChapterSummaries.ts:30-32 | `chapterSummaries[chapterId] \|\| false` reads the prototype chain, so an inherited `Object.prototype` member counts as a mark | a fresh profile (`{}`) and a chapter with id `constructor`: the lookup yields a function, which is truthy, and the table of contents shows the summary badge | an id counts as marked only when the registry holds it as `true` | not executed | ChapterSummaries.FreshProfileMarksPrototypeNameAsWritten | ChapterSummaries.FreshProfileHasNoMarks |
| src/components/reader/ReadingView.tsx:112-220 | AI Summary is disabled while there is no summary, and both Generate Summary buttons exist only in the summary view, which only AI Summary or a generated summary opens | mount the view, then any sequence of clicks, slides, selections and backend outcomes: the session keeps the full text with no summary, no Generate button is ever shown, and no request is ever sent | AI Summary opens the summary view without a summary too, so the placeholder's Generate button can be reached | not executed | ReadingView.GenerateUnreachableAsWritten | ReadingView.GenerateReachable |
| src/pages/Reader.tsx:177-211 | the reading view is rendered without a `key`, so React keeps its summary state when the chapter changes | with AI Summary enabled as in the third row (as written no summary can be generated at all): summarize chapter A, then select chapter B; B's title is shown with A's summary, A's badge and the summary controls | each chapter opens on a fresh session, with its full text and no summary | not executed | ReadingView.StaleSummaryAfterSwitch | ReadingView.SwitchShowsNextChapter |
