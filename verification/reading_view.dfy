/**
 * The reading view of one chapter: its summary session (view mode, summary, loading flag,
 * compression ratio, language, statistics), the request `generateSummary` sends and the two
 * halves of that call around its `await`, and what the component shows for a session.
 *
 * The backend call is an input: `FinishGenerate` receives the call's outcome as a
 * `Result<SummarizeResponse>`, `Err` standing for any rejection the `catch` receives.
 */
module ReadingView {
  import opened Wrappers
  import opened Types
  import Text
  import Markdown

  datatype ViewMode = Full | Summary

  /** The two languages the language select offers. */
  datatype Language = English | Russian

  function LanguageName(l: Language): string {
    match l
    case English => "English"
    case Russian => "Russian"
  }

  /** The component's state hooks. `ratioTenths` is the slider's fraction in tenths. */
  datatype Session = Session(
    viewMode: ViewMode,
    summary: string,
    summaryLoading: bool,
    ratioTenths: int,
    language: Language,
    stats: Option<SummarizeResponse>)

  /** The slider's range, 0.1 to 0.8 in steps of 0.1. */
  const MinRatioTenths := 1
  const MaxRatioTenths := 8

  /** The state a freshly mounted reading view starts in. */
  const InitialSession := Session(Full, "", false, 3, English, None)

  /**
   * What every reachable session satisfies: the ratio is one the slider offers, the summary
   * shown is the one the statistics came with, and before any summary arrived there is none.
   */
  predicate Inv(s: Session) {
    && MinRatioTenths <= s.ratioTenths <= MaxRatioTenths
    && (s.stats.Some? ==> s.summary == s.stats.value.summary)
    && (s.stats.None? ==> s.summary == "")
  }

  // ---------------------------------------------------------------- transitions

  /** The body `generateSummary` sends: the content, the current ratio, the language in lower case. */
  function RequestFor(s: Session, content: string): (r: SummarizeRequest)
    ensures r.content == content && r.ratioTenths == s.ratioTenths
    ensures r.language == (if s.language == English then "english" else "russian")
  {
    var lower := Text.LowerAscii(LanguageName(s.language));
    assert lower == (if s.language == English then "english" else "russian") by {
      if s.language == English {
        assert |lower| == 7;
        forall i | 0 <= i < 7 ensures lower[i] == "english"[i] { }
      } else {
        assert |lower| == 7;
        forall i | 0 <= i < 7 ensures lower[i] == "russian"[i] { }
      }
    }
    SummarizeRequest(content, s.ratioTenths, lower)
  }

  /** `generateSummary` up to its `await`: the loading flag is raised, and nothing else changes. */
  function Started(s: Session): (r: Session)
    ensures r.summaryLoading && r.(summaryLoading := s.summaryLoading) == s
  {
    s.(summaryLoading := true)
  }

  /**
   * `generateSummary` after its `await`: on success the summary, the statistics and the
   * summary view are taken from the response; on failure they stay; either way `finally`
   * lowers the loading flag.
   */
  function Completed(s: Session, outcome: Result<SummarizeResponse>): (r: Session)
    ensures !r.summaryLoading
    ensures r.ratioTenths == s.ratioTenths && r.language == s.language
    ensures outcome.Ok? ==> r.summary == outcome.value.summary && r.stats == Some(outcome.value) && r.viewMode == Summary
    ensures outcome.Err? ==> r.(summaryLoading := s.summaryLoading) == s
  {
    match outcome
    case Ok(r) => s.(summary := r.summary, stats := Some(r), viewMode := Summary, summaryLoading := false)
    case Err(_) => s.(summaryLoading := false)
  }

  /** The toast each outcome raises. */
  datatype Toast = SummaryGenerated(percent: int) | SummaryFailed

  function ToastFor(outcome: Result<SummarizeResponse>): Toast {
    match outcome
    case Ok(r) => SummaryGenerated(r.actualPercent)
    case Err(_) => SummaryFailed
  }

  /** A click on "Full Text". */
  function ShowFull(s: Session): Session {
    s.(viewMode := Full)
  }

  /**
   * A click on "AI Summary" with the button enabled, as the placeholder's Generate button needs
   * it to be: the summary view opens, on the summary or on the placeholder.
   */
  function ShowSummary(s: Session): (r: Session)
    ensures r.viewMode == Summary && r.(viewMode := s.viewMode) == s
  {
    s.(viewMode := Summary)
  }

  /** The click as written: the button is disabled while the summary is empty, and then nothing happens. */
  function ShowSummaryAsWritten(s: Session): (r: Session)
    ensures r.viewMode == Summary <==> s.viewMode == Summary || s.summary != ""
    ensures r.(viewMode := s.viewMode) == s
  {
    if s.summary != "" then s.(viewMode := Summary) else s
  }

  /**
   * A click on a "Generate Summary" button. Both buttons, the one on the controls card and the
   * one on the placeholder, exist only in the summary view and are disabled while loading; so
   * a request leaves exactly from the summary view with nothing loading.
   */
  function ClickGenerate(s: Session, content: string): (r: (Session, Option<SummarizeRequest>))
    ensures r.1.Some? <==> s.viewMode == Summary && !s.summaryLoading
    ensures r.1.Some? ==> r == (Started(s), Some(RequestFor(s, content)))
    ensures r.1.None? ==> r.0 == s
  {
    if s.viewMode == Summary && !s.summaryLoading then (Started(s), Some(RequestFor(s, content)))
    else (s, None)
  }

  // ---------------------------------------------------------------- runs of events

  /** What the user and the backend can do to a mounted view. */
  datatype Event =
    | FullTextClick
    | SummaryClick
    | Slide(tenths: int)
    | ChooseLanguage(choice: Language)
    | GenerateClick(content: string)
    | Settle(outcome: Result<SummarizeResponse>)

  /**
   * An event other than an AI Summary click, on which both readings agree. The slider and the
   * language select sit on the controls card of the summary view, and the slider reports only
   * its own steps; an outcome arrives only for the request that is outstanding.
   */
  function CommonStep(s: Session, e: Event): (r: Session)
    ensures e.SummaryClick? ==> r == s
  {
    match e
    case FullTextClick => ShowFull(s)
    case SummaryClick => s
    case Slide(t) =>
      if s.viewMode == Summary && MinRatioTenths <= t <= MaxRatioTenths then s.(ratioTenths := t) else s
    case ChooseLanguage(l) => if s.viewMode == Summary then s.(language := l) else s
    case GenerateClick(c) => ClickGenerate(s, c).0
    case Settle(o) => if s.summaryLoading then Completed(s, o) else s
  }

  /** One event, with AI Summary enabled. */
  function Step(s: Session, e: Event): (r: Session)
    ensures e.SummaryClick? ==> r.viewMode == Summary
  {
    if e.SummaryClick? then ShowSummary(s) else CommonStep(s, e)
  }

  /** One event as written. */
  function StepAsWritten(s: Session, e: Event): (r: Session)
    ensures e.SummaryClick? && s.summary == "" ==> r == s
  {
    if e.SummaryClick? then ShowSummaryAsWritten(s) else CommonStep(s, e)
  }

  function Run(s: Session, es: seq<Event>): Session
    decreases |es|
  {
    if es == [] then s else Run(Step(s, es[0]), es[1..])
  }

  function RunAsWritten(s: Session, es: seq<Event>): Session
    decreases |es|
  {
    if es == [] then s else RunAsWritten(StepAsWritten(s, es[0]), es[1..])
  }

  // ---------------------------------------------------------------- what is shown

  datatype Controls = Controls(ratioPercent: int, language: Language, generateEnabled: bool, spinner: bool)

  datatype Body =
    | FullText(html: string)
    | SummaryText(html: string)
    | NoSummaryYet(generateEnabled: bool)

  datatype Screen =
    | LoadingChapter
    | ChapterView(
        title: string,
        order: int,
        compressedBadge: Option<int>,
        fullSelected: bool,
        summarySelected: bool,
        summaryButtonEnabled: bool,
        controls: Option<Controls>,
        body: Body)

  /**
   * The component for a session, its chapter, its content and the `loading` prop, with AI
   * Summary enabled (`RenderAsWritten` disables it without a summary).
   */
  function Render(s: Session, chapter: Types.Chapter, content: string, loading: bool): (v: Screen)
    ensures v.LoadingChapter? <==> loading
    ensures v.ChapterView? ==> v.title == chapter.title && v.order == chapter.order
    ensures v.ChapterView? ==> (v.controls.Some? <==> s.viewMode == Summary)
    ensures v.ChapterView? ==> (v.body.FullText? <==> s.viewMode == Full)
    ensures v.ChapterView? ==> (v.body.NoSummaryYet? <==> s.viewMode == Summary && s.summary == "")
  {
    if loading then LoadingChapter
    else
      ChapterView(
        chapter.title,
        chapter.order,
        if s.stats.Some? then Some(s.stats.value.actualPercent) else None,
        s.viewMode == Full,
        s.viewMode == Summary,
        true,
        if s.viewMode == Summary
        then Some(Controls(s.ratioTenths * 10, s.language, !s.summaryLoading, s.summaryLoading))
        else None,
        if s.viewMode == Full then FullText(Markdown.BreakLines(content))
        else if s.summary != "" then SummaryText(Markdown.RenderMarkdown(s.summary))
        else NoSummaryYet(!s.summaryLoading))
  }

  /** The component as written: the same, except that AI Summary is disabled without a summary. */
  function RenderAsWritten(s: Session, chapter: Types.Chapter, content: string, loading: bool): (v: Screen)
    ensures v.LoadingChapter? <==> loading
    ensures v.ChapterView? ==> (v.summaryButtonEnabled <==> s.summary != "")
  {
    var v := Render(s, chapter, content, loading);
    if v.ChapterView? then v.(summaryButtonEnabled := s.summary != "") else v
  }

  /** Whether a screen shows an enabled "Generate Summary" button, on the controls card or on the placeholder. */
  predicate GenerateEnabled(v: Screen) {
    && v.ChapterView?
    && ((v.controls.Some? && v.controls.value.generateEnabled) || (v.body.NoSummaryYet? && v.body.generateEnabled))
  }

  // ---------------------------------------------------------------- the component instance

  class SummarySession {
    var viewMode: ViewMode
    var summary: string
    var summaryLoading: bool
    var ratioTenths: int
    var language: Language
    var stats: Option<SummarizeResponse>

    function State(): Session
      reads this
    {
      Session(viewMode, summary, summaryLoading, ratioTenths, language, stats)
    }

    ghost predicate Valid()
      reads this
    {
      Inv(State())
    }

    /** Mounting: the six `useState` initial values. */
    constructor ()
      ensures State() == InitialSession && Valid()
    {
      viewMode := Full;
      summary := "";
      summaryLoading := false;
      ratioTenths := 3;
      language := English;
      stats := None;
    }

    /**
     * A click on a "Generate Summary" button, and `generateSummary` up to the `await`: in the
     * summary view with nothing loading, the flag goes up and the request is returned; elsewhere
     * no button is there to click, or it is disabled, and nothing happens.
     */
    method StartGenerate(content: string) returns (request: Option<SummarizeRequest>)
      requires Valid()
      modifies this
      ensures (State(), request) == ClickGenerate(old(State()), content) && Valid()
    {
      if viewMode == Summary && !summaryLoading {
        request := Some(SummarizeRequest(content, ratioTenths, Text.LowerAscii(LanguageName(language))));
        summaryLoading := true;
      } else {
        request := None;
      }
    }

    /** `generateSummary` from the `await` on: the `try` rest or the `catch`, then `finally`. */
    method FinishGenerate(outcome: Result<SummarizeResponse>) returns (toast: Toast)
      requires Valid()
      modifies this
      ensures State() == Completed(old(State()), outcome) && Valid()
      ensures toast == ToastFor(outcome)
    {
      if outcome.Ok? {
        var response := outcome.value;
        summary := response.summary;
        stats := Some(response);
        viewMode := Summary;
        toast := SummaryGenerated(response.actualPercent);
      } else {
        toast := SummaryFailed;
      }
      summaryLoading := false;
    }

    method ClickFull()
      requires Valid()
      modifies this
      ensures State() == ShowFull(old(State())) && Valid()
    {
      viewMode := Full;
    }

    method ClickSummary()
      requires Valid()
      modifies this
      ensures State() == ShowSummary(old(State())) && Valid()
    {
      viewMode := Summary;
    }

    /** The slider, shown on the summary view's controls card, reports one of its steps. */
    method SlideRatio(tenths: int)
      requires Valid()
      modifies this
      ensures State() == Step(old(State()), Slide(tenths)) && Valid()
    {
      if viewMode == Summary && MinRatioTenths <= tenths <= MaxRatioTenths {
        ratioTenths := tenths;
      }
    }

    /** The language select, shown on the summary view's controls card. */
    method SelectLanguage(l: Language)
      requires Valid()
      modifies this
      ensures State() == Step(old(State()), ChooseLanguage(l)) && Valid()
    {
      if viewMode == Summary {
        language := l;
      }
    }
  }

  // ---------------------------------------------------------------- properties

  /** A fresh view shows the full text, no controls and no badge; as written its AI Summary button is disabled. */
  lemma InitialView(chapter: Types.Chapter, content: string)
    ensures Inv(InitialSession)
    ensures Render(InitialSession, chapter, content, false) ==
      ChapterView(chapter.title, chapter.order, None, true, false, true, None, FullText(Markdown.BreakLines(content)))
    ensures !RenderAsWritten(InitialSession, chapter, content, false).summaryButtonEnabled
  {
  }

  /** The request carries the content, a ratio of the slider's range and `english` or `russian`. */
  lemma RequestContents(s: Session, content: string)
    requires Inv(s)
    ensures RequestFor(s, content).content == content
    ensures MinRatioTenths <= RequestFor(s, content).ratioTenths <= MaxRatioTenths
    ensures RequestFor(s, content).language == (if s.language == English then "english" else "russian")
  {
  }

  /** While a request is out the flag is up; after it, success or failure, it is down. */
  lemma LoadingBracketsRequest(s: Session, outcome: Result<SummarizeResponse>)
    ensures Started(s).summaryLoading
    ensures !Completed(Started(s), outcome).summaryLoading
  {
  }

  /** No second request leaves while one is outstanding: both generate buttons are disabled. */
  lemma OneRequestAtATime(s: Session, content: string, again: string)
    ensures ClickGenerate(ClickGenerate(s, content).0, again).1 == None
  {
  }

  /** A Generate click sends a request exactly when the screen shows an enabled Generate button. */
  lemma ClickSendsIffButtonEnabled(s: Session, chapter: Types.Chapter, content: string, c: string)
    ensures ClickGenerate(s, c).1.Some? <==> GenerateEnabled(Render(s, chapter, content, false))
    ensures ClickGenerate(s, c).1.Some? <==> GenerateEnabled(RenderAsWritten(s, chapter, content, false))
  {
  }

  /** Success: the summary and the statistics come from the response, and the summary view opens. */
  lemma SuccessShowsResponse(s: Session, r: SummarizeResponse, chapter: Types.Chapter)
    requires r.summary != ""
    ensures Completed(s, Ok(r)).summary == r.summary
    ensures Completed(s, Ok(r)).stats == Some(r)
    ensures Render(Completed(s, Ok(r)), chapter, "", false).body == SummaryText(Markdown.RenderMarkdown(r.summary))
    ensures Render(Completed(s, Ok(r)), chapter, "", false).compressedBadge == Some(r.actualPercent)
  {
  }

  /** Failure: nothing but the loading flag changes. */
  lemma FailureKeepsSession(s: Session, message: string)
    ensures Completed(Started(s), Err(message)) == s.(summaryLoading := false)
    ensures Completed(s, Err(message)) == s.(summaryLoading := false)
  {
  }

  /** The badge shows the response's ratio, whatever ratio was requested. */
  lemma BadgeShowsActualRatio(s: Session, r: SummarizeResponse, tenths: int, chapter: Types.Chapter, content: string)
    ensures Render(Completed(s, Ok(r)).(ratioTenths := tenths), chapter, content, false).compressedBadge
      == Some(r.actualPercent)
  {
  }

  /**
   * A concrete run from mounting: AI Summary, Generate with the default 30%, and a response
   * that achieved 28%; the request asks for 3 tenths in English, the badge and the toast say 28.
   */
  lemma RequestedThirtyShowsTwentyEight(chapter: Types.Chapter)
    ensures var r := SummarizeResponse("A short text.", 1000, 280, 28);
      && ClickGenerate(Run(InitialSession, [SummaryClick]), "Chapter text").1
        == Some(SummarizeRequest("Chapter text", 3, "english"))
      && Render(Run(InitialSession, [SummaryClick, GenerateClick("Chapter text"), Settle(Ok(r))]),
          chapter, "Chapter text", false).compressedBadge == Some(28)
      && ToastFor(Ok(r)) == SummaryGenerated(28)
  {
    var r := SummarizeResponse("A short text.", 1000, 280, 28);
    var summaryOpen := ShowSummary(InitialSession);
    var sent := Started(summaryOpen);
    RunThree(InitialSession, SummaryClick, GenerateClick("Chapter text"), Settle(Ok(r)));
    assert Step(summaryOpen, GenerateClick("Chapter text")) == sent;
    assert Step(sent, Settle(Ok(r))) == Completed(sent, Ok(r));
  }

  lemma RunThree(s: Session, a: Event, b: Event, c: Event)
    ensures Run(s, [a]) == Step(s, a)
    ensures Run(s, [a, b, c]) == Step(Step(Step(s, a), b), c)
  {
    assert [a, b, c][1..] == [b, c] && [b, c][1..] == [c] && [c][1..] == [];
    assert Run(s, [a, b, c]) == Run(Step(s, a), [b, c]);
    assert Run(Step(s, a), [b, c]) == Run(Step(Step(s, a), b), [c]);
  }

  /** The enable rules: AI Summary always, as written iff a summary exists; generate iff nothing is loading. */
  lemma EnableRules(s: Session, chapter: Types.Chapter, content: string)
    ensures Render(s, chapter, content, false).summaryButtonEnabled
    ensures RenderAsWritten(s, chapter, content, false).summaryButtonEnabled <==> s.summary != ""
    ensures Render(s, chapter, content, false).controls.Some? <==> s.viewMode == Summary
    ensures Render(s, chapter, content, false).controls.Some? ==>
      Render(s, chapter, content, false).controls.value.generateEnabled == !s.summaryLoading
    ensures Render(s, chapter, content, false).body.NoSummaryYet? ==>
      Render(s, chapter, content, false).body.generateEnabled == !s.summaryLoading
  {
  }

  /** The badge is shown exactly when statistics exist. */
  lemma BadgeIffStats(s: Session, chapter: Types.Chapter, content: string)
    ensures Render(s, chapter, content, false).compressedBadge.Some? <==> s.stats.Some?
  {
  }

  /** The `loading` prop hides everything else. */
  lemma LoadingChapterHidesView(s: Session, chapter: Types.Chapter, content: string)
    ensures Render(s, chapter, content, true) == LoadingChapter
  {
  }

  /** Every transition, in either reading, keeps the invariant. */
  lemma TransitionsKeepInv(s: Session, outcome: Result<SummarizeResponse>, content: string, e: Event)
    requires Inv(s)
    ensures Inv(Started(s)) && Inv(Completed(s, outcome)) && Inv(ShowFull(s)) && Inv(ShowSummary(s))
    ensures Inv(ShowSummaryAsWritten(s)) && Inv(ClickGenerate(s, content).0)
    ensures Inv(Step(s, e)) && Inv(StepAsWritten(s, e))
  {
  }

  /** Every run of events from a session that satisfies the invariant keeps it. */
  lemma {:induction false} RunKeepsInv(s: Session, es: seq<Event>)
    requires Inv(s)
    ensures Inv(Run(s, es))
    decreases |es|
  {
    if es != [] {
      TransitionsKeepInv(s, Err(""), "", es[0]);
      RunKeepsInv(Step(s, es[0]), es[1..]);
    }
  }

  // ---------------------------------------------------------------- the disabled AI Summary button

  /** The sessions the as-written view cannot leave: the full text, no summary, nothing loading. */
  predicate NeverSummarized(s: Session) {
    s.viewMode == Full && s.summary == "" && !s.summaryLoading && s.stats.None?
  }

  /**
   * As written, no run of events leaves those sessions: AI Summary is disabled without a
   * summary, both Generate buttons exist only in the summary view, and only a generated
   * summary opens that view.
   */
  lemma {:induction false} StuckAsWritten(s: Session, es: seq<Event>)
    requires NeverSummarized(s)
    ensures NeverSummarized(RunAsWritten(s, es))
    decreases |es|
  {
    if es != [] {
      StuckAsWritten(StepAsWritten(s, es[0]), es[1..]);
    }
  }

  /** As written, from mounting on no Generate button is ever shown and no request ever leaves. */
  lemma GenerateUnreachableAsWritten(es: seq<Event>, chapter: Types.Chapter, content: string, c: string)
    ensures var v := RenderAsWritten(RunAsWritten(InitialSession, es), chapter, content, false);
      && !GenerateEnabled(v) && v.controls == None && !v.summaryButtonEnabled && v.compressedBadge == None
      && v.body == FullText(Markdown.BreakLines(content))
    ensures ClickGenerate(RunAsWritten(InitialSession, es), c).1 == None
  {
    StuckAsWritten(InitialSession, es);
  }

  /** With AI Summary enabled, a fresh view opens on the placeholder, whose Generate button sends the request. */
  lemma GenerateReachable(chapter: Types.Chapter, content: string, c: string)
    ensures var summaryOpen := Run(InitialSession, [SummaryClick]);
      && Render(summaryOpen, chapter, content, false).body == NoSummaryYet(true)
      && GenerateEnabled(Render(summaryOpen, chapter, content, false))
      && ClickGenerate(summaryOpen, c).1 == Some(RequestFor(InitialSession, c))
  {
    RunThree(InitialSession, SummaryClick, SummaryClick, SummaryClick);
  }

  // ---------------------------------------------------------------- switching chapters

  /**
   * As written, the reader page renders this component without a `key`, so React keeps its
   * state when the chapter changes: the session after a switch is the session before it.
   */
  function AfterSwitchAsWritten(s: Session): (t: Session)
    ensures t.summary == s.summary && t.stats == s.stats && t.viewMode == s.viewMode
  {
    s
  }

  /**
   * As written (once a summary can be generated at all, see `GenerateReachable`), the previous
   * chapter's summary is shown under the next chapter's title.
   */
  lemma StaleSummaryAfterSwitch(s: Session, content: string, r: SummarizeResponse, next: Types.Chapter, nextContent: string)
    requires !s.summaryLoading && r.summary != ""
    ensures var generated := Run(s, [SummaryClick, GenerateClick(content), Settle(Ok(r))]);
      Render(AfterSwitchAsWritten(generated), next, nextContent, false) ==
        ChapterView(next.title, next.order, Some(r.actualPercent), false, true, true,
                Some(Controls(s.ratioTenths * 10, s.language, true, false)),
                SummaryText(Markdown.RenderMarkdown(r.summary)))
  {
    RunThree(s, SummaryClick, GenerateClick(content), Settle(Ok(r)));
  }

  /** Keyed by chapter id, a switch mounts a fresh view: the initial session. */
  function AfterSwitch(s: Session): (t: Session)
    ensures Inv(t) && t.stats.None? && t.summary == ""
  {
    InitialSession
  }

  /** With the fresh session the next chapter opens on its own full text, with nothing left of the old summary. */
  lemma SwitchShowsNextChapter(s: Session, next: Types.Chapter, nextContent: string)
    ensures Render(AfterSwitch(s), next, nextContent, false) ==
      ChapterView(next.title, next.order, None, true, false, true, None, FullText(Markdown.BreakLines(nextContent)))
  {
  }
}
