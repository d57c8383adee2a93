/**
 * The reader page: whether the device counts as mobile, whether the mobile contents sheet is
 * open, and whether the mobile main pane shows the table of contents or the reading view; the
 * events that change them; and the choice of what the page shows.
 *
 * The window width, the current chapter (which the book-loading hook owns) and that hook's
 * loading flags are inputs. Each event method includes the effect runs React performs after
 * it: effect 1 (`checkIsMobile`, on mount, on every resize and whenever the current chapter
 * changes) and effect 2 (whenever the current chapter or `isMobile` changes). An effect reads
 * the state of the render it belongs to, so when a chapter change also flips `isMobile`,
 * effect 2 runs twice: once with the old flag, then once with the new one.
 */
module ReaderPage {
  import opened Wrappers

  /** Windows narrower than this count as mobile. */
  const MobileBreakpoint := 768

  datatype PageMode = Toc | Reading

  datatype PageState = PageState(isMobile: bool, showMobileToc: bool, viewMode: PageMode)

  /** The three `useState` initial values. */
  const InitialPage := PageState(false, false, Toc)

  /** `loadChapter(bookId, chapterId)`, handed to the book-loading hook. */
  datatype LoadRequest = LoadRequest(bookId: string, chapterId: string)

  /** What the back button does: switch the mobile pane, or leave for the library at `/`. */
  datatype Navigation = StayOnPage | NavigateTo(path: string)

  /** `window.innerWidth < 768`. */
  predicate IsMobileWidth(width: int) {
    width < MobileBreakpoint
  }

  // ---------------------------------------------------------------- the two effects

  /** Effect 1, `checkIsMobile`: record the device class; on mobile without a chapter, show the contents. */
  function CheckIsMobile(p: PageState, width: int, hasChapter: bool): (r: PageState)
    ensures r.isMobile == IsMobileWidth(width) && r.showMobileToc == p.showMobileToc
    ensures r.viewMode == if IsMobileWidth(width) && !hasChapter then Toc else p.viewMode
  {
    var mobile := IsMobileWidth(width);
    p.(isMobile := mobile, viewMode := if mobile && !hasChapter then Toc else p.viewMode)
  }

  /** Effect 2, run with the `isMobile` of its render: on mobile with a chapter, show the reading view. */
  function ChapterEffect(p: PageState, isMobileOfRender: bool, hasChapter: bool): (r: PageState)
    ensures r.isMobile == p.isMobile && r.showMobileToc == p.showMobileToc
    ensures r.viewMode == if hasChapter && isMobileOfRender then Reading else p.viewMode
  {
    if hasChapter && isMobileOfRender then p.(viewMode := Reading) else p
  }

  /** Effect 2 runs again after effect 1 only if effect 1 changed `isMobile`. */
  function RerunIfFlipped(before: PageState, after: PageState, hasChapter: bool): PageState {
    if after.isMobile != before.isMobile then ChapterEffect(after, after.isMobile, hasChapter) else after
  }

  /** Mounting: both effects with the initial state, then effect 2 again if the device is mobile. */
  function Mounted(width: int, hasChapter: bool): PageState {
    var afterFirst := ChapterEffect(CheckIsMobile(InitialPage, width, hasChapter), InitialPage.isMobile, hasChapter);
    RerunIfFlipped(InitialPage, afterFirst, hasChapter)
  }

  /** A window resize: the listener runs effect 1; effect 2 follows only if `isMobile` flipped. */
  function Resized(p: PageState, width: int, hasChapter: bool): PageState {
    RerunIfFlipped(p, CheckIsMobile(p, width, hasChapter), hasChapter)
  }

  /** A new current chapter: both effects with the old `isMobile`, then effect 2 again if it flipped. */
  function ChapterChanged(p: PageState, width: int, hasChapter: bool): PageState {
    var afterFirst := ChapterEffect(CheckIsMobile(p, width, hasChapter), p.isMobile, hasChapter);
    RerunIfFlipped(p, afterFirst, hasChapter)
  }

  // ---------------------------------------------------------------- the handlers

  /** `if (bookId)`: present and not the empty string. */
  predicate Truthy(bookId: Option<string>) {
    bookId.Some? && bookId.value != ""
  }

  /** `handleChapterSelect`: with a book id, request the chapter and, on mobile, close the sheet and read. */
  function Selected(p: PageState, bookId: Option<string>, chapterId: string): (r: (PageState, Option<LoadRequest>))
    ensures r.1.Some? <==> Truthy(bookId)
  {
    if Truthy(bookId) then
      (if p.isMobile then p.(showMobileToc := false, viewMode := Reading) else p,
       Some(LoadRequest(bookId.value, chapterId)))
    else (p, None)
  }

  /** `handleBackNavigation`: on mobile in the reading view, back to the contents; otherwise to the library. */
  function BackFrom(p: PageState): (r: (PageState, Navigation))
    ensures r.1 == StayOnPage <==> p.isMobile && p.viewMode == Reading
    ensures r.1 == StayOnPage ==> r.0 == p.(viewMode := Toc)
    ensures r.1 != StayOnPage ==> r == (p, NavigateTo("/"))
  {
    if p.isMobile && p.viewMode == Reading then (p.(viewMode := Toc), StayOnPage)
    else (p, NavigateTo("/"))
  }

  // ---------------------------------------------------------------- what is shown

  datatype MainPane = TocPane | ReadingPane | SelectChapterPlaceholder(showTocButton: bool)

  datatype PageScreen =
    | LoadingBook
    | BookNotFound
    | Layout(backLabel: string, mobileMenu: bool, sheetOpen: bool, main: MainPane)

  /**
   * The page for a state and the hook's `loading`, `book` and `currentChapter`: the reader
   * layout once the book is there, and in it the mobile menu, the open sheet and the
   * "Contents" back label only on mobile in the reading view.
   */
  function Screen(p: PageState, loading: bool, hasBook: bool, hasChapter: bool): (v: PageScreen)
    ensures v.Layout? <==> !loading && hasBook
    ensures v.Layout? ==> (v.mobileMenu <==> p.isMobile && p.viewMode == Reading)
    ensures v.Layout? ==> (v.backLabel == "Contents" <==> v.mobileMenu) && (v.sheetOpen ==> v.mobileMenu)
    ensures v.Layout? ==> (v.main == ReadingPane <==> hasChapter && (!p.isMobile || p.viewMode == Reading))
  {
    if loading then LoadingBook
    else if !hasBook then BookNotFound
    else
      var reading := p.isMobile && p.viewMode == Reading;
      Layout(
        if reading then "Contents" else "Library",
        reading,
        reading && p.showMobileToc,
        if p.isMobile then
          if p.viewMode == Toc then TocPane
          else if hasChapter then ReadingPane
          else SelectChapterPlaceholder(true)
        else if hasChapter then ReadingPane
        else SelectChapterPlaceholder(false))
  }

  // ---------------------------------------------------------------- the page instance

  class Reader {
    var isMobile: bool
    var showMobileToc: bool
    var viewMode: PageMode

    function State(): PageState
      reads this
    {
      PageState(isMobile, showMobileToc, viewMode)
    }

    constructor (width: int, hasChapter: bool)
      ensures State() == Mounted(width, hasChapter)
    {
      isMobile, showMobileToc, viewMode := false, false, Toc;
      new;
      // the first run of effect 2 sees the initial `isMobile == false` and does nothing
      var wasMobile := isMobile;
      var mobile := width < MobileBreakpoint;
      isMobile := mobile;
      if mobile && !hasChapter {
        viewMode := Toc;
      }
      if isMobile != wasMobile && hasChapter && isMobile {
        viewMode := Reading;
      }
    }

    method Resize(width: int, hasChapter: bool)
      modifies this
      ensures State() == Resized(old(State()), width, hasChapter)
    {
      var wasMobile := isMobile;
      var mobile := width < MobileBreakpoint;
      isMobile := mobile;
      if mobile && !hasChapter {
        viewMode := Toc;
      }
      if isMobile != wasMobile && hasChapter && isMobile {
        viewMode := Reading;
      }
    }

    method CurrentChapterChanged(width: int, hasChapter: bool)
      modifies this
      ensures State() == ChapterChanged(old(State()), width, hasChapter)
    {
      var wasMobile := isMobile;
      var mobile := width < MobileBreakpoint;
      isMobile := mobile;
      if mobile && !hasChapter {
        viewMode := Toc;
      }
      if hasChapter && wasMobile {
        viewMode := Reading;
      }
      if isMobile != wasMobile && hasChapter && isMobile {
        viewMode := Reading;
      }
    }

    method HandleChapterSelect(bookId: Option<string>, chapterId: string) returns (load: Option<LoadRequest>)
      modifies this
      ensures (State(), load) == Selected(old(State()), bookId, chapterId)
    {
      load := None;
      if bookId.Some? && bookId.value != "" {
        load := Some(LoadRequest(bookId.value, chapterId));
        if isMobile {
          showMobileToc := false;
          viewMode := Reading;
        }
      }
    }

    method HandleBackNavigation() returns (nav: Navigation)
      modifies this
      ensures (State(), nav) == BackFrom(old(State()))
    {
      if isMobile && viewMode == Reading {
        viewMode := Toc;
        nav := StayOnPage;
      } else {
        nav := NavigateTo("/");
      }
    }

    /** The sheet's `onOpenChange`. */
    method SetSheetOpen(open: bool)
      modifies this
      ensures State() == old(State()).(showMobileToc := open)
    {
      showMobileToc := open;
    }

    /** The placeholder's "Show Table of Contents" button. */
    method ShowToc()
      modifies this
      ensures State() == old(State()).(viewMode := Toc)
    {
      viewMode := Toc;
    }
  }

  // ---------------------------------------------------------------- properties

  /** On mobile a chapter change settles the pane: the reading view with a chapter, the contents without. */
  lemma MobileChapterChangeSettlesPane(p: PageState, width: int, hasChapter: bool)
    requires IsMobileWidth(width)
    ensures ChapterChanged(p, width, hasChapter).isMobile
    ensures ChapterChanged(p, width, hasChapter).viewMode == if hasChapter then Reading else Toc
    ensures Mounted(width, hasChapter).viewMode == if hasChapter then Reading else Toc
  {
  }

  /** On a wide window a chapter change or resize keeps the device class desktop. */
  lemma DesktopStaysDesktop(p: PageState, width: int, hasChapter: bool)
    requires !IsMobileWidth(width)
    ensures !ChapterChanged(p, width, hasChapter).isMobile && !Resized(p, width, hasChapter).isMobile
    ensures !Mounted(width, hasChapter).isMobile && Mounted(width, hasChapter).viewMode == Toc
    ensures Resized(p, width, hasChapter).viewMode == p.viewMode
  {
  }

  /**
   * A resize within the mobile range leaves a chosen pane alone: after "back" on mobile the
   * contents stay up although a chapter is open, because effect 2 does not re-run.
   */
  lemma MobileResizeKeepsPane(p: PageState, width: int, hasChapter: bool)
    requires p.isMobile && IsMobileWidth(width) && hasChapter
    ensures Resized(p, width, hasChapter) == p
  {
  }

  /** Turning mobile by a resize forces the pane as a chapter change does. */
  lemma ResizeIntoMobileSettlesPane(p: PageState, width: int, hasChapter: bool)
    requires !p.isMobile && IsMobileWidth(width)
    ensures Resized(p, width, hasChapter).viewMode == if hasChapter then Reading else Toc
  {
  }

  /** Selecting a chapter: requested with a book id; on mobile the sheet closes and the reading view opens. */
  lemma SelectRules(p: PageState, bookId: Option<string>, chapterId: string)
    ensures Truthy(bookId) ==> Selected(p, bookId, chapterId).1 == Some(LoadRequest(bookId.value, chapterId))
    ensures Truthy(bookId) && p.isMobile ==>
      Selected(p, bookId, chapterId).0 == p.(showMobileToc := false, viewMode := Reading)
    ensures !p.isMobile || !Truthy(bookId) ==> Selected(p, bookId, chapterId).0 == p
  {
  }

  /** An empty book id counts as no book id. */
  lemma EmptyBookIdSelectsNothing(p: PageState, chapterId: string)
    ensures Selected(p, Some(""), chapterId) == (p, None) && Selected(p, None, chapterId) == (p, None)
  {
  }

  /** Back stays on the page exactly on mobile in the reading view, and there it switches to the contents. */
  lemma BackRules(p: PageState)
    ensures BackFrom(p).1 == StayOnPage <==> p.isMobile && p.viewMode == Reading
    ensures BackFrom(p).1 == StayOnPage ==> BackFrom(p).0.viewMode == Toc
    ensures BackFrom(p).1 != StayOnPage ==> BackFrom(p) == (p, NavigateTo("/"))
  {
  }

  /** The back button reads "Contents" exactly when pressing it would stay on the page. */
  lemma BackLabelMatchesBack(p: PageState, hasChapter: bool)
    ensures Screen(p, false, true, hasChapter).backLabel == "Contents" <==> BackFrom(p).1 == StayOnPage
    ensures Screen(p, false, true, hasChapter).backLabel == "Library" <==> BackFrom(p).1 == NavigateTo("/")
  {
  }

  /** Loading beats not-found, which beats the reader layout. */
  lemma ScreenPrecedence(p: PageState, hasBook: bool, hasChapter: bool)
    ensures Screen(p, true, hasBook, hasChapter) == LoadingBook
    ensures Screen(p, false, false, hasChapter) == BookNotFound
    ensures Screen(p, false, true, hasChapter).Layout?
  {
  }

  /** The main pane: on desktop the reading view iff a chapter is current; on mobile by the pane mode. */
  lemma MainPaneRules(p: PageState, hasChapter: bool)
    ensures !p.isMobile ==>
      Screen(p, false, true, hasChapter).main == if hasChapter then ReadingPane else SelectChapterPlaceholder(false)
    ensures p.isMobile && p.viewMode == Toc ==> Screen(p, false, true, hasChapter).main == TocPane
    ensures p.isMobile && p.viewMode == Reading ==>
      Screen(p, false, true, hasChapter).main == if hasChapter then ReadingPane else SelectChapterPlaceholder(true)
  {
  }

  /** The mobile menu is offered only on mobile in the reading view. */
  lemma MobileMenuRule(p: PageState, hasChapter: bool)
    ensures Screen(p, false, true, hasChapter).mobileMenu <==> p.isMobile && p.viewMode == Reading
  {
  }

  /** On desktop the pane mode never shows: the page depends on the chapter only. */
  lemma DesktopIgnoresPaneMode(p: PageState, hasChapter: bool, m: PageMode, open: bool)
    requires !p.isMobile
    ensures Screen(p.(viewMode := m, showMobileToc := open), false, true, hasChapter) == Screen(p, false, true, hasChapter)
  {
  }

  // ---------------------------------------------------------------- handlers and what they show

  /** Selecting a chapter with a book id shows it, once loaded, on either device, with the sheet closed. */
  lemma SelectShowsChapter(p: PageState, bookId: Option<string>, chapterId: string)
    requires Truthy(bookId)
    ensures var v := Screen(Selected(p, bookId, chapterId).0, false, true, true);
      v.main == ReadingPane && !v.sheetOpen
  {
  }

  /**
   * On mobile in the reading view, back brings up the contents, and the label turns to
   * "Library": pressing back again leaves for the library.
   */
  lemma BackShowsContents(p: PageState, hasChapter: bool)
    requires p.isMobile && p.viewMode == Reading
    ensures var back := BackFrom(p).0;
      && Screen(back, false, true, hasChapter).main == TocPane
      && Screen(back, false, true, hasChapter).backLabel == "Library"
      && BackFrom(back).1 == NavigateTo("/")
  {
  }

  /** On a mobile window, a chapter that becomes current is shown, whichever pane was up before. */
  lemma MobileChapterArrivalShowsIt(p: PageState, width: int)
    requires IsMobileWidth(width)
    ensures Screen(ChapterChanged(p, width, true), false, true, true).main == ReadingPane
    ensures Screen(Mounted(width, true), false, true, true).main == ReadingPane
  {
  }
}
