/**
 * The writing studio: a draft is a non-empty list of pages with one current
 * page. Pages are saved as one string, joined with the page delimiter, and
 * split on it again when the draft is loaded. The AI helpers send the
 * neighbourhood of the current page, or the start of the whole text, to the
 * generative API.
 */
module Editor {
  import opened JsCore
  import opened Types
  import opened GeminiService

  // ---------------------------------------------------------------------------
  // Draft serialisation

  /** A page contains the page marker somewhere. */
  predicate HasMarker(page: string) {
    exists j :: 0 <= j <= |page| && OccursAt(page, PageMarker, j)
  }

  /** The pages a loaded draft content becomes: split on the delimiter, or one page when it has none. */
  function PagesOfContent(content: string): (pages: seq<string>)
    ensures |pages| >= 1
  {
    if IndexOf(content, PageDelimiter, 0).Some? then Split(content, PageDelimiter) else [content]
  }

  /** The serialised form of the pages. */
  function ContentOfPages(pages: seq<string>): string {
    Join(pages, PageDelimiter)
  }

  /** The two branches of the loader agree: loading is always a split on the delimiter. */
  lemma PagesOfContentIsSplit(content: string)
    ensures PagesOfContent(content) == Split(content, PageDelimiter)
  {
    if IndexOf(content, PageDelimiter, 0).None? {
      SplitWithoutSeparator(content, PageDelimiter);
    }
  }

  /** A draft without the delimiter loads as a single page holding the whole content. */
  lemma NoDelimiterLoadsOnePage(content: string)
    requires forall j :: !OccursAt(content, PageDelimiter, j)
    ensures PagesOfContent(content) == [content]
  {
  }

  lemma MarkerHasNoNewline()
    ensures forall i :: 0 <= i < |PageMarker| ==> PageMarker[i] != '\n'
    ensures |PageMarker| == 19 && PageMarker[0] == '<'
    ensures PageDelimiter[..2] == "\n\n" && PageDelimiter[2..2 + |PageMarker|] == PageMarker
    ensures |PageDelimiter| == |PageMarker| + 4
  {
  }

  /** A delimiter occurrence carries a marker occurrence two characters further on. */
  lemma DelimiterHoldsMarker(s: string, j: nat)
    requires OccursAt(s, PageDelimiter, j)
    ensures OccursAt(s, PageMarker, j + 2)
    ensures s[j] == '\n' && s[j + 1] == '\n'
  {
    MarkerHasNoNewline();
    assert s[j + 2..j + 2 + |PageMarker|] == s[j..j + |PageDelimiter|][2..2 + |PageMarker|];
    assert s[j] == PageDelimiter[0];
    assert s[j + 1] == PageDelimiter[1];
  }

  /** A page without the marker has no delimiter either. */
  lemma MarkerFreeHasNoDelimiter(page: string)
    requires !HasMarker(page)
    ensures IndexOf(page, PageDelimiter, 0).None?
  {
    var found := IndexOf(page, PageDelimiter, 0);
    if found.Some? {
      DelimiterHoldsMarker(page, found.value);
    }
  }

  /**
   * After a page without the marker, the first delimiter is the one that
   * follows it: an earlier occurrence would put the marker inside the page,
   * where it is not, or across the newlines of the delimiter, which the
   * marker does not contain.
   */
  lemma FirstDelimiterFollowsPage(page: string, rest: string)
    requires !HasMarker(page)
    ensures IndexOf(page + PageDelimiter + rest, PageDelimiter, 0) == Some(|page|)
  {
    MarkerHasNoNewline();
    var s := page + PageDelimiter + rest;
    var n := |page|;
    assert s[n..n + |PageDelimiter|] == PageDelimiter;
    assert OccursAt(s, PageDelimiter, n);
    assert s[n] == '\n' && s[n + 1] == '\n';
    forall j | 0 <= j < n ensures !OccursAt(s, PageDelimiter, j) {
      if OccursAt(s, PageDelimiter, j) {
        DelimiterHoldsMarker(s, j);
        var k := j + 2;
        if k + |PageMarker| <= n {
          assert page[k..k + |PageMarker|] == s[k..k + |PageMarker|];
          assert OccursAt(page, PageMarker, k);
        }
      }
    }
    var found := IndexOf(s, PageDelimiter, 0);
    assert found.Some?;
    assert found.value <= n;
  }

  /** A page without the marker and the delimiter after it split off as one piece. */
  lemma SplitAfterPage(page: string, rest: string)
    requires !HasMarker(page)
    ensures Split(page + PageDelimiter + rest, PageDelimiter) == [page] + Split(rest, PageDelimiter)
  {
    var s := page + PageDelimiter + rest;
    FirstDelimiterFollowsPage(page, rest);
    assert s[|page| + |PageDelimiter|..] == rest;
    assert s[..|page|] == page;
  }

  /** Loading a saved draft gives back its pages whenever no page contains the marker. */
  lemma {:induction false} SplitJoinRoundTrip(pages: seq<string>)
    requires |pages| >= 1
    requires forall i :: 0 <= i < |pages| ==> !HasMarker(pages[i])
    ensures Split(ContentOfPages(pages), PageDelimiter) == pages
    decreases |pages|
  {
    if |pages| == 1 {
      MarkerFreeHasNoDelimiter(pages[0]);
    } else {
      var rest := Join(pages[1..], PageDelimiter);
      assert ContentOfPages(pages) == pages[0] + PageDelimiter + rest;
      SplitAfterPage(pages[0], rest);
      SplitJoinRoundTrip(pages[1..]);
      assert pages == [pages[0]] + pages[1..];
    }
  }

  /** Save then load: the draft comes back page for page. */
  lemma SaveLoadRoundTrip(pages: seq<string>)
    requires |pages| >= 1
    requires forall i :: 0 <= i < |pages| ==> !HasMarker(pages[i])
    ensures PagesOfContent(ContentOfPages(pages)) == pages
  {
    PagesOfContentIsSplit(ContentOfPages(pages));
    SplitJoinRoundTrip(pages);
  }

  /**
   * Keeping pages free of the whole delimiter is not enough: a first page
   * made of the delimiter without its last newline merges with the
   * delimiter after it, and the draft loads as an empty page followed by a
   * different one.
   */
  lemma DelimiterFreeIsNotEnough()
    ensures var pages := [PageDelimiter[..|PageDelimiter| - 1], ""];
      (forall i, j :: 0 <= i < |pages| && 0 <= j ==> !OccursAt(pages[i], PageDelimiter, j)) &&
      Split(ContentOfPages(pages), PageDelimiter) == ["", PageDelimiter[1..]]
  {
    var d := PageDelimiter;
    MarkerHasNoNewline();
    var pages := [d[..|d| - 1], ""];
    var s := ContentOfPages(pages);
    assert s == d[..|d| - 1] + d;
    assert d[0] == '\n' && d[|d| - 1] == '\n';
    assert s[..|d|] == d;
    assert IndexOf(s, d, 0) == Some(0);
    assert s[|d|..] == d[1..];
    assert IndexOf(d[1..], d, 0).None?;
  }

  // ---------------------------------------------------------------------------
  // Page list operations

  /** `pages.filter((_, i) => i !== skip)`. */
  function WithoutIndex(pages: seq<string>, skip: int): (r: seq<string>)
    ensures 0 <= skip < |pages| ==> |r| == |pages| - 1
    ensures 0 <= skip < |pages| ==> forall k :: 0 <= k < skip ==> r[k] == pages[k]
    ensures 0 <= skip < |pages| ==> forall k :: skip <= k < |r| ==> r[k] == pages[k + 1]
    ensures !(0 <= skip < |pages|) ==> r == pages
    decreases |pages|
  {
    if pages == [] then []
    else (if skip == 0 then [] else [pages[0]]) + WithoutIndex(pages[1..], skip - 1)
  }

  /** The context for AI writing: the end of the previous page, a newline, the current page. */
  function AIContext(pages: seq<string>, index: int): (context: string)
    requires 0 <= index < |pages|
    ensures |context| >= |pages[index]| + 1
    ensures context[|context| - |pages[index]|..] == pages[index]
    ensures context[|context| - |pages[index]| - 1] == '\n'
    ensures var head := context[..|context| - |pages[index]| - 1];
      (index == 0 ==> head == "") &&
      (index > 0 ==> |head| == (if |pages[index - 1]| < 500 then |pages[index - 1]| else 500) &&
                     head == pages[index - 1][|pages[index - 1]| - |head|..])
  {
    var head := if index > 0 then Suffix(pages[index - 1], 500) else "";
    var context := head + "\n" + pages[index];
    assert context[..|context| - |pages[index]| - 1] == head;
    context
  }

  /** The current page after AI writing: a truthy generated text is appended after a blank line. */
  function WithGenerated(page: string, text: Option<string>): (r: string)
    ensures text.Some? && text.value != "" ==> r == page + "\n\n" + text.value
    ensures text.None? || text.value == "" ==> r == page
  {
    if text.Some? && Truthy(text.value) then page + "\n\n" + text.value else page
  }

  const FallbackSynopsis: string := "Uma história de aventura e mistério"

  /** The synopsis sent for title suggestions: the first 500 characters of the pages joined by spaces. */
  function TitleSynopsis(pages: seq<string>): (synopsis: string)
  {
    var fullContext := Prefix(Join(pages, " "), 500);
    if Truthy(fullContext) then fullContext else FallbackSynopsis
  }

  /** Joining two or more pages always yields a separator, so the text is empty only for one empty page. */
  lemma JoinEmptyIffOneEmptyPage(pages: seq<string>, sep: string)
    requires |pages| >= 1 && |sep| > 0
    ensures Join(pages, sep) == "" <==> pages == [""]
  {
    if |pages| >= 2 {
      assert |Join(pages, sep)| >= |sep|;
    }
  }

  /**
   * The synopsis is the first 500 characters of the pages joined by spaces;
   * the fallback is sent for a single blank page.
   */
  lemma TitleSynopsisSpec(pages: seq<string>)
    requires |pages| >= 1
    ensures pages == [""] ==> TitleSynopsis(pages) == FallbackSynopsis
    ensures pages != [""] ==>
      var text := Join(pages, " ");
      TitleSynopsis(pages) == text[..if |text| < 500 then |text| else 500]
  {
    JoinEmptyIffOneEmptyPage(pages, " ");
  }

  // ---------------------------------------------------------------------------
  // The editor component's state

  /** The parsed `draft_book` entry of local storage. */
  datatype SavedDraft = SavedDraft(title: Option<string>, content: Option<string>)

  class EditorState {
    var title: string
    var pages: seq<string>
    var currentPageIndex: int
    var isGenerating: bool
    var prompt: string
    var showPrompt: bool
    var suggestedTitles: seq<string>

    /** There is always a page, and the current index points at one. */
    ghost predicate Valid()
      reads this`pages, this`currentPageIndex
    {
      |pages| >= 1 && 0 <= currentPageIndex < |pages|
    }

    /** Mounting the editor: the initial state, then the load effect for a saved draft. */
    constructor (saved: Option<SavedDraft>)
      ensures Valid()
      ensures currentPageIndex == 0
      ensures saved.None? ==> title == "" && pages == [""]
      ensures saved.Some? ==> title == OrElse(saved.value.title, "") &&
                              pages == PagesOfContent(OrElse(saved.value.content, ""))
      ensures !isGenerating && prompt == "" && !showPrompt && suggestedTitles == []
    {
      title := "";
      pages := [""];
      currentPageIndex := 0;
      isGenerating := false;
      prompt := "";
      showPrompt := false;
      suggestedTitles := [];
      if saved.Some? {
        title := OrElse(saved.value.title, "");
        var content := OrElse(saved.value.content, "");
        if IndexOf(content, PageDelimiter, 0).Some? {
          pages := Split(content, PageDelimiter);
        } else {
          pages := [content];
        }
      }
    }

    /** `handleSave`: the title and the joined content handed to `onSave`. */
    method Save() returns (savedTitle: string, fullContent: string)
      requires Valid()
      ensures savedTitle == title
      ensures fullContent == ContentOfPages(pages)
      ensures (forall i :: 0 <= i < |pages| ==> !HasMarker(pages[i])) ==>
        PagesOfContent(fullContent) == pages
    {
      savedTitle := title;
      fullContent := Join(pages, PageDelimiter);
      if forall i :: 0 <= i < |pages| ==> !HasMarker(pages[i]) {
        SaveLoadRoundTrip(pages);
      }
    }

    /** `handlePageChange`: moves only to an existing page. */
    method PageChange(index: int)
      requires Valid()
      modifies this`currentPageIndex
      ensures Valid()
      ensures currentPageIndex == if 0 <= index < |pages| then index else old(currentPageIndex)
    {
      if 0 <= index < |pages| {
        currentPageIndex := index;
      }
    }

    /** `handleAddPage`: appends one empty page and selects it. */
    method AddPage()
      requires Valid()
      modifies this`pages, this`currentPageIndex
      ensures Valid()
      ensures pages == old(pages) + [""]
      ensures currentPageIndex == |old(pages)| == |pages| - 1
    {
      var n := |pages|;
      pages := pages + [""];
      currentPageIndex := n;
    }

    /**
     * `handleDeletePage`: the last remaining page is reset to empty;
     * otherwise the current page is removed and the previous one selected.
     */
    method DeletePage()
      requires Valid()
      modifies this`pages, this`currentPageIndex
      ensures Valid()
      ensures |old(pages)| == 1 ==> pages == [""] && currentPageIndex == 0
      ensures |old(pages)| >= 2 ==>
        pages == WithoutIndex(old(pages), old(currentPageIndex)) &&
        currentPageIndex == if old(currentPageIndex) > 0 then old(currentPageIndex) - 1 else 0
    {
      if |pages| <= 1 {
        pages := [""];
        return;
      }
      var newPages := WithoutIndex(pages, currentPageIndex);
      pages := newPages;
      currentPageIndex := if currentPageIndex - 1 > 0 then currentPageIndex - 1 else 0;
    }

    /** `updateCurrentPageContent`: a copy of the pages with the current one replaced. */
    method UpdateCurrentPageContent(newText: string)
      requires Valid()
      modifies this`pages
      ensures Valid()
      ensures |pages| == |old(pages)| && pages[currentPageIndex] == newText
      ensures forall k :: 0 <= k < |pages| && k != currentPageIndex ==> pages[k] == old(pages)[k]
    {
      var newPages := pages;
      newPages := newPages[currentPageIndex := newText];
      pages := newPages;
    }

    /** The prompt input's `onChange`. */
    method SetPrompt(text: string)
      modifies this`prompt
      ensures prompt == text
    {
      prompt := text;
    }

    /** The buttons that open and close the prompt box. */
    method SetShowPrompt(open: bool)
      modifies this`showPrompt
      ensures showPrompt == open
    {
      showPrompt := open;
    }

    /** The title input's `onChange`. */
    method SetTitle(text: string)
      modifies this`title
      ensures title == text
    {
      title := text;
    }

    /**
     * `handleAIWrite`. A blank prompt does nothing and sends nothing;
     * otherwise `context` is the context passed to `generateBookContent`,
     * a truthy result text is appended to the current page after a blank
     * line, and the prompt is closed and cleared.
     */
    method AIWrite(apiKey: Option<string>, reply: Reply<Option<string>>) returns (context: Option<string>)
      requires Valid()
      modifies this`pages, this`isGenerating, this`showPrompt, this`prompt
      ensures Valid()
      ensures Trim(old(prompt)) == "" ==>
        context.None? && pages == old(pages) && prompt == old(prompt) &&
        isGenerating == old(isGenerating) && showPrompt == old(showPrompt)
      ensures Trim(old(prompt)) != "" ==>
        context == Some(AIContext(old(pages), currentPageIndex)) &&
        !isGenerating && !showPrompt && prompt == ""
      ensures Trim(old(prompt)) != "" ==>
        pages == old(pages)[currentPageIndex :=
          WithGenerated(old(pages)[currentPageIndex], GenerateBookContent(apiKey, reply))]
    {
      if !Truthy(Trim(prompt)) {
        return None;
      }
      var ctx := WriteFromPrompt(apiKey, reply);
      context := Some(ctx);
    }

    /** The part of `handleAIWrite` after the blank-prompt check. */
    method WriteFromPrompt(apiKey: Option<string>, reply: Reply<Option<string>>) returns (context: string)
      requires Valid()
      modifies this`pages, this`isGenerating, this`showPrompt, this`prompt
      ensures Valid()
      ensures context == AIContext(old(pages), currentPageIndex)
      ensures pages == old(pages)[currentPageIndex :=
        WithGenerated(old(pages)[currentPageIndex], GenerateBookContent(apiKey, reply))]
      ensures !isGenerating && !showPrompt && prompt == ""
    {
      isGenerating := true;
      var currentContent := pages[currentPageIndex];
      context := AIContext(pages, currentPageIndex);
      var result := GenerateBookContent(apiKey, reply);
      pages := pages[currentPageIndex := WithGenerated(currentContent, result)];
      isGenerating := false;
      showPrompt := false;
      prompt := "";
    }

    /**
     * `handleSuggestTitles`: `synopsis` is the argument passed to
     * `suggestBookTitles`; its result replaces the suggestions.
     */
    method SuggestTitles(apiKey: Option<string>, reply: Reply<Option<string>>,
                         parse: string -> Option<seq<string>>) returns (synopsis: string)
      requires Valid()
      modifies this`isGenerating, this`suggestedTitles
      ensures synopsis == TitleSynopsis(pages)
      ensures suggestedTitles == SuggestBookTitles(apiKey, reply, parse)
      ensures !isGenerating
    {
      isGenerating := true;
      synopsis := TitleSynopsis(pages);
      var titles := SuggestBookTitles(apiKey, reply, parse);
      suggestedTitles := titles;
      isGenerating := false;
    }

    /** Clicking a suggested title: it becomes the title and the suggestions close. */
    method PickSuggestedTitle(t: string)
      modifies this`title, this`suggestedTitles
      ensures title == t && suggestedTitles == []
    {
      title := t;
      suggestedTitles := [];
    }
  }
}
