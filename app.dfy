/**
 * The application shell (App.tsx): the status, data and error state that `fetchSummary`
 * updates, the rule that disables the refresh button while loading, and what each status
 * renders in the content area.
 */
module App {
  import opened Wrappers
  import opened Types
  import opened LineFormat
  import opened GeminiService
  import opened SourceBadge

  /** The message stored when the thrown value is not an `Error`. */
  const UnexpectedError: string := "An unexpected error occurred."

  /** `err instanceof Error ? err.message : "An unexpected error occurred."`. */
  function ErrorMessage(err: Thrown): (message: string)
    ensures err.ErrorObject? ==> message == err.message
    ensures err.OtherValue? ==> message == UnexpectedError
  {
    match err
    case ErrorObject(m) => m
    case OtherValue => UnexpectedError
  }

  /** What the content area shows. */
  datatype Panel =
    | Placeholder
    | ErrorPanel(message: Option<string>)
    | SummaryPanel(blocks: seq<Block>, sources: Option<seq<Badge>>)
    | NothingShown

  /** The "Verified Sources" section: present only when there are sources, one badge per source in order. */
  function SourcesSection(sources: seq<SearchSource>): (section: Option<seq<Badge>>)
    ensures section.Some? <==> |sources| > 0
    ensures section.Some? ==> |section.value| == |sources|
    ensures section.Some? ==> forall i :: 0 <= i < |sources| ==>
      section.value[i].href == sources[i].uri && section.value[i].caption == Label(sources[i].title)
  {
    if |sources| > 0 then Some(seq(|sources|, i requires 0 <= i < |sources| => RenderBadge(sources[i])))
    else None
  }

  /**
   * The content area for a state: the skeleton while loading, the error panel on error, the
   * summary only on success with data, and nothing otherwise. Stale data is never shown under
   * another status.
   */
  function ContentPanel(status: AppStatus, data: Option<SummaryData>, error: Option<string>): (p: Panel)
    ensures p.Placeholder? <==> status == LOADING
    ensures p.ErrorPanel? <==> status == ERROR
    ensures p.SummaryPanel? <==> status == SUCCESS && data.Some?
    ensures p.ErrorPanel? ==> p.message == error
    ensures p.SummaryPanel? ==> p.blocks == SummaryBlocks(data.value.text)
    ensures p.SummaryPanel? ==> (p.sources.Some? <==> |data.value.sources| > 0)
    ensures p.SummaryPanel? ==> p.sources == SourcesSection(data.value.sources)
  {
    match status
    case LOADING => Placeholder
    case ERROR => ErrorPanel(error)
    case SUCCESS => if data.Some? then SummaryPanel(SummaryBlocks(data.value.text), SourcesSection(data.value.sources)) else NothingShown
    case IDLE => NothingShown
  }

  /** The view's state. */
  class AppState {
    var status: AppStatus
    var data: Option<SummaryData>
    var error: Option<string>

    /** The combinations of the three fields that `fetchSummary` can produce. */
    ghost predicate Valid()
      reads this
    {
      && (status == IDLE ==> data.None? && error.None?)
      && (status == LOADING ==> error.None?)
      && (status == SUCCESS ==> data.Some? && error.None?)
      && (status == ERROR ==> error.Some?)
    }

    /** The initial state: idle, no data, no error. */
    constructor ()
      ensures Valid()
      ensures status == IDLE && data.None? && error.None?
    {
      status := IDLE;
      data := None;
      error := None;
    }

    /** The refresh button's `disabled` attribute. */
    function RefreshDisabled(): (disabled: bool)
      reads this
      ensures disabled <==> status == LOADING
    {
      status == LOADING
    }

    /** The content area for the current state. */
    function View(): (p: Panel)
      reads this
      ensures p.Placeholder? <==> status == LOADING
      ensures p.ErrorPanel? <==> status == ERROR
      ensures p.ErrorPanel? ==> p.message == error
      ensures p.SummaryPanel? <==> status == SUCCESS && data.Some?
      ensures p.SummaryPanel? ==> p.blocks == SummaryBlocks(data.value.text) && p.sources == SourcesSection(data.value.sources)
    {
      ContentPanel(status, data, error)
    }

    /** The start of `fetchSummary`: loading, error cleared, data kept. */
    method Start()
      requires Valid()
      modifies this
      ensures Valid()
      ensures status == LOADING && error.None? && data == old(data)
      ensures RefreshDisabled() && View() == Placeholder
    {
      status := LOADING;
      error := None;
    }

    /** The fetch resolved: the result is stored and the status is success. */
    method Succeed(result: SummaryData)
      requires Valid() && status == LOADING
      modifies this
      ensures Valid()
      ensures status == SUCCESS && data == Some(result) && error == old(error)
      ensures !RefreshDisabled()
    {
      data := Some(result);
      status := SUCCESS;
    }

    /** The fetch rejected: the message is stored, the status is error, the data is kept but not shown. */
    method Fail(err: Thrown)
      requires Valid() && status == LOADING
      modifies this
      ensures Valid()
      ensures status == ERROR && error == Some(ErrorMessage(err)) && data == old(data)
      ensures !RefreshDisabled() && View() == ErrorPanel(Some(ErrorMessage(err)))
    {
      error := Some(ErrorMessage(err));
      status := ERROR;
    }

    /**
     * `fetchSummary`: start, ask the service, then succeed with its data or fail with the
     * fixed message it re-raises.
     */
    method FetchSummary(outcome: ApiOutcome)
      requires Valid()
      modifies this
      ensures Valid() && !RefreshDisabled() && error.None? == (status == SUCCESS)
      ensures outcome.Threw? ==> status == ERROR && error == Some(FailureMessage) && data == old(data)
      ensures outcome.Replied? ==> status == SUCCESS && error.None?
      ensures outcome.Replied? ==>
        data == Some(SummaryData(SummaryText(outcome.response.text), Dedup(ChunksOrNone(outcome.response))))
    {
      Start();
      var result := GetPaperSummary(outcome);
      match result
      case Resolved(d) => Succeed(d);
      case Rejected(err) => Fail(err);
    }

    /** A click on the header's refresh button, which does nothing while it is disabled. */
    method ClickRefresh(outcome: ApiOutcome)
      requires Valid()
      modifies this
      ensures Valid()
      ensures old(status) == LOADING ==> status == old(status) && data == old(data) && error == old(error)
      ensures old(status) != LOADING ==> !RefreshDisabled() && error.None? == (status == SUCCESS)
      ensures old(status) != LOADING && outcome.Threw? ==>
        status == ERROR && error == Some(FailureMessage) && data == old(data)
      ensures old(status) != LOADING && outcome.Replied? ==> status == SUCCESS && error.None?
      ensures old(status) != LOADING && outcome.Replied? ==>
        data == Some(SummaryData(SummaryText(outcome.response.text), Dedup(ChunksOrNone(outcome.response))))
    {
      if !RefreshDisabled() {
        FetchSummary(outcome);
      }
    }
  }

  /** The fallback sentence holds no line break and no whitespace at either end. */
  lemma FallbackIsOneTrimmedLine()
    ensures '\n' !in NoSummary
    ensures Trim(NoSummary) == NoSummary
  {
    forall i | 0 <= i < |NoSummary| ensures NoSummary[i] != '\n' {
    }
    assert !IsWhitespace(NoSummary[|NoSummary| - 1]);
    assert DropWhileEnd(NoSummary, IsWhitespace) == NoSummary;
    assert !IsWhitespace(NoSummary[0]);
  }

  /** The fallback sentence renders as one paragraph holding it. */
  lemma FallbackRendersAsParagraph()
    ensures SummaryBlocks(NoSummary) == [Paragraph(NoSummary)]
  {
    FallbackIsOneTrimmedLine();
    SingleLineText(NoSummary);
    assert LineBlock(NoSummary) == Some(Paragraph(NoSummary));
    OneLineBlocks(NoSummary, LineBlock);
  }

  /** A reply without text or grounding metadata renders as the single fallback paragraph and no sources. */
  lemma EmptyReplyRendersFallback()
    ensures var response := Response(None, None);
      ContentPanel(SUCCESS, Some(SummaryData(SummaryText(response.text), Dedup(ChunksOrNone(response)))), None)
      == SummaryPanel([Paragraph(NoSummary)], None)
  {
    var response := Response(None, None);
    assert ChunksOrNone(response) == [];
    assert SourcesSection(Dedup([])) == None;
    FallbackRendersAsParagraph();
  }

  /** A bullet line keeps its words and loses its marker and the space after it. */
  lemma BulletLineRenders(marker: char, words: string)
    requires IsBulletMarker(marker) && words != []
    requires !IsBulletPrefixChar(words[0]) && !IsWhitespace(words[|words| - 1])
    ensures LineBlock([marker, ' '] + words) == Some(Bullet(words))
  {
    var line := [marker, ' '] + words;
    assert line[|line| - 1] == words[|words| - 1];
    assert DropWhileEnd(line, IsWhitespace) == line;
    assert Trim(line) == line;
    assert line[1..][1..] == words;
  }

  /** A plain line without surrounding whitespace renders as a paragraph holding it. */
  lemma PlainLineRenders(line: string)
    requires line != [] && !IsBulletPrefixChar(line[0]) && !IsWhitespace(line[|line| - 1])
    ensures LineBlock(line) == Some(Paragraph(line))
  {
    assert DropWhileEnd(line, IsWhitespace) == line;
    assert Trim(line) == line;
  }

  /** The chunks of the example reply: a repeated uri keeps its first title, a missing title becomes the uri. */
  lemma MixedChunksDedup()
    ensures Dedup([
        Chunk(Some(Web(Some("https://a.com"), Some("A")))),
        Chunk(Some(Web(Some("https://a.com"), Some("A-dup")))),
        Chunk(Some(Web(Some("https://b.com"), None)))])
      == [SearchSource("https://a.com", "A"), SearchSource("https://b.com", "https://b.com")]
  {
    var a := Chunk(Some(Web(Some("https://a.com"), Some("A"))));
    var aDup := Chunk(Some(Web(Some("https://a.com"), Some("A-dup"))));
    var b := Chunk(Some(Web(Some("https://b.com"), None)));
    var sa := SearchSource("https://a.com", "A");
    assert [a, aDup, b][..2] == [a, aDup];
    assert [a, aDup][..1] == [a];
    assert [a][..0] == [];
    assert Dedup([a]) == [sa];
    assert HasUri([sa], WebUri(aDup)) by {
      assert [sa][0].uri == WebUri(aDup);
    }
    assert Dedup([a, aDup]) == [sa];
    assert WebUri(b) != sa.uri;
    assert !HasUri([sa], WebUri(b));
  }
}
