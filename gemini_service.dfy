/**
 * What `getPaperSummary` (services/geminiService.ts) does with the external service's reply:
 * the text falls back to a fixed sentence, the grounding chunks are filtered to those with a
 * web uri and deduplicated by uri (first one seen wins), and any failure is re-raised with one
 * fixed message. The network call itself is an input: the reply, or the fact that it failed.
 */
module GeminiService {
  import opened Wrappers
  import opened Types

  /** Shown when the reply carries no text (or an empty one). */
  const NoSummary: string := "No summary available."

  /** The one message every failure is re-raised with. */
  const FailureMessage: string := "Failed to fetch summary from Gemini API."

  /** The `web` part of a grounding chunk; both fields may be absent. */
  datatype Web = Web(uri: Option<string>, title: Option<string>)

  /** One grounding chunk of the reply's metadata; its `web` part may be absent. */
  datatype Chunk = Chunk(web: Option<Web>)

  datatype GroundingMetadata = GroundingMetadata(groundingChunks: Option<seq<Chunk>>)

  datatype Candidate = Candidate(groundingMetadata: Option<GroundingMetadata>)

  /** The parts of the reply that are read: its text and its candidates. */
  datatype Response = Response(text: Option<string>, candidates: Option<seq<Candidate>>)

  /** How the call to the external service ended. */
  datatype ApiOutcome = Replied(response: Response) | Threw

  /** A value a JavaScript `throw` can carry: an `Error` object with its message, or anything else. */
  datatype Thrown = ErrorObject(message: string) | OtherValue

  /** How `getPaperSummary` ends: it resolves with the data or it rejects. */
  datatype Fetched = Resolved(data: SummaryData) | Rejected(error: Thrown)

  /** `response.text || "No summary available."`: an absent or empty text is replaced. */
  function SummaryText(text: Option<string>): (r: string)
    ensures r != ""
    ensures text.Some? && text.value != "" ==> r == text.value
    ensures text.None? || text.value == "" ==> r == NoSummary
  {
    match text
    case Some(t) => if t != "" then t else NoSummary
    case None => NoSummary
  }

  /** `response.candidates?.[0]?.groundingMetadata?.groundingChunks`. */
  function GroundingChunks(response: Response): (r: Option<seq<Chunk>>)
    ensures r.Some? <==>
      && response.candidates.Some? && |response.candidates.value| > 0
      && response.candidates.value[0].groundingMetadata.Some?
      && response.candidates.value[0].groundingMetadata.value.groundingChunks.Some?
    ensures r.Some? ==> r.value == response.candidates.value[0].groundingMetadata.value.groundingChunks.value
  {
    match response.candidates
    case None => None
    case Some(cs) =>
      if |cs| == 0 then None
      else match cs[0].groundingMetadata
        case None => None
        case Some(m) => m.groundingChunks
  }

  /** The chunk's `web.uri`, with an absent `web` or `uri` read as the empty (falsy) string. */
  function WebUri(chunk: Chunk): (uri: string)
    ensures uri != "" <==> chunk.web.Some? && chunk.web.value.uri.Some? && chunk.web.value.uri.value != ""
    ensures uri != "" ==> uri == chunk.web.value.uri.value
  {
    match chunk.web
    case None => ""
    case Some(w) => match w.uri case None => "" case Some(u) => u
  }

  /** `chunk.web && chunk.web.uri`: the chunk has a web part with a non-empty uri. */
  predicate Qualifies(chunk: Chunk)
    ensures Qualifies(chunk) <==>
      chunk.web.Some? && chunk.web.value.uri.Some? && chunk.web.value.uri.value != ""
  {
    WebUri(chunk) != ""
  }

  /** The source a qualifying chunk contributes: its uri, and its title unless that is absent or empty. */
  function ToSource(chunk: Chunk): (s: SearchSource)
    requires Qualifies(chunk)
    ensures s.uri == WebUri(chunk) && s.uri != ""
    ensures s.title != ""
    ensures chunk.web.value.title.Some? && chunk.web.value.title.value != "" ==>
      s.title == chunk.web.value.title.value
    ensures chunk.web.value.title.None? || chunk.web.value.title.value == "" ==> s.title == s.uri
  {
    var w := chunk.web.value;
    var title := match w.title case Some(t) => if t != "" then t else w.uri.value case None => w.uri.value;
    SearchSource(w.uri.value, title)
  }

  /** One step of the loop: push the chunk's source unless it does not qualify or its uri is already kept. */
  function Keep(kept: seq<SearchSource>, chunk: Chunk): (r: seq<SearchSource>)
    ensures kept <= r && |r| <= |kept| + 1
    ensures |r| == |kept| + 1 <==> Qualifies(chunk) && !HasUri(kept, WebUri(chunk))
    ensures |r| == |kept| + 1 ==> r[|kept|] == ToSource(chunk)
    ensures UniqueUris(kept) ==> UniqueUris(r)
  {
    if Qualifies(chunk) && !HasUri(kept, WebUri(chunk)) then kept + [ToSource(chunk)] else kept
  }

  /** The sources kept after the loop has seen all of `chunks`, in order. */
  function Dedup(chunks: seq<Chunk>): (sources: seq<SearchSource>)
    ensures |sources| <= |chunks|
    ensures UniqueUris(sources)
  {
    if chunks == [] then [] else Keep(Dedup(chunks[..|chunks| - 1]), chunks[|chunks| - 1])
  }

  /** Chunk `k` qualifies and no earlier chunk qualifies with the same uri. */
  predicate FirstSeen(chunks: seq<Chunk>, k: nat)
    requires k < |chunks|
  {
    && Qualifies(chunks[k])
    && forall j :: 0 <= j < k ==> !(Qualifies(chunks[j]) && WebUri(chunks[j]) == WebUri(chunks[k]))
  }

  /** The positions of the first qualifying chunk of each uri, in increasing order. */
  ghost function FirstSeenIndices(chunks: seq<Chunk>): (ks: seq<nat>)
    ensures forall i :: 0 <= i < |ks| ==> ks[i] < |chunks| && FirstSeen(chunks, ks[i])
    ensures forall i, j :: 0 <= i < j < |ks| ==> ks[i] < ks[j]
    ensures forall k :: 0 <= k < |chunks| && FirstSeen(chunks, k) ==> k in ks
  {
    if chunks == [] then []
    else
      var n := |chunks| - 1;
      var prefix := chunks[..n];
      var earlier := FirstSeenIndices(prefix);
      assert forall k :: 0 <= k < n ==> (FirstSeen(prefix, k) <==> FirstSeen(chunks, k)) by {
        forall k | 0 <= k < n ensures FirstSeen(prefix, k) <==> FirstSeen(chunks, k) {
          assert forall j :: 0 <= j <= k ==> prefix[j] == chunks[j];
        }
      }
      earlier + (if FirstSeen(chunks, n) then [n] else [])
  }

  /** A uri is kept exactly when some chunk qualifies with it. */
  lemma {:induction false} DedupHasUri(chunks: seq<Chunk>, uri: string)
    ensures HasUri(Dedup(chunks), uri) <==>
      exists k :: 0 <= k < |chunks| && Qualifies(chunks[k]) && WebUri(chunks[k]) == uri
  {
    if chunks != [] {
      var n := |chunks| - 1;
      var prefix := chunks[..n];
      var kept := Dedup(prefix);
      var c := chunks[n];
      DedupHasUri(prefix, uri);
      assert forall k :: 0 <= k < n ==> prefix[k] == chunks[k];
      if Qualifies(c) && !HasUri(kept, WebUri(c)) {
        var s := ToSource(c);
        assert Dedup(chunks) == kept + [s];
        if HasUri(kept + [s], uri) {
          var i :| 0 <= i < |kept + [s]| && (kept + [s])[i].uri == uri;
          if i < |kept| {
            assert kept[i].uri == uri;
          }
        }
        if HasUri(kept, uri) {
          var i :| 0 <= i < |kept| && kept[i].uri == uri;
          assert (kept + [s])[i].uri == uri;
        }
        assert (kept + [s])[|kept|].uri == WebUri(c);
      } else if Qualifies(c) {
        DedupHasUri(prefix, WebUri(c));
      }
    }
  }

  /**
   * The kept sources are exactly the sources of the first-seen chunks, in chunk order:
   * each entry, title included, is built from the first qualifying chunk with its uri.
   */
  lemma {:induction false} DedupIsFirstSeen(chunks: seq<Chunk>)
    ensures |Dedup(chunks)| == |FirstSeenIndices(chunks)|
    ensures forall i :: 0 <= i < |Dedup(chunks)| ==>
      Dedup(chunks)[i] == ToSource(chunks[FirstSeenIndices(chunks)[i]])
  {
    if chunks != [] {
      var n := |chunks| - 1;
      var prefix := chunks[..n];
      var kept, earlier := Dedup(prefix), FirstSeenIndices(prefix);
      var c := chunks[n];
      DedupIsFirstSeen(prefix);
      assert chunks == prefix + [c];
      assert forall k :: 0 <= k < n ==> prefix[k] == chunks[k];
      forall i | 0 <= i < |earlier| ensures kept[i] == ToSource(chunks[earlier[i]]) {
        assert prefix[earlier[i]] == chunks[earlier[i]];
      }
      if Qualifies(c) && !HasUri(kept, WebUri(c)) {
        DedupHasUri(prefix, WebUri(c));
        assert FirstSeen(chunks, n);
        assert Dedup(chunks) == kept + [ToSource(c)];
        assert FirstSeenIndices(chunks) == earlier + [n];
      } else {
        if Qualifies(c) {
          DedupHasUri(prefix, WebUri(c));
        }
        assert !FirstSeen(chunks, n);
        assert Dedup(chunks) == kept;
        assert FirstSeenIndices(chunks) == earlier;
      }
    }
  }

  /** Every distinct qualifying uri among the chunks appears among the kept sources. */
  lemma DedupComplete(chunks: seq<Chunk>, k: nat)
    requires k < |chunks| && Qualifies(chunks[k])
    ensures HasUri(Dedup(chunks), WebUri(chunks[k]))
  {
    DedupHasUri(chunks, WebUri(chunks[k]));
  }

  /** `sources.find(s => s.uri === uri)`: the first kept source with that uri, if any. */
  method FindByUri(sources: seq<SearchSource>, uri: string) returns (found: Option<SearchSource>)
    ensures found.None? <==> !HasUri(sources, uri)
    ensures found.Some? ==> found.value.uri == uri
    ensures found.Some? ==>
      exists i :: 0 <= i < |sources| && sources[i] == found.value && forall j :: 0 <= j < i ==> sources[j].uri != uri
  {
    var i := 0;
    while i < |sources|
      invariant 0 <= i <= |sources|
      invariant forall j :: 0 <= j < i ==> sources[j].uri != uri
    {
      if sources[i].uri == uri {
        return Some(sources[i]);
      }
      i := i + 1;
    }
    return None;
  }

  /**
   * The `forEach` over the grounding chunks: push the source of each chunk that has a web uri
   * not already kept. The result has no repeated uri, is built from the first chunk of each uri,
   * and misses no qualifying uri.
   */
  method ExtractSources(chunks: seq<Chunk>) returns (sources: seq<SearchSource>)
    ensures sources == Dedup(chunks)
    ensures UniqueUris(sources) && |sources| <= |chunks|
    ensures |sources| == |FirstSeenIndices(chunks)|
    ensures forall i :: 0 <= i < |sources| ==> sources[i] == ToSource(chunks[FirstSeenIndices(chunks)[i]])
    ensures forall k :: 0 <= k < |chunks| && Qualifies(chunks[k]) ==> HasUri(sources, WebUri(chunks[k]))
  {
    sources := [];
    var i := 0;
    while i < |chunks|
      invariant 0 <= i <= |chunks|
      invariant sources == Dedup(chunks[..i])
    {
      var chunk := chunks[i];
      if Qualifies(chunk) {
        var existing := FindByUri(sources, WebUri(chunk));
        if existing.None? {
          sources := sources + [ToSource(chunk)];
        }
      }
      assert chunks[..i + 1][..i] == chunks[..i];
      i := i + 1;
    }
    assert chunks[..i] == chunks;
    DedupIsFirstSeen(chunks);
    forall k | 0 <= k < |chunks| && Qualifies(chunks[k]) ensures HasUri(sources, WebUri(chunks[k])) {
      DedupComplete(chunks, k);
    }
  }

  /**
   * `getPaperSummary` after the call: a failed call rejects with the fixed message; a reply
   * resolves with its text (or the fallback) and the deduplicated sources of its grounding
   * chunks, none when the reply carries no chunks.
   */
  method GetPaperSummary(outcome: ApiOutcome) returns (r: Fetched)
    ensures outcome.Threw? <==> r.Rejected?
    ensures r.Rejected? ==> r.error == ErrorObject(FailureMessage)
    ensures outcome.Replied? ==> r.Resolved?
    ensures outcome.Replied? ==> r.data.text == SummaryText(outcome.response.text)
    ensures outcome.Replied? ==> r.data.sources == Dedup(ChunksOrNone(outcome.response))
  {
    match outcome
    case Threw =>
      r := Rejected(ErrorObject(FailureMessage));
    case Replied(response) =>
      var text := SummaryText(response.text);
      var sources: seq<SearchSource> := [];
      var groundingChunks := GroundingChunks(response);
      if groundingChunks.Some? {
        sources := ExtractSources(groundingChunks.value);
      }
      r := Resolved(SummaryData(text, sources));
  }

  /** The chunks the loop walks over: none when the reply carries no grounding chunks. */
  function ChunksOrNone(response: Response): (chunks: seq<Chunk>)
    ensures GroundingChunks(response).None? ==> chunks == []
    ensures GroundingChunks(response).Some? ==> chunks == GroundingChunks(response).value
  {
    match GroundingChunks(response)
    case None => []
    case Some(cs) => cs
  }
}
