/** The data shapes shared by the service and the view (types.ts). */
module Types {

  /** One cited web page: its link target and its display title. */
  datatype SearchSource = SearchSource(uri: string, title: string)

  /** What one successful fetch produces: the summary text and its cited sources. */
  datatype SummaryData = SummaryData(text: string, sources: seq<SearchSource>)

  /** The four mutually exclusive statuses of the view. */
  datatype AppStatus = IDLE | LOADING | SUCCESS | ERROR

  /** No two sources share a uri. */
  predicate UniqueUris(sources: seq<SearchSource>) {
    forall i, j :: 0 <= i < j < |sources| ==> sources[i].uri != sources[j].uri
  }

  /** Some source carries the given uri. */
  predicate HasUri(sources: seq<SearchSource>, uri: string) {
    exists i :: 0 <= i < |sources| && sources[i].uri == uri
  }
}
