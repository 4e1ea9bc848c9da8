/** One citation badge (components/SourceBadge.tsx): a link to the source's uri with a caption cut to 30 characters. */
module SourceBadge {
  import opened Types

  /** Titles longer than this are cut. */
  const MaxTitleLength: nat := 30

  /** Appended to a title that was cut. */
  const Ellipsis: string := "..."

  /** The displayed caption: the title itself if it is at most 30 characters, else its first 30 followed by "...". */
  function Label(title: string): (caption: string)
    ensures |title| <= MaxTitleLength ==> caption == title
    ensures |title| > MaxTitleLength ==> |caption| == MaxTitleLength + |Ellipsis| && caption[MaxTitleLength..] == Ellipsis
    ensures |caption| <= MaxTitleLength + |Ellipsis|
    ensures var keep := if |title| < MaxTitleLength then |title| else MaxTitleLength;
      title[..keep] <= caption
  {
    if |title| > MaxTitleLength then title[..MaxTitleLength] + Ellipsis else title
  }

  /** What a badge shows: its link target and its caption. */
  datatype Badge = Badge(href: string, caption: string)

  /** The badge of one source: it links to the uri unmodified and shows the cut title. */
  function RenderBadge(source: SearchSource): (badge: Badge)
    ensures badge.href == source.uri
    ensures badge.caption == Label(source.title)
  {
    Badge(source.uri, Label(source.title))
  }
}
