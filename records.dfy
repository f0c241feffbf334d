/**
 * The record shapes the host application understands (src/index.js:3-117).
 * In the source they are classes whose constructors only assign fields, so
 * they are values here.
 */
module Records {
  import opened Wrappers

  /** The ranking a search result gets when the provider gives none; every negative ranking means "unranked". */
  const Unranked: int := -1

  /**
   * One chapter of a series. `number` is carried as the provider gives it
   * (it may be "EX" or "Omake"); the timestamps are the provider's
   * millisecond epoch values, passed through unchanged.
   */
  datatype ChapterListItem = ChapterListItem(
    number: string,
    identifier: string,
    title: Option<string>,
    description: Option<string>,
    group: Option<string>,
    variant: Option<string>,
    created: Option<int>,
    updated: Option<int>,
    published: Option<int>)

  datatype ChapterList = ChapterList(chapters: seq<ChapterListItem>)

  /** The pages of one chapter, in reading order. */
  datatype ChapterData = ChapterData(pageUrls: seq<string>)

  datatype MangaSeries = MangaSeries(
    name: string,
    identifier: string,
    ranking: int,
    coverUrl: Option<string>)

  datatype MangaSeriesList = MangaSeriesList(results: seq<MangaSeries>)
}
