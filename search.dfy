/**
 * searchManga (src/index.js:218-270) once the provider's decoded JSON is in
 * hand: every search item becomes a series, or is dropped when it has no
 * usable title.
 */
module Search {
  import opened Wrappers
  import opened Records
  import opened Sequences

  /** The `data` object of one entry of `json.data.items`; fields the mapping does not read are omitted. */
  datatype SeriesData = SeriesData(
    id: string,
    name: Option<string>,
    altNames: seq<Option<string>>,
    imageCoverUrl: Option<string>)

  datatype SearchItem = SearchItem(data: SeriesData)

  /** JavaScript truthiness of a string-or-nothing: absent and "" are falsy. */
  predicate Truthy(v: Option<string>)
  {
    v.Some? && v.value != ""
  }

  /** `data.altNames[0]`: nothing when the list is empty. */
  function FirstAltName(d: SeriesData): Option<string>
  {
    if |d.altNames| > 0 then d.altNames[0] else None
  }

  /** The display title: the canonical name, else the first alternate name, else none at all. */
  function ResolveTitle(d: SeriesData): (r: Option<string>)
    ensures r.None? <==> !Truthy(d.name) && !Truthy(FirstAltName(d))
    ensures r.Some? ==> r.value != ""
    ensures Truthy(d.name) ==> r == d.name
    ensures !Truthy(d.name) && Truthy(FirstAltName(d)) ==> r == FirstAltName(d)
  {
    if Truthy(d.name) then d.name
    else if Truthy(FirstAltName(d)) then FirstAltName(d)
    else None
  }

  /** The callback of `items.map(...)`: a series, or nothing when the item has no usable title. */
  function MapSearchItem(item: SearchItem): Option<MangaSeries>
  {
    match ResolveTitle(item.data)
    case None => None
    case Some(title) =>
      Some(MangaSeries(title, item.data.id, Unranked, item.data.imageCoverUrl))
  }

  /** The series list searchManga returns for the given search items. */
  function SearchManga(items: seq<SearchItem>): (r: MangaSeriesList)
    ensures |r.results| <= |items|
    ensures forall k :: 0 <= k < |r.results| ==>
      r.results[k].name != "" && r.results[k].ranking == Unranked
  {
    FilterMapOrigins(items, MapSearchItem);
    MangaSeriesList(FilterMap(items, MapSearchItem))
  }

  /** The positions of the items that produce a series, in increasing order. */
  function SearchOrigins(items: seq<SearchItem>): seq<nat>
  {
    KeptIndices(items, MapSearchItem)
  }

  /**
   * Each result comes from the item at SearchOrigins[k], with its title chosen
   * as the source does (name first, then altNames[0]) and its id and cover
   * copied; the origins increase, so provider order is kept.
   */
  lemma SearchResultsFromItems(items: seq<SearchItem>)
    ensures |SearchManga(items).results| == |SearchOrigins(items)|
    ensures StrictlyIncreasing(SearchOrigins(items))
    ensures forall k :: 0 <= k < |SearchOrigins(items)| ==>
      var d := items[SearchOrigins(items)[k]].data;
      var s := SearchManga(items).results[k];
      (Truthy(d.name) ==> s.name == d.name.value) &&
      (!Truthy(d.name) ==> FirstAltName(d) == Some(s.name)) &&
      s.identifier == d.id && s.coverUrl == d.imageCoverUrl && s.ranking == Unranked
  {
    FilterMapOrigins(items, MapSearchItem);
  }

  /** An item yields a result exactly when its name or its first alternate name is usable. */
  lemma SearchKeepsExactlyTitled(items: seq<SearchItem>)
    ensures forall i :: 0 <= i < |items| ==>
      (i in SearchOrigins(items) <==> Truthy(items[i].data.name) || Truthy(FirstAltName(items[i].data)))
  {
    FilterMapOrigins(items, MapSearchItem);
  }
}
