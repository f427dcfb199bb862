/**
 * The album search (SearchView.get): the cleaned search form becomes a
 * conjunction of criteria, and the catalog is filtered by it.
 */
module Search {
  import opened Common

  type ArtistId = nat
  type MediaTypeId = nat

  /** An album as the search sees it; `genre` is the slug of its artist's genre, `releaseDate` a day number. */
  datatype Album = Album(id: nat, artist: ArtistId, genre: string, mediaType: MediaTypeId, releaseDate: int)

  /** The cleaned search form: optional artist, chosen genre slugs and media types, optional date bounds. */
  datatype SearchForm = SearchForm(
    artist: Option<ArtistId>,
    genres: seq<string>,
    mediaTypes: seq<MediaTypeId>,
    releasedFrom: Option<int>,
    releasedTo: Option<int>)

  /** One criterion of the query. */
  datatype Criterion =
    | ArtistIs(artist: ArtistId)
    | GenreIs(slug: string)
    | GenreIn(slugs: seq<string>)
    | MediaTypeIs(mediaType: MediaTypeId)
    | MediaTypeIn(mediaTypes: seq<MediaTypeId>)
    | ReleasedOnOrAfter(day: int)
    | ReleasedOnOrBefore(day: int)

  predicate Holds(c: Criterion, a: Album) {
    match c
    case ArtistIs(x) => a.artist == x
    case GenreIs(g) => a.genre == g
    case GenreIn(gs) => a.genre in gs
    case MediaTypeIs(m) => a.mediaType == m
    case MediaTypeIn(ms) => a.mediaType in ms
    case ReleasedOnOrAfter(d) => a.releaseDate >= d
    case ReleasedOnOrBefore(d) => a.releaseDate <= d
  }

  /** The criteria are combined with AND. */
  predicate HoldsAll(q: seq<Criterion>, a: Album) {
    forall i :: 0 <= i < |q| ==> Holds(q[i], a)
  }

  /**
   * What a search form asks for, stated directly: the artist and the date
   * bounds when given (bounds inclusive), and genre and media type among
   * the chosen ones.
   */
  predicate Matches(f: SearchForm, a: Album) {
    && (f.artist.Some? ==> a.artist == f.artist.value)
    && a.genre in f.genres
    && a.mediaType in f.mediaTypes
    && (f.releasedFrom.Some? ==> a.releaseDate >= f.releasedFrom.value)
    && (f.releasedTo.Some? ==> a.releaseDate <= f.releasedTo.value)
  }

  /** The genre criterion: equality for a single chosen slug, membership otherwise. */
  function GenreCriterion(f: SearchForm): Criterion {
    if |f.genres| == 1 then GenreIs(f.genres[0]) else GenreIn(f.genres)
  }

  /** The media-type criterion: equality for a single choice, membership otherwise. */
  function MediaTypeCriterion(f: SearchForm): Criterion {
    if |f.mediaTypes| == 1 then MediaTypeIs(f.mediaTypes[0]) else MediaTypeIn(f.mediaTypes)
  }

  /**
   * The query as the view assembles it: the artist and the date bounds only
   * when set; genre and media type always. The query is therefore never empty.
   */
  function BuildQuery(f: SearchForm): (q: seq<Criterion>)
    ensures 2 <= |q| <= 5
    ensures |q| == 2 + (if f.artist.Some? then 1 else 0) + (if f.releasedFrom.Some? then 1 else 0)
                     + (if f.releasedTo.Some? then 1 else 0)
    ensures GenreCriterion(f) in q && MediaTypeCriterion(f) in q
    ensures f.artist.Some? ==> ArtistIs(f.artist.value) in q
    ensures f.releasedFrom.Some? ==> ReleasedOnOrAfter(f.releasedFrom.value) in q
    ensures f.releasedTo.Some? ==> ReleasedOnOrBefore(f.releasedTo.value) in q
    ensures forall c :: c in q ==>
              || c == GenreCriterion(f) || c == MediaTypeCriterion(f)
              || (f.artist.Some? && c == ArtistIs(f.artist.value))
              || (f.releasedFrom.Some? && c == ReleasedOnOrAfter(f.releasedFrom.value))
              || (f.releasedTo.Some? && c == ReleasedOnOrBefore(f.releasedTo.value))
  {
    (if f.artist.Some? then [ArtistIs(f.artist.value)] else [])
    + [GenreCriterion(f)]
    + [MediaTypeCriterion(f)]
    + (if f.releasedFrom.Some? then [ReleasedOnOrAfter(f.releasedFrom.value)] else [])
    + (if f.releasedTo.Some? then [ReleasedOnOrBefore(f.releasedTo.value)] else [])
  }

  /** The albums satisfying every criterion, in catalog order, each as often as it occurs. */
  function Filter(q: seq<Criterion>, albums: seq<Album>): (r: seq<Album>)
    ensures |r| <= |albums|
    ensures forall a :: a in r <==> a in albums && HoldsAll(q, a)
    ensures forall a :: multiset(r)[a] == if HoldsAll(q, a) then multiset(albums)[a] else 0
  {
    if |albums| == 0 then []
    else
      var rest := Filter(q, albums[1..]);
      assert albums == [albums[0]] + albums[1..];
      if HoldsAll(q, albums[0]) then [albums[0]] + rest else rest
  }

  /**
   * SearchView.get: no results for an invalid form; an empty query would
   * give none either; otherwise the albums the query selects.
   */
  function SearchView(form: Option<SearchForm>, albums: seq<Album>): (r: Option<seq<Album>>)
    ensures r.None? <==> form.None?
    ensures r.Some? ==> forall a :: a in r.value <==> a in albums && Matches(form.value, a)
  {
    match form
    case None => None
    case Some(f) =>
      var q := BuildQuery(f);
      QueryMeaning(f);
      if |q| == 0 then Some([]) else Some(Filter(q, albums))
  }

  /** The assembled query selects exactly the albums the form asks for. */
  lemma QueryMeaning(f: SearchForm)
    ensures forall a :: HoldsAll(BuildQuery(f), a) <==> Matches(f, a)
  {
  }

  /** An empty genre or media-type choice matches nothing, so a blank form finds no albums. */
  lemma EmptyChoiceFindsNothing(f: SearchForm, albums: seq<Album>)
    requires f.genres == [] || f.mediaTypes == []
    ensures SearchView(Some(f), albums) == Some([])
  {
  }

  /** Choosing two genres finds the union of what each genre finds alone. */
  lemma TwoGenresUnion(f: SearchForm, g1: string, g2: string, albums: seq<Album>, a: Album)
    ensures a in SearchView(Some(f.(genres := [g1, g2])), albums).value <==>
              || a in SearchView(Some(f.(genres := [g1])), albums).value
              || a in SearchView(Some(f.(genres := [g2])), albums).value
  {
  }

  /** Every added criterion narrows: setting the artist or a date bound never adds results. */
  lemma CriteriaNarrow(f: SearchForm, artist: ArtistId, from: int, to: int, albums: seq<Album>, a: Album)
    ensures a in SearchView(Some(f.(artist := Some(artist))), albums).value ==>
              a in SearchView(Some(f.(artist := None)), albums).value
    ensures a in SearchView(Some(f.(releasedFrom := Some(from))), albums).value ==>
              a in SearchView(Some(f.(releasedFrom := None)), albums).value
    ensures a in SearchView(Some(f.(releasedTo := Some(to))), albums).value ==>
              a in SearchView(Some(f.(releasedTo := None)), albums).value
  {
  }
}
