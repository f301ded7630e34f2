/** The "Latest Movies" grid: pages of this year's search results, merged
    into one list with one entry per `url`, the next page requested when
    the last card scrolls into view. */
module InfiniteScroll {

  import opened Options
  import opened JsValue
  import opened JsMap
  import opened Cards

  datatype ScrollState = ScrollState(
    movies: seq<Value>,
    loading: bool,
    page: int,
    hasMore: bool,
    firstPageLoaded: bool)

  const Initial := ScrollState([], false, 1, true, false)

  /** `setMovies(prev => [...new Map([...prev, ...batch].map(m => [m.url, m])).values()])` */
  function MergeByUrl(prev: seq<Value>, batch: seq<Value>): seq<Value> {
    DedupByKey(prev + batch, "url")
  }

  /** The merged grid has one entry per url, urls in order of first
      appearance over the old list followed by the batch, each entry being
      the last one seen with its url. */
  lemma MergeByUrlSpec(prev: seq<Value>, batch: seq<Value>)
    ensures IsKeyedDedup(prev + batch, "url", MergeByUrl(prev, batch))
  {
    DedupByKeySpec(prev + batch, "url");
  }

  /** The state `fetchMovies(currentPage)` leaves once its promise chain has
      settled with `reply`. */
  function FetchMovies(s: ScrollState, reply: Reply): (s': ScrollState)
    ensures s.loading ==> s' == s
    ensures !s.loading ==> !s'.loading && s'.page == s.page
    ensures !s.loading && Batch(reply).Normal? && Batch(reply).value.Some? ==>
              && s'.movies == MergeByUrl(s.movies, Batch(reply).value.value)
              && s'.firstPageLoaded && s'.hasMore == (|Batch(reply).value.value| > 0)
              && (forall x :: x in Batch(reply).value.value ==> HasCard(x))
    ensures !s.loading && !(Batch(reply).Normal? && Batch(reply).value.Some?) ==>
              s' == s.(loading := false, hasMore := false)
  {
    if s.loading then s
    else
      match Batch(reply)
      case Thrown => s.(loading := false, hasMore := false)
      case Normal(None) => s.(loading := false, hasMore := false)
      case Normal(Some(batch)) =>
        CardsSpec(Get(reply.v, "data"));
        s.(movies := MergeByUrl(s.movies, batch), firstPageLoaded := true, loading := false,
           hasMore := |batch| > 0)
  }

  /** The filtered batch of a reply; `None` when `!data.data || data.error`
      ends the list, `Thrown` when the chain rejects. */
  function Batch(reply: Reply): (r: Completion<Option<seq<Value>>>)
    ensures r.Normal? && r.value.Some? ==> reply.Json? && CardsOf(Get(reply.v, "data")) == Normal(r.value.value)
  {
    if reply.Failed? || IsNullish(reply.v) then Thrown
    else if !Truthy(Get(reply.v, "data")) || Truthy(Get(reply.v, "error")) then Normal(None)
    else
      match CardsOf(Get(reply.v, "data"))
      case Thrown => Thrown
      case Normal(cs) => Normal(Some(cs))
  }

  /** After a fetch the grid wants more exactly when the page brought at
      least one card; an error or an empty page ends the scrolling for good. */
  lemma HasMoreIffCards(s: ScrollState, reply: Reply)
    requires !s.loading
    ensures var s' := FetchMovies(s, reply);
            s'.hasMore <==> Batch(reply).Normal? && Batch(reply).value.Some? && |Batch(reply).value.value| > 0
    ensures var s' := FetchMovies(s, reply);
            !s'.hasMore ==> !LoadsMore(s', true)
  {
  }

  /** `loadMoreMovies`: the observed card is on screen and another page may
      be requested. */
  predicate LoadsMore(s: ScrollState, intersecting: bool) {
    intersecting && s.hasMore && !s.loading && s.firstPageLoaded
  }

  /** The observer callback: advance the page and fetch it, or do nothing. */
  function LoadMore(s: ScrollState, intersecting: bool, reply: Reply): (s': ScrollState)
    ensures !LoadsMore(s, intersecting) ==> s' == s
    ensures LoadsMore(s, intersecting) ==> s'.page == s.page + 1 && !s'.loading
  {
    if LoadsMore(s, intersecting) then FetchMovies(s.(page := s.page + 1), reply) else s
  }

  /** Before the first page has loaded, scrolling requests nothing. */
  lemma NoLoadBeforeFirstPage(intersecting: bool, reply: Reply)
    ensures LoadMore(Initial, intersecting, reply) == Initial
  {
  }
}

/** The all-sites search grid: each page's results, minus libgen links, with
    missing or placeholder posters replaced; the first page replaces the
    grid and later pages append to it. */
module AllTorrentList {

  import opened JsValue
  import opened Cards

  datatype TorrentListState = TorrentListState(
    movies: seq<Value>,
    query: string,
    searchQuery: string,
    loading: bool,
    page: int)

  const Initial := TorrentListState([], "", "movies", false, 1)

  const Libgen := "https://libgen.is"
  const FallbackPoster := "/fallback-poster.jpg"

  /** `!movie.url.includes("https://libgen.is")`, which throws for a
      `null` element or a missing or non-string, non-array `url`. */
  function NotLibgen(movie: Value): (r: Completion<bool>)
    ensures Get(movie, "url").Str? ==> r == Normal(!Contains(Get(movie, "url").s, Libgen))
    ensures IsNullish(movie) || IsNullish(Get(movie, "url")) ==> r.Thrown?
  {
    match Member(movie, "url")
    case Thrown => Thrown
    case Normal(url) =>
      match IncludesCall(url, Libgen)
      case Thrown => Thrown
      case Normal(b) => Normal(!b)
  }

  /** `movie.poster && movie.poster.includes("no-cover") ? fallback : movie.poster || fallback` */
  function PosterOf(poster: Value): (r: Completion<Value>)
    ensures !Truthy(poster) ==> r == Normal(Str(FallbackPoster))
    ensures poster.Str? && poster.s != "" ==>
              r == Normal(if Contains(poster.s, "no-cover") then Str(FallbackPoster) else poster)
    ensures r.Normal? ==> Truthy(r.value)
  {
    if !Truthy(poster) then Normal(Str(FallbackPoster))
    else
      match IncludesCall(poster, "no-cover")
      case Thrown => Thrown
      case Normal(b) => Normal(if b then Str(FallbackPoster) else poster)
  }

  /** `({...movie, poster: ...})` for a movie that passed the url filter,
      which makes it an object. */
  function Normalise(movie: Value): (r: Completion<Value>)
    ensures r.Normal? ==> r.value.Obj? && movie.Obj?
    ensures r.Normal? ==>
              && PosterOf(Get(movie, "poster")).Normal?
              && Get(r.value, "poster") == PosterOf(Get(movie, "poster")).value
              && forall k :: k != "poster" ==> Get(r.value, k) == Get(movie, k)
  {
    if !movie.Obj? then Thrown
    else
      match PosterOf(Get(movie, "poster"))
      case Thrown => Thrown
      case Normal(p) =>
        SetFieldSpec(movie.fields, "poster", p);
        Normal(Obj(SetField(movie.fields, "poster", p)))
  }

  /** The libgen-free items of a page, in response order. */
  function Kept(reply: Reply): Completion<seq<Value>>
    requires reply.Json? && Get(reply.v, "data").Arr?
  {
    FilterTry(Get(reply.v, "data").elems, NotLibgen)
  }

  /** The list one page contributes, or `Thrown` when the `try` block raises. */
  function PageMovies(reply: Reply): (r: Completion<seq<Value>>)
    ensures r.Normal? ==> reply.Json? && Get(reply.v, "data").Arr?
  {
    if reply.Failed? || IsNullish(reply.v) || !Get(reply.v, "data").Arr? then Thrown
    else
      match Kept(reply)
      case Thrown => Thrown
      case Normal(kept) => MapItems(kept, Normalise)
  }

  /** Each page item comes from the item of the response at the same place
      among those whose url does not mention libgen, every such item is
      kept, only the poster is changed, and every poster shown is truthy. */
  lemma PageMoviesSpec(reply: Reply)
    requires PageMovies(reply).Normal?
    ensures Kept(reply).Normal?
    ensures var es := Get(reply.v, "data").elems;
            var kept := Kept(reply).value;
            && |PageMovies(reply).value| == |kept|
            && (forall j :: 0 <= j < |es| && NotLibgen(es[j]) == Normal(true) ==> es[j] in kept)
            && forall i :: 0 <= i < |kept| ==>
                 && kept[i] in es && NotLibgen(kept[i]) == Normal(true)
                 && Truthy(Get(PageMovies(reply).value[i], "poster"))
                 && (forall k :: k != "poster" ==> Get(PageMovies(reply).value[i], k) == Get(kept[i], k))
  {
    var es := Get(reply.v, "data").elems;
    var kept := Kept(reply).value;
    var ms := PageMovies(reply).value;
    assert MapItems(kept, Normalise) == Normal(ms);
    forall i | 0 <= i < |kept|
      ensures kept[i] in es && NotLibgen(kept[i]) == Normal(true)
      ensures Truthy(Get(ms[i], "poster"))
      ensures forall k :: k != "poster" ==> Get(ms[i], k) == Get(kept[i], k)
    {
      assert kept[i] in kept;
      assert Normalise(kept[i]) == Normal(ms[i]);
    }
  }

  /** `fetchMovies(page, searchQuery)` for the current page. */
  function FetchMovies(s: TorrentListState, reply: Reply): (s': TorrentListState)
    ensures s.loading ==> s' == s
    ensures !s.loading ==> !s'.loading && s'.page == s.page && s'.searchQuery == s.searchQuery
    ensures !s.loading && PageMovies(reply).Normal? ==>
              s'.movies == (if s.page == 1 then [] else s.movies) + PageMovies(reply).value
    ensures PageMovies(reply).Thrown? ==> s'.movies == s.movies
  {
    if s.loading then s
    else
      match PageMovies(reply)
      case Thrown => s.(loading := false)
      case Normal(ms) => s.(movies := if s.page == 1 then ms else s.movies + ms, loading := false)
  }

  /** Page 1 always shows just its own results, whatever was there before;
      a later page keeps everything shown so far as a prefix. */
  lemma FirstPageReplaces(s: TorrentListState, t: TorrentListState, reply: Reply)
    requires !s.loading && !t.loading && s.page == 1 && t.page == 1
    requires PageMovies(reply).Normal?
    ensures FetchMovies(s, reply).movies == FetchMovies(t, reply).movies
    ensures var s2 := s.(page := 2);
            FetchMovies(s2, reply).movies[..|s.movies|] == s.movies
  {
    var s2 := s.(page := 2);
    assert (s.movies + PageMovies(reply).value)[..|s.movies|] == s.movies;
  }

  /** `handleSearch()`: start over at page 1 with the trimmed query. */
  function HandleSearch(s: TorrentListState): (s': TorrentListState)
    ensures s'.movies == [] && s'.page == 1 && s'.query == s.query && s'.loading == s.loading
    ensures s'.searchQuery == Trim(s.query)
  {
    s.(movies := [], page := 1, searchQuery := Trim(s.query))
  }

  /** The window-scroll handler: within 100 pixels of the bottom of the
      document, move to the next page. */
  function HandleScroll(s: TorrentListState, innerHeight: int, scrollTop: int, offsetHeight: int): (s': TorrentListState)
    ensures s'.page == s.page + 1 <==> innerHeight + scrollTop >= offsetHeight - 100
    ensures s'.page != s.page + 1 ==> s' == s
    ensures s'.movies == s.movies
  {
    if innerHeight + scrollTop >= offsetHeight - 100 then s.(page := s.page + 1) else s
  }
}

/** The paginated yts search: results replace the grid, each projected onto
    the ten fields the cards use. */
module AllList {

  import opened JsValue
  import opened Cards

  datatype AllListState = AllListState(movies: seq<Value>, query: string, loading: bool, page: int)

  /** The fields kept of each movie, in this order. */
  const Projected := ["name", "poster", "rating", "url", "description", "date", "genre", "runtime", "screenshot", "torrents"]

  /** The object literal built for each movie. */
  function ProjectFields(movie: Value, ks: seq<string>): (r: seq<Field>)
    ensures |r| == |ks|
    ensures forall i :: 0 <= i < |ks| ==> r[i] == Field(ks[i], Get(movie, ks[i]))
  {
    if |ks| == 0 then [] else [Field(ks[0], Get(movie, ks[0]))] + ProjectFields(movie, ks[1..])
  }

  /** `movie => ({name: movie.name, ..., torrents: movie.torrents})`,
      throwing for a `null` element. */
  function Project(movie: Value): (r: Completion<Value>)
    ensures r.Thrown? <==> IsNullish(movie)
    ensures r.Normal? ==> r.value.Obj? && |r.value.fields| == |Projected|
  {
    if IsNullish(movie) then Thrown else Normal(Obj(ProjectFields(movie, Projected)))
  }

  /** `!data.data || !Array.isArray(data.data)` */
  predicate NoList(data: Value) {
    !Get(data, "data").Arr?
  }

  /** The state `fetchMovies(currentPage)` leaves once settled. */
  function FetchMovies(s: AllListState, reply: Reply): (s': AllListState)
    ensures Trim(s.query) == "" ==> s' == s
    ensures Trim(s.query) != "" ==> !s'.loading && s'.page == s.page && s'.query == s.query
    ensures Trim(s.query) != "" && reply.Json? && !IsNullish(reply.v) && NoList(reply.v) ==> s'.movies == []
    ensures Trim(s.query) != "" && s'.movies != s.movies ==>
              reply.Json? && (NoList(reply.v) || |s'.movies| == |Get(reply.v, "data").elems|)
  {
    if Trim(s.query) == "" then s
    else if reply.Failed? || IsNullish(reply.v) then s.(loading := false)
    else if NoList(reply.v) then s.(movies := [], loading := false)
    else
      match MapItems(Get(reply.v, "data").elems, Project)
      case Thrown => s.(loading := false)
      case Normal(ms) => s.(movies := ms, loading := false)
  }

  /** A readable page replaces the grid: item `i` has exactly the ten fields
      of the `i`-th result, with the same values. */
  lemma ResultsReplace(s: AllListState, data: Value)
    requires Trim(s.query) != "" && !IsNullish(data) && !NoList(data)
    requires forall i :: 0 <= i < |Get(data, "data").elems| ==> !IsNullish(Get(data, "data").elems[i])
    ensures var ms := FetchMovies(s, Json(data)).movies;
            var es := Get(data, "data").elems;
            && |ms| == |es|
            && forall i :: 0 <= i < |es| ==>
                 ms[i].Obj? && |ms[i].fields| == 10
                 && forall j :: 0 <= j < 10 ==> ms[i].fields[j] == Field(Projected[j], Get(es[i], Projected[j]))
  {
    var es := Get(data, "data").elems;
    ProjectsWhole(es);
    ProjectedAll(es, MapItems(es, Project).value);
  }

  /** Projecting a list without `null` elements does not throw. */
  lemma {:induction false} ProjectsWhole(es: seq<Value>)
    requires forall i :: 0 <= i < |es| ==> !IsNullish(es[i])
    ensures MapItems(es, Project).Normal?
    decreases |es|
  {
    if |es| > 0 {
      var tail := es[1..];
      assert forall i :: 0 <= i < |tail| ==> tail[i] == es[i + 1];
      ProjectsWhole(tail);
      assert Project(es[0]).Normal?;
    }
  }

  /** Items that are the projections of `es`, one for one. */
  lemma ProjectedAll(es: seq<Value>, ms: seq<Value>)
    requires |ms| == |es| && forall i :: 0 <= i < |es| ==> Project(es[i]) == Normal(ms[i])
    ensures forall i :: 0 <= i < |es| ==>
              ms[i].Obj? && |ms[i].fields| == 10
              && forall j :: 0 <= j < 10 ==> ms[i].fields[j] == Field(Projected[j], Get(es[i], Projected[j]))
  {
    forall i | 0 <= i < |es|
      ensures ms[i] == Obj(ProjectFields(es[i], Projected))
    {
      assert Project(es[i]) == Normal(ms[i]);
    }
  }

  /** `handleSearch()`: page 1, fetched. */
  function HandleSearch(s: AllListState, reply: Reply): (s': AllListState)
    ensures s'.page == 1 && s'.query == s.query
    ensures Trim(s.query) == "" ==> s' == s.(page := 1)
    ensures Trim(s.query) != "" ==> !s'.loading
  {
    FetchMovies(s.(page := 1), reply)
  }

  /** `handlePageChange(event, value)`: the chosen page, fetched. */
  function HandlePageChange(s: AllListState, value: int, reply: Reply): (s': AllListState)
    ensures s'.page == value
    ensures Trim(s.query) == "" ==> s' == s.(page := value)
  {
    FetchMovies(s.(page := value), reply)
  }
}
