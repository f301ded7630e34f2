/** The card filter shared by the home-page feeds: a movie is shown only
    when it has a `name`, a `poster` and a `rating`. */
module Cards {

  import opened JsValue

  /** `movie.name && movie.poster && movie.rating` is truthy. */
  predicate HasCard(v: Value) {
    Truthy(Get(v, "name")) && Truthy(Get(v, "poster")) && Truthy(Get(v, "rating"))
  }

  /** `list.filter(movie => movie.name && movie.poster && movie.rating)`:
      only arrays have `filter`, and a `null` element makes the test throw. */
  function CardsOf(list: Value): (r: Completion<seq<Value>>)
    ensures r.Normal? ==> list.Arr?
    ensures list.Arr? ==> (r.Thrown? <==> exists i :: 0 <= i < |list.elems| && IsNullish(list.elems[i]))
  {
    if list.Arr? then FilterItems(list.elems, HasCard) else Thrown
  }

  /** The cards kept are, in order, exactly the elements that have a card. */
  lemma CardsSpec(list: Value)
    requires CardsOf(list).Normal?
    ensures var cs := CardsOf(list).value;
            && IsSubsequence(cs, list.elems)
            && (forall x :: x in cs ==> HasCard(x))
            && (forall i :: 0 <= i < |list.elems| && HasCard(list.elems[i]) ==> list.elems[i] in cs)
  {
    FilterIsSubsequence(list.elems, HasCard);
  }

  /** `response.data || []`: a missing list reads as empty. */
  function DataOrEmpty(response: Value): (r: Value)
    ensures !Truthy(Get(response, "data")) ==> r == Arr([])
    ensures Truthy(Get(response, "data")) ==> r == Get(response, "data")
  {
    Or(Get(response, "data"), Arr([]))
  }

  /** What `fetch(...).then(res => res.json())` settles to. */
  datatype Reply = Failed | Json(v: Value)
}

/** The trending strip: the cards of the trending list, one per movie name. */
module Trending {

  import opened JsValue
  import opened JsMap
  import opened Cards

  datatype TrendingState = TrendingState(movies: seq<Value>, loading: bool)

  /** The list the `.then` body computes, or `Thrown` when it raises. */
  function TrendingMovies(response: Value): Completion<seq<Value>> {
    if IsNullish(response) then Thrown
    else
      match CardsOf(DataOrEmpty(response))
      case Thrown => Thrown
      case Normal(cs) => Normal(DedupByKey(cs, "name"))
  }

  /** The fetch effect settling with `reply`: the `.then` body, or the
      `.catch` that only clears `loading`. */
  function TrendingLoaded(s: TrendingState, reply: Reply): (s': TrendingState)
    ensures !s'.loading
    ensures reply.Failed? || TrendingMovies(reply.v).Thrown? ==> s'.movies == s.movies
    ensures reply.Json? && TrendingMovies(reply.v).Normal? ==>
              s'.movies == TrendingMovies(reply.v).value && forall x :: x in s'.movies ==> HasCard(x)
  {
    if reply.Failed? then s.(loading := false)
    else
      match TrendingMovies(reply.v)
      case Thrown => s.(loading := false)
      case Normal(ms) =>
        TrendingCardsOnly(reply.v);
        TrendingState(ms, false)
  }

  lemma TrendingCardsOnly(response: Value)
    requires TrendingMovies(response).Normal?
    ensures forall x :: x in TrendingMovies(response).value ==> HasCard(x)
  {
    var cs := CardsOf(DataOrEmpty(response)).value;
    DedupKeepsItems(cs, "name");
    forall x | x in DedupByKey(cs, "name") ensures HasCard(x) {
      assert x in cs;
    }
  }

  /** The strip shows each filtered name once: names are distinct, every
      filtered name is shown, names keep the order of their first
      occurrence, and each shown movie is the last one with its name. */
  lemma TrendingDedupSpec(response: Value)
    requires !IsNullish(response) && CardsOf(DataOrEmpty(response)).Normal?
    ensures IsKeyedDedup(CardsOf(DataOrEmpty(response)).value, "name", TrendingMovies(response).value)
  {
    DedupByKeySpec(CardsOf(DataOrEmpty(response)).value, "name");
  }

  /** A response without `data` empties the strip. */
  lemma TrendingMissingData(s: TrendingState, response: Value)
    requires !IsNullish(response) && !Truthy(Get(response, "data"))
    ensures TrendingLoaded(s, Json(response)).movies == []
  {
    assert DedupByKey([], "name") == [];
  }
}

/** The recent strip: the cards of the recent list, kept only when the
    response carries an array. */
module Recent {

  import opened JsValue
  import opened Cards

  datatype RecentState = RecentState(movies: seq<Value>, loading: bool)

  /** `data && Array.isArray(data.data)` */
  predicate HasList(data: Value) {
    Truthy(data) && Get(data, "data").Arr?
  }

  function RecentLoaded(s: RecentState, reply: Reply): (s': RecentState)
    ensures !s'.loading
    ensures s'.movies != s.movies ==> reply.Json? && HasList(reply.v)
    ensures reply.Json? && HasList(reply.v) && CardsOf(Get(reply.v, "data")).Normal? ==>
              s'.movies == CardsOf(Get(reply.v, "data")).value
  {
    if reply.Failed? || !HasList(reply.v) then s.(loading := false)
    else
      match CardsOf(Get(reply.v, "data"))
      case Thrown => s.(loading := false)
      case Normal(cs) => RecentState(cs, false)
  }

  /** What the strip shows after a readable response is an order-preserving
      selection of the list holding every element that has a card. */
  lemma RecentShowsCards(s: RecentState, data: Value)
    requires HasList(data) && CardsOf(Get(data, "data")).Normal?
    ensures var ms := RecentLoaded(s, Json(data)).movies;
            var es := Get(data, "data").elems;
            && IsSubsequence(ms, es)
            && (forall x :: x in ms ==> HasCard(x))
            && (forall i :: 0 <= i < |es| && HasCard(es[i]) ==> es[i] in ms)
  {
    CardsSpec(Get(data, "data"));
  }
}

/** The hero carousel: the trending cards, with the active movie following
    the slider. */
module Hero {

  import opened JsValue
  import opened Cards

  datatype HeroState = HeroState(movies: seq<Value>, loading: bool, active: Value)

  /** The first render: no movies, loading, no active movie. */
  const Initial := HeroState([], true, Null)

  /** The `.then` body runs to its end on this reply. */
  predicate Readable(reply: Reply) {
    reply.Json? && !IsNullish(reply.v) && CardsOf(DataOrEmpty(reply.v)).Normal?
  }

  function HeroLoaded(s: HeroState, reply: Reply): (s': HeroState)
    ensures !s'.loading
    ensures Readable(reply) ==>
              && s'.movies == CardsOf(DataOrEmpty(reply.v)).value
              && (|s'.movies| > 0 ==> s'.active == s'.movies[0])
    ensures !Readable(reply) ==> s'.movies == s.movies
    ensures !(Readable(reply) && |s'.movies| > 0) ==> s'.active == s.active
  {
    if reply.Failed? || IsNullish(reply.v) then s.(loading := false)
    else
      match CardsOf(DataOrEmpty(reply.v))
      case Thrown => s.(loading := false)
      case Normal(cs) =>
        if |cs| > 0 then HeroState(cs, false, cs[0]) else s.(movies := cs, loading := false)
  }

  /** After the first load the active movie is the first card, or stays
      `null` when no movie has a card. */
  lemma HeroStartsAtFirstCard(response: Value)
    requires !IsNullish(response) && CardsOf(DataOrEmpty(response)).Normal?
    ensures var s' := HeroLoaded(Initial, Json(response));
            && (|s'.movies| > 0 ==> s'.active == s'.movies[0] && HasCard(s'.active))
            && (|s'.movies| == 0 ==> s'.active == Null)
  {
    CardsSpec(DataOrEmpty(response));
  }

  /** `beforeChange(oldIndex, newIndex)`: `movies[newIndex]`, which reads
      as `undefined` outside the list. */
  function BeforeChange(s: HeroState, newIndex: int): (s': HeroState)
    ensures s'.movies == s.movies && s'.loading == s.loading
    ensures 0 <= newIndex < |s.movies| ==> s'.active == s.movies[newIndex]
    ensures !(0 <= newIndex < |s.movies|) ==> s'.active == Undefined
  {
    s.(active := if 0 <= newIndex < |s.movies| then s.movies[newIndex] else Undefined)
  }
}
