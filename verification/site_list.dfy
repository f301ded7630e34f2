/** The four per-site search lists (glodls, piratebay, torlock, yts): each
    `fetchMovies` call is guarded, asks the search API for one page, stops
    on the site's "blocked" or "not found" error, filters the batch, appends
    the items whose `id || name` is new and moves to the next page;
    `handleSearch` starts a new search. The variants differ only in the
    guard, the error test, the seeders filter and what an exception does;
    one step function takes the site as a parameter. */
module SiteList {

  import opened Options
  import opened JsValue

  datatype Site = Glodls | Piratebay | Torlock | Yts

  /** The component state plus the shared `movies` list of the context and
      the `searchQuery` entry of session storage. */
  datatype ListState = ListState(
    movies: seq<Value>,
    page: int,
    hasMore: bool,
    loading: bool,
    apiError: bool,
    query: string,
    searchTerm: string,
    session: Option<string>)

  /** What `axios.get` settles to: a rejection (network error or non-2xx
      status) or the parsed `response.data`. */
  datatype Reply = Rejected | Data(body: Value)

  /** What the body of one response asks the list to do. */
  datatype Outcome = Stop | NoResults | Batch(items: seq<Value>)

  const GlodlsBlocked := "Website Blocked Change IP or Website Domain"
  const TorlockBlocked := "Website Blocked"
  const YtsNotFound := "Result not found."

  /** Only the glodls and the two seeders-filtering sites stop at page 10;
      only glodls also stops after an API error. */
  predicate Guarded(site: Site, s: ListState) {
    || !s.hasMore || s.loading
    || (site != Yts && s.page >= 10)
    || (site == Glodls && s.apiError)
  }

  predicate IsDigits(s: string) {
    forall i :: 0 <= i < |s| ==> '0' <= s[i] <= '9'
  }

  /** The number a string of decimal digits denotes, most significant first. */
  function DigitsValue(s: string): nat
    requires IsDigits(s)
  {
    if |s| == 0 then 0 else DigitsValue(s[..|s| - 1]) * 10 + (s[|s| - 1] as int - '0' as int)
  }

  /** `String(currentYear)`: the digits denoting the year, with no leading
      zero. */
  function Decimal(n: nat): (r: string)
    ensures |r| > 0 && IsDigits(r)
    ensures DigitsValue(r) == n
    ensures n > 0 ==> r[0] != '0'
  {
    var d := ['0' + (n % 10) as char];
    if n < 10 then d else Decimal(n / 10) + d
  }

  /** The state a list starts in. glodls and yts restore the last search from
      session storage (`storedQuery || ''`, `storedQuery || String(year)`);
      piratebay and torlock start blank. */
  function Initial(site: Site, movies: seq<Value>, stored: Option<string>, year: nat): (s: ListState)
    ensures s.page == 1 && s.hasMore && !s.loading && !s.apiError && s.movies == movies
    ensures (site == Glodls || site == Yts) && stored.Some? && stored.value != "" ==>
              s.query == stored.value && s.searchTerm == stored.value
    ensures (site == Glodls || site == Yts) && (stored.None? || stored.value == "") ==>
              s.query == "" && s.searchTerm == Decimal(year)
    ensures (site == Piratebay || site == Torlock) ==> s.query == "" && s.searchTerm == ""
  {
    var restored := if stored.Some? && stored.value != "" then stored.value else "";
    if site == Glodls || site == Yts then
      ListState(movies, 1, true, false, false, restored, if restored != "" then restored else Decimal(year), stored)
    else
      ListState(movies, 1, true, false, false, "", "", stored)
  }

  /** `Object.keys(movie)` is exactly `['url']`. */
  predicate UrlOnly(v: Value) {
    v.Obj? && |v.fields| == 1 && v.fields[0].key == "url"
  }

  /** `movie.seeders !== "0" && movie.seeders !== 0` */
  predicate HasSeeders(v: Value) {
    Get(v, "seeders") != Str("0") && Get(v, "seeders") != Num(0)
  }

  /** The batch filter of each site. */
  predicate Keep(site: Site, v: Value) {
    !UrlOnly(v) && (site == Glodls || site == Yts || HasSeeders(v))
  }

  /** The site's test on `response.data.error` that ends the list. */
  function Stops(site: Site, err: Value): (r: Completion<bool>)
    ensures site == Yts ==> r == Normal(err == Str(YtsNotFound))
    ensures err.Str? ==>
              r == Normal(match site
                          case Glodls => Contains(err.s, GlodlsBlocked)
                          case Piratebay => Contains(err.s, GlodlsBlocked)
                          case Torlock => Contains(err.s, TorlockBlocked)
                          case Yts => err.s == YtsNotFound)
    ensures r.Thrown? <==>
              && !err.Str? && !err.Arr?
              && match site
                 case Glodls => Truthy(err)
                 case Piratebay => !IsNullish(err)
                 case Torlock => !IsNullish(err)
                 case Yts => false
  {
    match site
    case Glodls => if Truthy(err) then IncludesCall(err, GlodlsBlocked) else Normal(false)
    case Piratebay => if IsNullish(err) then Normal(false) else IncludesCall(err, GlodlsBlocked)
    case Torlock => if IsNullish(err) then Normal(false) else IncludesCall(err, TorlockBlocked)
    case Yts => Normal(err == Str(YtsNotFound))
  }

  /** `response.data.data.length > 0`, throwing when `data` is missing; an
      array or string counts its elements, anything else has no length. */
  function NonEmpty(data: Value): (r: Completion<bool>)
    ensures r.Thrown? <==> IsNullish(data)
  {
    match data
    case Undefined => Thrown
    case Null => Thrown
    case Arr(es) => Normal(|es| > 0)
    case Str(s) => Normal(|s| > 0)
    case _ => Normal(false)
  }

  /** Everything the `try` block reads from `response.data` and decides. */
  function Classify(site: Site, body: Value): (r: Completion<Outcome>)
    ensures r.Normal? && r.value.Batch? ==>
              exists es :: Get(body, "data") == Arr(es) && r.value.items == Filter(es, v => Keep(site, v))
    ensures Get(body, "data").Arr? && !IsNullish(body) && Stops(site, Get(body, "error")) == Normal(false)
            && (forall i :: 0 <= i < |Get(body, "data").elems| ==> !IsNullish(Get(body, "data").elems[i])) ==>
              r.Normal? && (r.value.Batch? || (r.value.NoResults? && |Get(body, "data").elems| == 0))
  {
    match Member(body, "error")
    case Thrown => Thrown
    case Normal(err) =>
      match Stops(site, err)
      case Thrown => Thrown
      case Normal(true) => Normal(Stop)
      case Normal(false) =>
        var data := Get(body, "data");
        match NonEmpty(data)
        case Thrown => Thrown
        case Normal(false) => Normal(NoResults)
        case Normal(true) =>
          if data.Arr? then
            match FilterItems(data.elems, v => Keep(site, v))
            case Thrown => Thrown
            case Normal(items) => Normal(Batch(items))
          else Thrown
  }

  /** `m.id || m.name`, the identity the merge compares. */
  function MovieKey(m: Value): Value {
    Or(Get(m, "id"), Get(m, "name"))
  }

  function KeysOf(ms: seq<Value>): (r: seq<Value>)
    ensures |r| == |ms| && forall i :: 0 <= i < |ms| ==> r[i] == MovieKey(ms[i])
  {
    if |ms| == 0 then [] else [MovieKey(ms[0])] + KeysOf(ms[1..])
  }

  /** The `setMovies` updater: the previous list, then the batch items whose
      key is not among the previous list's keys. */
  function Merge(prev: seq<Value>, batch: seq<Value>): seq<Value> {
    var seen := KeysOf(prev);
    prev + Filter(batch, x => MovieKey(x) !in seen)
  }

  /** The merge keeps the previous list as a prefix and appends, in batch
      order, exactly the batch items with an unseen key. */
  lemma MergeAppendsUnseen(prev: seq<Value>, batch: seq<Value>)
    ensures var r := Merge(prev, batch);
            && r[..|prev|] == prev
            && IsSubsequence(r[|prev|..], batch)
            && (forall x :: x in r[|prev|..] ==> x in batch && MovieKey(x) !in KeysOf(prev))
            && (forall x :: x in batch && MovieKey(x) !in KeysOf(prev) ==> x in r[|prev|..])
  {
    var seen := KeysOf(prev);
    var p := x => MovieKey(x) !in seen;
    var r := Merge(prev, batch);
    assert r[|prev|..] == Filter(batch, p);
    FilterIsSubsequence(batch, p);
    forall x | x in batch && MovieKey(x) !in seen
      ensures x in r[|prev|..]
    {
      var i :| 0 <= i < |batch| && batch[i] == x;
      assert p(batch[i]);
    }
  }

  /** Items of one batch are not compared with each other: a batch whose
      keys are all new is appended whole, duplicates included. */
  lemma MergeKeepsBatchDuplicates(prev: seq<Value>, batch: seq<Value>)
    requires forall i :: 0 <= i < |batch| ==> MovieKey(batch[i]) !in KeysOf(prev)
    ensures Merge(prev, batch) == prev + batch
  {
    FilterKeepsAll(batch, x => MovieKey(x) !in KeysOf(prev));
  }

  /** Merging the same batch again adds nothing. */
  lemma MergeIdempotent(prev: seq<Value>, batch: seq<Value>)
    ensures Merge(Merge(prev, batch), batch) == Merge(prev, batch)
  {
    var once := Merge(prev, batch);
    var seen := KeysOf(once);
    MergeAppendsUnseen(prev, batch);
    forall i | 0 <= i < |batch|
      ensures MovieKey(batch[i]) in seen
    {
      var x := batch[i];
      if MovieKey(x) in KeysOf(prev) {
        var j :| 0 <= j < |prev| && KeysOf(prev)[j] == MovieKey(x);
        assert once[j] == prev[j];
        assert seen[j] == MovieKey(x);
      } else {
        assert x in once[|prev|..];
        var j :| |prev| <= j < |once| && once[j] == x;
        assert seen[j] == MovieKey(x);
      }
    }
    FilterDropsAll(batch, x => MovieKey(x) !in seen);
  }

  /** What the list does with one outcome of the `try` block. */
  function Apply(site: Site, s: ListState, o: Completion<Outcome>): ListState {
    match o
    case Thrown => if site == Glodls then s.(apiError := true) else s
    case Normal(Stop) => s.(hasMore := false, apiError := s.apiError || site == Glodls)
    case Normal(NoResults) => s.(hasMore := false)
    case Normal(Batch(items)) =>
      if |items| > 0 then s.(movies := Merge(s.movies, items), page := s.page + 1)
      else s.(hasMore := false)
  }

  /** `fetchMovies()` of `site` on state `s`, the request answered by `reply`. */
  function Fetch(site: Site, s: ListState, reply: Reply): (s': ListState)
    ensures Guarded(site, s) ==> s' == s
    ensures !Guarded(site, s) ==> !s'.loading
    ensures |s.movies| <= |s'.movies| && s'.movies[..|s.movies|] == s.movies
    ensures s'.query == s.query && s'.searchTerm == s.searchTerm && s'.session == s.session
    ensures s'.page == s.page || s'.page == s.page + 1
    ensures s'.page == s.page + 1 <==> !Guarded(site, s) && reply.Data? && ProducesBatch(site, reply.body)
    ensures s'.hasMore != s.hasMore ==> s'.page == s.page && s'.movies == s.movies
  {
    if Guarded(site, s) then s
    else
      var o := if reply.Rejected? then Thrown else Classify(site, reply.body);
      ApplySpec(site, s, o);
      Apply(site, s, o).(loading := false)
  }

  /** An outcome only ever appends to the list, moves to the next page
      exactly for a non-empty batch, and closes the list only without
      touching it. */
  lemma ApplySpec(site: Site, s: ListState, o: Completion<Outcome>)
    ensures var a := Apply(site, s, o);
            && |s.movies| <= |a.movies| && a.movies[..|s.movies|] == s.movies
            && a.query == s.query && a.searchTerm == s.searchTerm && a.session == s.session
            && (a.page == s.page || a.page == s.page + 1)
            && (a.page == s.page + 1 <==> o.Normal? && o.value.Batch? && |o.value.items| > 0)
            && (a.hasMore != s.hasMore ==> a.page == s.page && a.movies == s.movies)
  {
  }

  /** The body carries a batch with at least one item that passes the filter. */
  predicate ProducesBatch(site: Site, body: Value) {
    var o := Classify(site, body);
    o.Normal? && o.value.Batch? && |o.value.items| > 0
  }

  /** A page advances exactly when a non-empty filtered batch is merged, and
      otherwise (for a response that is neither blocked nor an error) the
      list is marked exhausted. */
  lemma PageAdvancesIffBatch(site: Site, s: ListState, body: Value)
    requires !Guarded(site, s)
    requires Classify(site, body).Normal?
    ensures var s' := Fetch(site, s, Data(body));
            && (s'.page == s.page + 1 <==> s'.hasMore)
            && (s'.hasMore ==> s'.movies == Merge(s.movies, Classify(site, body).value.items))
            && (!s'.hasMore ==> s'.movies == s.movies)
  {
    var o := Classify(site, body);
    assert Fetch(site, s, Data(body)) == Apply(site, s, o).(loading := false);
    ApplyReadable(site, s, o.value);
  }

  /** On an open list, a readable outcome either merges a batch and moves
      to the next page or closes the list untouched. */
  lemma ApplyReadable(site: Site, s: ListState, out: Outcome)
    requires s.hasMore
    ensures var s' := Apply(site, s, Normal(out));
            && (s'.page == s.page + 1 <==> s'.hasMore)
            && (s'.hasMore ==> out.Batch? && s'.movies == Merge(s.movies, out.items))
            && (!s'.hasMore ==> s'.movies == s.movies)
  {
  }

  /** A failed request or a response the `try` block cannot read leaves the
      list, the page and `hasMore` as they were; glodls also records the
      API error, which stops its later fetches. */
  lemma ErrorsKeepList(site: Site, s: ListState, reply: Reply)
    requires !Guarded(site, s)
    requires reply.Rejected? || Classify(site, reply.body).Thrown?
    ensures var s' := Fetch(site, s, reply);
            && s'.movies == s.movies && s'.page == s.page && s'.hasMore == s.hasMore
            && s'.apiError == (s.apiError || site == Glodls)
            && (site == Glodls ==> Guarded(site, s'))
  {
  }

  /** An error string naming the block stops the list without touching it:
      the full glodls message for glodls and piratebay, any message
      containing "Website Blocked" for torlock. */
  lemma BlockedStops(site: Site, s: ListState, body: Value, msg: string)
    requires site != Yts && !Guarded(site, s)
    requires Get(body, "error") == Str(msg) && body.Obj?
    requires Contains(msg, if site == Torlock then TorlockBlocked else GlodlsBlocked)
    ensures var s' := Fetch(site, s, Data(body));
            && !s'.hasMore && s'.movies == s.movies && s'.page == s.page && !s'.loading
            && s'.apiError == (s.apiError || site == Glodls)
            && Guarded(site, s')
  {
  }

  /** yts stops only on the exact "Result not found." error. */
  lemma YtsNotFoundStops(s: ListState, body: Value)
    requires !Guarded(Yts, s) && body.Obj?
    ensures Get(body, "error") == Str(YtsNotFound) ==>
              var s' := Fetch(Yts, s, Data(body));
              !s'.hasMore && s'.movies == s.movies && s'.page == s.page
    ensures Get(body, "error") != Str(YtsNotFound) ==> Classify(Yts, body) != Normal(Stop)
  {
  }

  /** piratebay and torlock drop items without seeders; glodls and yts do not
      look at seeders at all. */
  lemma SeedersFilter(site: Site, body: Value)
    requires Classify(site, body).Normal? && Classify(site, body).value.Batch?
    ensures forall x :: x in Classify(site, body).value.items ==> !UrlOnly(x)
    ensures site == Piratebay || site == Torlock ==>
              forall x :: x in Classify(site, body).value.items ==> HasSeeders(x)
    ensures site == Glodls || site == Yts ==>
              forall x :: x in Get(body, "data").elems && !UrlOnly(x) ==> x in Classify(site, body).value.items
  {
  }

  /** `handleSearch()`: an empty query searches for the current year; the
      term is also stored in the session, and the list starts over. */
  function HandleSearch(site: Site, s: ListState, year: nat): (s': ListState)
    ensures s'.searchTerm != "" && s'.session == Some(s'.searchTerm)
    ensures s.query != "" ==> s'.searchTerm == s.query
    ensures s.query == "" ==> s'.searchTerm == Decimal(year)
    ensures s'.movies == [] && s'.page == 1 && s'.hasMore && s'.loading == s.loading && s'.query == s.query
    ensures s'.apiError == (s.apiError && site != Glodls)
  {
    var term := if s.query != "" then s.query else Decimal(year);
    var s1 := s.(session := Some(term), searchTerm := term, movies := [], page := 1, hasMore := true);
    if site == Glodls then s1.(apiError := false) else s1
  }

  /** A new search re-opens the list: unless a fetch is still in flight,
      the next `fetchMovies` call goes out. */
  lemma SearchReopens(site: Site, s: ListState, year: nat)
    requires !s.loading
    ensures !Guarded(site, HandleSearch(site, s, year))
  {
  }
}
