/** The all-torrent detail page: `findMagnetLink` searches a loosely shaped
    movie object for a magnet link (the `magnet` field first, then the
    `torrents` array, then every object-valued field depth first, in key
    order), `startStream` points the player at the found link, and
    `hasValidPoster` decides whether the poster image is shown. */
module MagnetLink {

  import opened Options
  import opened JsValue

  /** `findMagnetLink(movieData)`. The result is `Normal(Null)` when nothing is
      found; `Thrown` is the TypeError of reading `.magnet` of a `null` or
      `undefined` element of a `torrents` array before any magnet is found. */
  function FindMagnetLink(v: Value): (r: Completion<Value>)
    ensures !Truthy(v) ==> r == Normal(Null)
    ensures Truthy(v) && Truthy(Get(v, "magnet")) ==> r == Normal(Get(v, "magnet"))
    ensures r.Normal? ==> r.value == Null || Truthy(r.value)
    decreases v
  {
    if !Truthy(v) then Normal(Null)
    else if Truthy(Get(v, "magnet")) then Normal(Get(v, "magnet"))
    else
      match ScanTorrents(Get(v, "torrents"))
      case Thrown => Thrown
      case Normal(m) =>
        if Truthy(m) then Normal(m)
        else
          match v
          case Obj(fs) => SearchFields(fs)
          case Arr(es) => SearchElems(es)
          case _ => Normal(Null)
  }

  /** The `for (const torrent of movieData.torrents)` loop, run only when
      `torrents` is an array. */
  function ScanTorrents(t: Value): (r: Completion<Value>)
    ensures r.Normal? ==> r.value == Null || Truthy(r.value)
  {
    if t.Arr? then ScanList(t.elems) else Normal(Null)
  }

  function ScanList(es: seq<Value>): (r: Completion<Value>)
    ensures r.Normal? ==> r.value == Null || Truthy(r.value)
  {
    if |es| == 0 then Normal(Null)
    else if IsNullish(es[0]) then Thrown
    else if Truthy(Get(es[0], "magnet")) then Normal(Get(es[0], "magnet"))
    else ScanList(es[1..])
  }

  /** The `for (const key in movieData)` loop over an object's fields:
      recurse into each object-valued field until one yields a magnet. */
  function SearchFields(fs: seq<Field>): (r: Completion<Value>)
    ensures r.Normal? ==> r.value == Null || Truthy(r.value)
    decreases fs
  {
    if |fs| == 0 then Normal(Null)
    else if !IsObjectType(fs[0].val) then SearchFields(fs[1..])
    else
      match FindMagnetLink(fs[0].val)
      case Thrown => Thrown
      case Normal(m) => if Truthy(m) then Normal(m) else SearchFields(fs[1..])
  }

  /** The same loop over an array, whose keys are its indices. */
  function SearchElems(es: seq<Value>): (r: Completion<Value>)
    ensures r.Normal? ==> r.value == Null || Truthy(r.value)
    decreases es
  {
    if |es| == 0 then Normal(Null)
    else if !IsObjectType(es[0]) then SearchElems(es[1..])
    else
      match FindMagnetLink(es[0])
      case Thrown => Thrown
      case Normal(m) => if Truthy(m) then Normal(m) else SearchElems(es[1..])
  }

  /** `m` is a magnet somewhere in `v`, at a place the search looks: the
      `magnet` field of `v`, the `magnet` field of an element of its
      `torrents` array, or (recursively) inside an object-valued field. */
  predicate MagnetIn(v: Value, m: Value)
    decreases v
  {
    && Truthy(v) && Truthy(m)
    && (|| Get(v, "magnet") == m
        || InTorrents(Get(v, "torrents"), m)
        || match v
           case Obj(fs) => exists i :: 0 <= i < |fs| && IsObjectType(fs[i].val) && MagnetIn(fs[i].val, m)
           case Arr(es) => exists i :: 0 <= i < |es| && IsObjectType(es[i]) && MagnetIn(es[i], m)
           case _ => false)
  }

  predicate InTorrents(t: Value, m: Value) {
    Truthy(m) && t.Arr? && exists i :: 0 <= i < |t.elems| && Get(t.elems[i], "magnet") == m
  }

  /** `es[i]` is the first element of the torrents array with a magnet, and
      the scan reaches it without meeting a `null` element. */
  predicate FirstTorrentAt(es: seq<Value>, i: int) {
    && 0 <= i < |es| && !IsNullish(es[i]) && Truthy(Get(es[i], "magnet"))
    && forall j :: 0 <= j < i ==> !IsNullish(es[j]) && !Truthy(Get(es[j], "magnet"))
  }

  lemma {:induction false} ScanListFindsFirst(es: seq<Value>, i: int)
    requires FirstTorrentAt(es, i)
    ensures ScanList(es) == Normal(Get(es[i], "magnet"))
    decreases |es|
  {
    if i > 0 {
      assert FirstTorrentAt(es[1..], i - 1) by {
        forall j | 0 <= j < i - 1
          ensures !IsNullish(es[1..][j]) && !Truthy(Get(es[1..][j], "magnet"))
        {
          assert es[1..][j] == es[j + 1];
        }
      }
      ScanListFindsFirst(es[1..], i - 1);
    }
  }

  /** Without a top-level magnet, the first torrent with a magnet wins over
      anything nested deeper. */
  lemma TorrentsBeforeFields(v: Value, i: int)
    requires Truthy(v) && !Truthy(Get(v, "magnet"))
    requires Get(v, "torrents").Arr? && FirstTorrentAt(Get(v, "torrents").elems, i)
    ensures FindMagnetLink(v) == Normal(Get(Get(v, "torrents").elems[i], "magnet"))
  {
    ScanListFindsFirst(Get(v, "torrents").elems, i);
  }

  lemma {:induction false} ScanListSound(es: seq<Value>)
    ensures ScanList(es).Normal? && ScanList(es).value != Null ==> InTorrents(Arr(es), ScanList(es).value)
    ensures ScanList(es) == Normal(Null) ==> forall m :: !InTorrents(Arr(es), m)
    decreases |es|
  {
    if |es| > 0 && !IsNullish(es[0]) && !Truthy(Get(es[0], "magnet")) {
      ScanListSound(es[1..]);
      var r := ScanList(es[1..]);
      if r.Normal? && r.value != Null {
        var k :| 0 <= k < |es[1..]| && Get(es[1..][k], "magnet") == r.value;
        assert Get(es[k + 1], "magnet") == r.value;
      }
      if r == Normal(Null) {
        forall m | InTorrents(Arr(es), m)
          ensures InTorrents(Arr(es[1..]), m)
        {
          var k :| 0 <= k < |es| && Get(es[k], "magnet") == m;
          assert k != 0;
          assert Get(es[1..][k - 1], "magnet") == m;
        }
      }
    }
  }

  /** Whatever the search returns is a magnet of the movie, and when it
      returns `null` the movie has none (unless the search threw first). */
  lemma {:induction false} FindMagnetSound(v: Value)
    ensures FindMagnetLink(v).Normal? && FindMagnetLink(v).value != Null ==> MagnetIn(v, FindMagnetLink(v).value)
    ensures FindMagnetLink(v) == Normal(Null) ==> forall m :: !MagnetIn(v, m)
    decreases v
  {
    if Truthy(v) && !Truthy(Get(v, "magnet")) {
      var t := Get(v, "torrents");
      if t.Arr? {
        ScanListSound(t.elems);
        assert Arr(t.elems) == t;
      }
      var s := ScanTorrents(t);
      if s == Normal(Null) {
        match v
        case Obj(fs) => FieldsSound(fs);
        case Arr(es) => ElemsSound(es);
        case _ =>
      }
    }
  }

  lemma {:induction false} FieldsSound(fs: seq<Field>)
    ensures SearchFields(fs).Normal? && SearchFields(fs).value != Null ==>
              exists i :: 0 <= i < |fs| && IsObjectType(fs[i].val) && MagnetIn(fs[i].val, SearchFields(fs).value)
    ensures SearchFields(fs) == Normal(Null) ==>
              forall m, i :: 0 <= i < |fs| && IsObjectType(fs[i].val) ==> !MagnetIn(fs[i].val, m)
    decreases fs
  {
    if |fs| > 0 {
      FindMagnetSound(fs[0].val);
      FieldsSound(fs[1..]);
    }
  }

  lemma {:induction false} ElemsSound(es: seq<Value>)
    ensures SearchElems(es).Normal? && SearchElems(es).value != Null ==>
              exists i :: 0 <= i < |es| && IsObjectType(es[i]) && MagnetIn(es[i], SearchElems(es).value)
    ensures SearchElems(es) == Normal(Null) ==>
              forall m, i :: 0 <= i < |es| && IsObjectType(es[i]) ==> !MagnetIn(es[i], m)
    decreases es
  {
    if |es| > 0 {
      FindMagnetSound(es[0]);
      ElemsSound(es[1..]);
    }
  }

  /** Field `i` is the first object-valued field whose search finds a magnet,
      and no earlier object-valued field's search throws. */
  predicate FirstFieldHitAt(fs: seq<Field>, i: int) {
    && 0 <= i < |fs| && IsObjectType(fs[i].val)
    && FindMagnetLink(fs[i].val).Normal? && FindMagnetLink(fs[i].val).value != Null
    && forall j :: 0 <= j < i ==> !IsObjectType(fs[j].val) || FindMagnetLink(fs[j].val) == Normal(Null)
  }

  lemma {:induction false} SearchFieldsFindsFirst(fs: seq<Field>, i: int)
    requires FirstFieldHitAt(fs, i)
    ensures SearchFields(fs) == FindMagnetLink(fs[i].val)
    decreases |fs|
  {
    if i > 0 {
      assert FirstFieldHitAt(fs[1..], i - 1) by {
        forall j | 0 <= j < i - 1
          ensures !IsObjectType(fs[1..][j].val) || FindMagnetLink(fs[1..][j].val) == Normal(Null)
        {
          assert fs[1..][j] == fs[j + 1];
        }
      }
      SearchFieldsFindsFirst(fs[1..], i - 1);
    }
  }

  /** When neither the `magnet` field nor the `torrents` array yields a link,
      the nested fields are searched in key order and the first hit wins. */
  lemma NestedInKeyOrder(fs: seq<Field>, i: int)
    requires !Truthy(Get(Obj(fs), "magnet"))
    requires ScanTorrents(Get(Obj(fs), "torrents")) == Normal(Null)
    requires FirstFieldHitAt(fs, i)
    ensures FindMagnetLink(Obj(fs)) == FindMagnetLink(fs[i].val)
  {
    SearchFieldsFindsFirst(fs, i);
  }

  /** The `alert` messages of `startStream`. */
  datatype Alert = SelectFile | NoMagnet

  /** What the player is pointed at: the magnet and the file name that make
      up the stream URL (the URL text itself is not modelled). */
  datatype Source = Source(magnet: Value, file: Value)

  /** The page state `startStream` writes. */
  datatype Viewer = Viewer(videoSrc: Option<Source>, loading: bool)

  /** The new page state and the alert shown, if any. */
  datatype Started = Started(viewer: Viewer, alert: Option<Alert>)

  /** `startStream()` on the page of `movie` with `selectedFile` chosen. */
  function StartStream(w: Viewer, movie: Value, selectedFile: Value): (r: Completion<Started>)
    ensures !Truthy(selectedFile) ==> r == Normal(Started(w, Some(SelectFile)))
    ensures r.Normal? && r.value.alert.Some? ==> r.value.viewer == w
    ensures r.Normal? && r.value.alert.None? ==>
              && r.value.viewer.loading && r.value.viewer.videoSrc.Some?
              && r.value.viewer.videoSrc.value.file == selectedFile && Truthy(selectedFile)
              && MagnetIn(movie, r.value.viewer.videoSrc.value.magnet)
    ensures r.Normal? && r.value.alert == Some(NoMagnet) ==> forall m :: !MagnetIn(movie, m)
    ensures Truthy(selectedFile) && (exists m :: MagnetIn(movie, m)) ==> r.Thrown? || r.value.alert.None?
  {
    FindMagnetSound(movie);
    if !Truthy(selectedFile) then Normal(Started(w, Some(SelectFile)))
    else
      match FindMagnetLink(movie)
      case Thrown => Thrown
      case Normal(m) =>
        if !Truthy(m) then Normal(Started(w, Some(NoMagnet)))
        else Normal(Started(w.(videoSrc := Some(Source(m, selectedFile)), loading := true), None))
  }

  /** The no-cover placeholder the torrent index serves for missing posters. */
  const NoCoverUrl := "https://l.t0r.site/no-cover.png"

  /** `hasValidPoster`, for a page whose movie is present. A string poster
      counts when it is non-empty and not the placeholder. */
  function HasValidPoster(movie: Value): (r: bool)
    ensures Get(movie, "poster").Str? ==>
              (r <==> Get(movie, "poster").s != "" && Get(movie, "poster").s != NoCoverUrl)
    ensures IsNullish(Get(movie, "poster")) ==> !r
  {
    var poster := Get(movie, "poster");
    Truthy(poster) && poster != Str(NoCoverUrl)
  }
}
