/** The file listing the per-site detail pages fetch for a torrent: a JSON
    array of file descriptors, split by their `type`. */
module FileListing {

  import opened JsValue

  /** `file.type === 'video'` */
  predicate IsVideo(file: Value) {
    Get(file, "type") == Str("video")
  }

  /** `file.type === 'image'` */
  predicate IsImage(file: Value) {
    Get(file, "type") == Str("image")
  }

  /** `files.filter(file => file.type === t)`: only an array has `filter`,
      and reading `type` of a `null` entry throws. */
  function FilesOfType(files: Value, p: Value -> bool): (r: Completion<seq<Value>>)
    ensures r.Normal? ==> files.Arr? && |r.value| <= |files.elems|
    ensures files.Arr? ==> (r.Thrown? <==> exists i :: 0 <= i < |files.elems| && IsNullish(files.elems[i]))
  {
    if files.Arr? then FilterItems(files.elems, p) else Thrown
  }

  function Videos(files: Value): Completion<seq<Value>> {
    FilesOfType(files, IsVideo)
  }

  function Images(files: Value): Completion<seq<Value>> {
    FilesOfType(files, IsImage)
  }

  /** The kept files are, in listing order, exactly those of the type. */
  lemma FilesOfTypeSpec(files: Value, p: Value -> bool)
    requires FilesOfType(files, p).Normal?
    ensures var kept := FilesOfType(files, p).value;
            && IsSubsequence(kept, files.elems)
            && (forall i :: 0 <= i < |files.elems| ==> (files.elems[i] in kept <==> p(files.elems[i])))
  {
    FilterIsSubsequence(files.elems, p);
  }

  /** Every kept file has the type. */
  lemma KeptHaveType(files: Value, p: Value -> bool)
    requires FilesOfType(files, p).Normal?
    ensures forall x :: x in FilesOfType(files, p).value ==> p(x)
  {
  }

  /** Splitting a listing into videos and images: both succeed or fail
      together, every video lands in the first list and every image in the
      second, no file is in both, and files of any other type are dropped. */
  lemma PartitionSpec(files: Value)
    requires Videos(files).Normal?
    ensures Images(files).Normal?
    ensures var vs := Videos(files).value;
            var ims := Images(files).value;
            && IsSubsequence(vs, files.elems) && IsSubsequence(ims, files.elems)
            && (forall x :: x in vs ==> x !in ims)
            && (forall i :: 0 <= i < |files.elems| ==>
                  (files.elems[i] in vs <==> IsVideo(files.elems[i]))
                  && (files.elems[i] in ims <==> IsImage(files.elems[i])))
  {
    FilesOfTypeSpec(files, IsVideo);
    FilesOfTypeSpec(files, IsImage);
  }

  /** The selection after a listing arrives: `videos[0].name` when there
      are videos, else the previous selection. */
  function FirstName(videos: seq<Value>, current: Value): (r: Value)
    ensures |videos| == 0 ==> r == current
    ensures |videos| > 0 ==> r == Get(videos[0], "name")
  {
    if |videos| > 0 then Get(videos[0], "name") else current
  }
}

/** The YTS detail page: a quality picker over the movie's torrents, and
    the video files of the torrent with the picked quality. */
module YtsDetail {

  import opened Options
  import opened JsValue
  import opened Cards
  import opened FileListing

  datatype YtsView = YtsView(selectedQuality: Value, fileList: seq<Value>, selectedFile: Value)

  /** `v[0]` on a value that is not `null` or `undefined`. */
  function ElementZero(v: Value): (r: Completion<Value>)
    ensures r.Thrown? <==> IsNullish(v)
    ensures v.Arr? ==> r == Normal(if |v.elems| > 0 then v.elems[0] else Undefined)
  {
    match v
    case Undefined => Thrown
    case Null => Thrown
    case Arr(es) => Normal(if |es| > 0 then es[0] else Undefined)
    case Obj(_) => Normal(Get(v, "0"))
    case Str(s) => Normal(if |s| > 0 then Str([s[0]]) else Undefined)
    case _ => Normal(Undefined)
  }

  /** `movie?.torrents[0]?.quality || ''`: the optional chain stops at a
      missing movie, but `torrents[0]` on a missing list throws. */
  function DefaultQuality(movie: Value): (r: Completion<Value>)
    ensures IsNullish(movie) ==> r == Normal(Str(""))
    ensures !IsNullish(movie) ==> (r.Thrown? <==> IsNullish(Get(movie, "torrents")))
    ensures r.Normal? ==> Truthy(r.value) || r.value == Str("")
  {
    if IsNullish(movie) then Normal(Str(""))
    else
      match ElementZero(Get(movie, "torrents"))
      case Thrown => Thrown
      case Normal(first) => Normal(Or(OptionalMember(first, "quality"), Str("")))
  }

  /** `torrent => torrent.quality === selectedQuality` */
  function QualityIs(quality: Value): Value -> Completion<bool> {
    t => match Member(t, "quality")
         case Thrown => Thrown
         case Normal(q) => Normal(q == quality)
  }

  /** `movie.torrents.find(torrent => torrent.quality === selectedQuality)` */
  function SelectedTorrent(movie: Value, quality: Value): (r: Completion<Value>)
    ensures r.Normal? ==> Get(movie, "torrents").Arr?
  {
    match Member(movie, "torrents")
    case Thrown => Thrown
    case Normal(ts) => if ts.Arr? then FindTry(ts.elems, QualityIs(quality)) else Thrown
  }

  /** The torrent found is the first whose quality equals the selection, or
      `undefined` exactly when none has it. */
  lemma SelectedTorrentIsFirstMatch(movie: Value, quality: Value)
    requires SelectedTorrent(movie, quality).Normal?
    ensures var ts := Get(movie, "torrents").elems;
            var t := SelectedTorrent(movie, quality).value;
            && (t == Undefined <==> forall i :: 0 <= i < |ts| ==> Get(ts[i], "quality") != quality)
            && (t != Undefined ==>
                  exists i :: 0 <= i < |ts| && t == ts[i] && Get(ts[i], "quality") == quality
                              && forall j :: 0 <= j < i ==> Get(ts[j], "quality") != quality)
  {
    var ts := Get(movie, "torrents").elems;
    var k := FindIndexTry(ts, QualityIs(quality)).value;
    forall j | 0 <= j < |ts| && (k < 0 || j < k)
      ensures Get(ts[j], "quality") != quality
    {
      assert QualityIs(quality)(ts[j]) == Normal(false);
    }
    if k >= 0 {
      assert QualityIs(quality)(ts[k]) == Normal(true);
      assert ts[k] != Undefined;
    }
  }

  /** With the default quality, the torrent selected is the first one. */
  lemma DefaultSelectsFirstTorrent(movie: Value)
    requires Get(movie, "torrents").Arr? && |Get(movie, "torrents").elems| > 0
    requires var t0 := Get(movie, "torrents").elems[0]; Truthy(Get(t0, "quality"))
    ensures DefaultQuality(movie).Normal?
    ensures SelectedTorrent(movie, DefaultQuality(movie).value) == Normal(Get(movie, "torrents").elems[0])
  {
    var t0 := Get(movie, "torrents").elems[0];
    assert !IsNullish(t0);
    assert QualityIs(DefaultQuality(movie).value)(t0) == Normal(true);
  }

  /** The magnet the effect requests the listing for, `None` when it
      requests nothing: only when the movie exists and a torrent with the
      selected quality is found. */
  function FilesRequest(movie: Value, quality: Value): (r: Completion<Option<Value>>)
    ensures !Truthy(movie) ==> r == Normal(None)
    ensures Truthy(movie) && SelectedTorrent(movie, quality).Normal? ==>
              var t := SelectedTorrent(movie, quality).value;
              r == Normal(if Truthy(t) then Some(Get(t, "magnet")) else None)
    ensures r.Normal? && r.value.Some? ==>
              Truthy(movie) && SelectedTorrent(movie, quality).Normal? && Truthy(SelectedTorrent(movie, quality).value)
  {
    if !Truthy(movie) then Normal(None)
    else
      match SelectedTorrent(movie, quality)
      case Thrown => Thrown
      case Normal(t) => Normal(if Truthy(t) then Some(Get(t, "magnet")) else None)
  }

  /** `fetchFiles` settling: the video files become the list and the first
      one's name the selection; a failed request changes nothing. */
  function FilesLoaded(s: YtsView, reply: Reply): (s': YtsView)
    ensures s'.selectedQuality == s.selectedQuality
    ensures reply.Json? && Videos(reply.v).Normal? ==>
              s'.fileList == Videos(reply.v).value
              && s'.selectedFile == FirstName(Videos(reply.v).value, s.selectedFile)
    ensures !(reply.Json? && Videos(reply.v).Normal?) ==> s' == s
  {
    if reply.Failed? then s
    else
      match Videos(reply.v)
      case Thrown => s
      case Normal(vs) => s.(fileList := vs, selectedFile := FirstName(vs, s.selectedFile))
  }

  /** The first render: the default quality, no files, no file selected. */
  function Initial(movie: Value): (r: Completion<YtsView>)
    ensures r.Thrown? <==> DefaultQuality(movie).Thrown?
    ensures r.Normal? ==> r.value.selectedQuality == DefaultQuality(movie).value
    ensures r.Normal? ==> r.value.fileList == [] && r.value.selectedFile == Null
  {
    match DefaultQuality(movie)
    case Thrown => Thrown
    case Normal(q) => Normal(YtsView(q, [], Null))
  }

  /** `selectedFile && selectedTorrent`: the player is shown. */
  predicate ShowsPlayer(s: YtsView, selectedTorrent: Value) {
    Truthy(s.selectedFile) && Truthy(selectedTorrent)
  }

  /** After a listing with videos the player shows the first video exactly
      when its name is non-empty (and a torrent is selected); with no
      videos from the first render nothing is shown. */
  lemma PlayerAfterListing(movie: Value, files: Value, torrent: Value)
    requires Initial(movie).Normal? && Videos(files).Normal?
    ensures var s := FilesLoaded(Initial(movie).value, Json(files));
            var vs := Videos(files).value;
            && (|vs| == 0 ==> !ShowsPlayer(s, torrent))
            && (|vs| > 0 ==> (ShowsPlayer(s, torrent) <==> Truthy(Get(vs[0], "name")) && Truthy(torrent)))
  {
  }
}

/** The Pirate Bay detail page: the torrent's files split into a video
    selector and an image gallery. */
module PiratebayDetail {

  import opened JsValue
  import opened Cards
  import opened FileListing

  datatype PirateView = PirateView(videoFiles: seq<Value>, imageFiles: seq<Value>, selectedVideo: Value)

  const Initial := PirateView([], [], Null)

  /** The listing settling: videos and images are split out and the first
      video selected; a failed request or a malformed listing changes
      nothing. */
  function FilesLoaded(s: PirateView, reply: Reply): (s': PirateView)
    ensures reply.Json? && Videos(reply.v).Normal? ==>
              && Images(reply.v).Normal?
              && s'.videoFiles == Videos(reply.v).value
              && s'.imageFiles == Images(reply.v).value
              && s'.selectedVideo == (if |s'.videoFiles| > 0 then s'.videoFiles[0] else s.selectedVideo)
    ensures !(reply.Json? && Videos(reply.v).Normal?) ==> s' == s
  {
    if reply.Failed? then s
    else
      match Videos(reply.v)
      case Thrown => s
      case Normal(vs) =>
        PartitionSpec(reply.v);
        var ims := Images(reply.v).value;
        PirateView(vs, ims, if |vs| > 0 then vs[0] else s.selectedVideo)
  }

  /** `v => v.name === value` */
  function NameIs(value: Value): Value -> Completion<bool> {
    v => match Member(v, "name")
         case Thrown => Thrown
         case Normal(n) => Normal(n == value)
  }

  /** The selector's `onChange`: `videoFiles.find(v => v.name === value)`,
      which is `undefined` when no video has that name. */
  function SelectByName(s: PirateView, value: Value): (r: Completion<PirateView>)
    ensures r.Normal? ==> r.value.videoFiles == s.videoFiles && r.value.imageFiles == s.imageFiles
    ensures (forall i :: 0 <= i < |s.videoFiles| ==> !IsNullish(s.videoFiles[i])) ==> r.Normal?
  {
    match FindTry(s.videoFiles, NameIs(value))
    case Thrown => Thrown
    case Normal(v) => Normal(s.(selectedVideo := v))
  }

  /** `selectedVideo ? selectedVideo.name : ''` */
  function SelectorValue(s: PirateView): (r: Value)
    ensures !Truthy(s.selectedVideo) ==> r == Str("")
    ensures Truthy(s.selectedVideo) ==> r == Get(s.selectedVideo, "name")
  {
    if Truthy(s.selectedVideo) then Get(s.selectedVideo, "name") else Str("")
  }

  /** Picking a listed name selects the first video with that name, so the
      selector then shows that name; picking a name no video has clears the
      selection and the selector shows `''`. */
  lemma SelectRoundTrip(s: PirateView, value: Value)
    requires forall i :: 0 <= i < |s.videoFiles| ==> IsVideo(s.videoFiles[i])
    ensures SelectByName(s, value).Normal?
    ensures var s' := SelectByName(s, value).value;
            && ((exists i :: 0 <= i < |s.videoFiles| && Get(s.videoFiles[i], "name") == value) ==>
                  && SelectorValue(s') == value
                  && exists i :: 0 <= i < |s.videoFiles| && s'.selectedVideo == s.videoFiles[i]
                                 && forall j :: 0 <= j < i ==> Get(s.videoFiles[j], "name") != value)
            && ((forall i :: 0 <= i < |s.videoFiles| ==> Get(s.videoFiles[i], "name") != value) ==>
                  s'.selectedVideo == Undefined && SelectorValue(s') == Str(""))
  {
    var vs := s.videoFiles;
    forall i | 0 <= i < |vs| ensures !IsNullish(vs[i]) && vs[i].Obj? {
      assert IsVideo(vs[i]);
    }
    var k := FindIndexTry(vs, NameIs(value)).value;
    forall j | 0 <= j < |vs| && (k < 0 || j < k)
      ensures Get(vs[j], "name") != value
    {
      NameIsMeans(value, vs[j]);
    }
    if k >= 0 {
      NameIsMeans(value, vs[k]);
    }
    NameScan(s, value, k, SelectByName(s, value).value);
  }

  /** On an object, the name test reads its `name`. */
  lemma NameIsMeans(value: Value, v: Value)
    requires v.Obj?
    ensures NameIs(value)(v) == Normal(Get(v, "name") == value)
  {
  }

  /** The first index `k` with the name (or -1), and the view that selects
      the video there, give the selector's round trip. */
  lemma NameScan(s: PirateView, value: Value, k: int, s': PirateView)
    requires forall i :: 0 <= i < |s.videoFiles| ==> s.videoFiles[i].Obj?
    requires -1 <= k < |s.videoFiles|
    requires k >= 0 ==> Get(s.videoFiles[k], "name") == value
    requires forall j :: 0 <= j < |s.videoFiles| && (k < 0 || j < k) ==> Get(s.videoFiles[j], "name") != value
    requires s'.selectedVideo == (if k < 0 then Undefined else s.videoFiles[k])
    ensures (exists i :: 0 <= i < |s.videoFiles| && Get(s.videoFiles[i], "name") == value) ==>
              && SelectorValue(s') == value
              && exists i :: 0 <= i < |s.videoFiles| && s'.selectedVideo == s.videoFiles[i]
                             && forall j :: 0 <= j < i ==> Get(s.videoFiles[j], "name") != value
    ensures (forall i :: 0 <= i < |s.videoFiles| ==> Get(s.videoFiles[i], "name") != value) ==>
              s'.selectedVideo == Undefined && SelectorValue(s') == Str("")
  {
  }

  /** A new listing selects its first video, which the selector shows by
      name; a listing without videos keeps the selector empty on the first
      render. */
  lemma ListingSelectsFirstVideo(files: Value)
    requires Videos(files).Normal?
    ensures var s := FilesLoaded(Initial, Json(files));
            var vs := Videos(files).value;
            && (|vs| > 0 ==> SelectorValue(s) == Get(vs[0], "name"))
            && (|vs| == 0 ==> SelectorValue(s) == Str(""))
  {
    var vs := Videos(files).value;
    if |vs| > 0 {
      KeptHaveType(files, IsVideo);
      assert vs[0] in vs;
      VideoIsObject(vs[0]);
    }
  }

  /** A video descriptor has a `type`, so it is an object and truthy. */
  lemma VideoIsObject(v: Value)
    requires IsVideo(v)
    ensures v.Obj? && Truthy(v)
  {
  }
}

/** The Torlock detail page: the torrent's video files, selected by name. */
module TorlockDetail {

  import opened JsValue
  import opened Cards
  import opened FileListing

  datatype TorlockView = TorlockView(videoFiles: seq<Value>, selectedVideo: Value)

  const Initial := TorlockView([], Str(""))

  /** The listing settling: the videos and the first video's name. */
  function FilesLoaded(s: TorlockView, reply: Reply): (s': TorlockView)
    ensures reply.Json? && Videos(reply.v).Normal? ==>
              s'.videoFiles == Videos(reply.v).value
              && s'.selectedVideo == FirstName(Videos(reply.v).value, s.selectedVideo)
    ensures !(reply.Json? && Videos(reply.v).Normal?) ==> s' == s
  {
    if reply.Failed? then s
    else
      match Videos(reply.v)
      case Thrown => s
      case Normal(vs) => TorlockView(vs, FirstName(vs, s.selectedVideo))
  }

  /** `{selectedVideo && (<video ...>)}` */
  predicate ShowsPlayer(s: TorlockView) {
    Truthy(s.selectedVideo)
  }

  /** From the first render the player appears exactly when the listing
      brought a video whose name is non-empty; the selection is otherwise
      still `''`. */
  lemma PlayerIffNamedVideo(reply: Reply)
    ensures var s := FilesLoaded(Initial, reply);
            ShowsPlayer(s) <==>
              reply.Json? && Videos(reply.v).Normal? && |Videos(reply.v).value| > 0
              && Truthy(Get(Videos(reply.v).value[0], "name"))
    ensures var s := FilesLoaded(Initial, reply);
            !(reply.Json? && Videos(reply.v).Normal? && |Videos(reply.v).value| > 0) ==> s.selectedVideo == Str("")
  {
  }
}
