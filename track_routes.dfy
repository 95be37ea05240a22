/** The track router: the ordered route registrations, first-match dispatch of a
    request to a middleware chain, and `handleUpload`, which turns the upload
    gate's error into a response or passes control on. */
module TrackRoutes {
  import opened Wrappers
  import Upload

  datatype Verb = Get | Post | Patch | Delete

  /** A path pattern segment: a literal, or a `:name` parameter matching one non-empty segment. */
  datatype Segment = Literal(text: string) | Param(name: string)

  datatype Handler =
    | GetGenres | SearchTracks | GetTracksByAlbumId | GetTrackById | GetTracks
    | CreateTrack | UpdateTrack | DeleteTrack

  /** One element of a middleware chain. `Auth` is the privilege check, which is
      not part of this model; it either passes control on or answers itself. */
  datatype Step = Auth | HandleUpload | Controller(handler: Handler)

  /** One `router.route(path)` registration with the chain each of its verbs runs. */
  datatype Route = Route(pattern: seq<Segment>, chains: map<Verb, seq<Step>>)

  const CreateChain: seq<Step> := [Auth, HandleUpload, Controller(CreateTrack)]
  const UpdateChain: seq<Step> := [Auth, HandleUpload, Controller(UpdateTrack)]
  const DeleteChain: seq<Step> := [Auth, Controller(DeleteTrack)]

  /** The registrations in the order the router file makes them. */
  const Table: seq<Route> := [
    Route([Literal("genres")], map[Get := [Controller(GetGenres)]]),
    Route([Literal("search")], map[Get := [Controller(SearchTracks)]]),
    Route([Literal("album"), Param("albumId")], map[Get := [Controller(GetTracksByAlbumId)]]),
    Route([Param("id")], map[Get := [Controller(GetTrackById)]]),
    Route([], map[Get := [Controller(GetTracks)]]),
    Route([], map[Post := CreateChain]),
    Route([Param("id")], map[Patch := UpdateChain, Delete := DeleteChain])
  ]

  predicate SegmentMatches(p: Segment, s: string) {
    match p
    case Literal(t) => s == t
    case Param(_) => s != ""
  }

  /** A request path, given as its segments, against a pattern. */
  predicate PatternMatches(p: seq<Segment>, path: seq<string>) {
    |p| == |path| && forall i :: 0 <= i < |p| ==> SegmentMatches(p[i], path[i])
  }

  predicate Handles(r: Route, verb: Verb, path: seq<string>) {
    verb in r.chains && PatternMatches(r.pattern, path)
  }

  /** The position of the first registration that handles the request. */
  function FirstMatch(routes: seq<Route>, verb: Verb, path: seq<string>): (r: Option<nat>)
    ensures r.Some? ==> r.value < |routes| && Handles(routes[r.value], verb, path)
    ensures r.Some? ==> forall j :: 0 <= j < r.value ==> !Handles(routes[j], verb, path)
    ensures r.None? ==> forall j :: 0 <= j < |routes| ==> !Handles(routes[j], verb, path)
  {
    if routes == [] then None
    else if Handles(routes[0], verb, path) then Some(0)
    else
      match FirstMatch(routes[1..], verb, path)
      case None => None
      case Some(k) => Some(k + 1)
  }

  /** The first handling registration is the one `FirstMatch` finds. */
  lemma {:induction false} FirstMatchAt(routes: seq<Route>, verb: Verb, path: seq<string>, j: nat)
    requires j < |routes| && Handles(routes[j], verb, path)
    requires forall i :: 0 <= i < j ==> !Handles(routes[i], verb, path)
    ensures FirstMatch(routes, verb, path) == Some(j)
  {
    if j > 0 {
      FirstMatchAt(routes[1..], verb, path, j - 1);
    }
  }

  /** The `req.params` a matching pattern binds. */
  function Params(p: seq<Segment>, path: seq<string>): (m: map<string, string>)
    requires |p| == |path|
    ensures forall i :: 0 <= i < |p| && p[i].Param? ==> p[i].name in m
  {
    if p == [] then map[]
    else
      var rest := Params(p[1..], path[1..]);
      assert forall i :: 1 <= i < |p| ==> p[i] == p[1..][i - 1];
      if p[0].Param? then rest[p[0].name := path[0]] else rest
  }

  lemma ParamsOfOne(name: string, x: string)
    ensures Params([Param(name)], [x]) == map[name := x]
  {
    assert [Param(name)][1..] == [];
  }

  datatype Dispatch = Dispatch(chain: seq<Step>, params: map<string, string>)

  /** The chain the router runs for a request, or `None` when no registration
      handles it (the router then passes the request on). */
  function Dispatched(verb: Verb, path: seq<string>): (d: Option<Dispatch>)
    ensures d.None? <==> forall j :: 0 <= j < |Table| ==> !Handles(Table[j], verb, path)
    ensures d.Some? ==> exists j :: 0 <= j < |Table| && Handles(Table[j], verb, path)
                                   && (forall i :: 0 <= i < j ==> !Handles(Table[i], verb, path))
                                   && d.value.chain == Table[j].chains[verb]
  {
    match FirstMatch(Table, verb, path)
    case None => None
    case Some(j) => Some(Dispatch(Table[j].chains[verb], Params(Table[j].pattern, path)))
  }

  /** `/genres` and `/search` reach their own handlers, never `getTrackById`,
      because they are registered before `/:id`. */
  lemma SpecificRoutesFirst()
    ensures Dispatched(Get, ["genres"]) == Some(Dispatch([Controller(GetGenres)], map[]))
    ensures Dispatched(Get, ["search"]) == Some(Dispatch([Controller(SearchTracks)], map[]))
  {
    FirstMatchAt(Table, Get, ["genres"], 0);
    assert "search" != "genres" by { assert "search"[0] != "genres"[0]; }
    assert !SegmentMatches(Table[0].pattern[0], "search");
    assert !Handles(Table[0], Get, ["search"]);
    FirstMatchAt(Table, Get, ["search"], 1);
  }

  /** Every other single segment reaches `getTrackById`, with that segment as `id`. */
  lemma IdRoute(x: string)
    requires x != "" && x != "genres" && x != "search"
    ensures Dispatched(Get, [x]) == Some(Dispatch([Controller(GetTrackById)], map["id" := x]))
  {
    assert !SegmentMatches(Table[0].pattern[0], x) && !SegmentMatches(Table[1].pattern[0], x);
    assert !Handles(Table[0], Get, [x]) && !Handles(Table[1], Get, [x]) && !Handles(Table[2], Get, [x]);
    FirstMatchAt(Table, Get, [x], 3);
    ParamsOfOne("id", x);
  }

  /** A single segment reaches `getTrackById` exactly when it is neither `genres` nor `search`. */
  lemma ByIdExactlyForOtherSegments(x: string)
    requires x != ""
    ensures (Dispatched(Get, [x]).Some? && Dispatched(Get, [x]).value.chain == [Controller(GetTrackById)])
            <==> x != "genres" && x != "search"
  {
    if x == "genres" || x == "search" {
      SpecificRoutesFirst();
      assert [Controller(GetGenres)] != [Controller(GetTrackById)];
      assert [Controller(SearchTracks)] != [Controller(GetTrackById)];
    } else {
      IdRoute(x);
    }
  }

  /** The album listing and the top-level listing. */
  lemma ListingRoutes(albumId: string)
    requires albumId != ""
    ensures Dispatched(Get, ["album", albumId])
            == Some(Dispatch([Controller(GetTracksByAlbumId)], map["albumId" := albumId]))
    ensures Dispatched(Get, []) == Some(Dispatch([Controller(GetTracks)], map[]))
  {
    FirstMatchAt(Table, Get, ["album", albumId], 2);
    ParamsOfOne("albumId", albumId);
    assert Table[2].pattern[1..] == [Param("albumId")];
    assert ["album", albumId][1..] == [albumId];
    FirstMatchAt(Table, Get, [], 4);
  }

  /** Creating runs the privilege check, then the upload gate, then the controller. */
  lemma CreateRoute()
    ensures Dispatched(Post, []) == Some(Dispatch(CreateChain, map[]))
    ensures CreateChain[0] == Auth && HandleUpload in CreateChain
  {
    FirstMatchAt(Table, Post, [], 5);
  }

  /** Updating runs the same three steps as creating, on the id in the path. */
  lemma UpdateRoute(id: string)
    requires id != ""
    ensures Dispatched(Patch, [id]) == Some(Dispatch(UpdateChain, map["id" := id]))
    ensures UpdateChain[0] == Auth && HandleUpload in UpdateChain
  {
    FirstMatchAt(Table, Patch, [id], 6);
    ParamsOfOne("id", id);
  }

  /** Deleting runs the privilege check and the controller, and never parses an upload. */
  lemma DeleteRoute(id: string)
    requires id != ""
    ensures Dispatched(Delete, [id]) == Some(Dispatch(DeleteChain, map["id" := id]))
    ensures DeleteChain[0] == Auth && HandleUpload !in DeleteChain
  {
    FirstMatchAt(Table, Delete, [id], 6);
    ParamsOfOne("id", id);
  }

  /** No other request is handled by the track router. */
  lemma UnroutedRequests(verb: Verb, path: seq<string>)
    requires |path| > 2 || (|path| == 2 && path[0] != "album") || (verb != Get && |path| == 2)
    ensures Dispatched(verb, path).None?
  {
  }

  // ---------------------------------------------------------------------------
  // handleUpload

  const FileTooLargeMessage: string := "File too large. Maximum file size is 200MB."
  const FileTooLargeError: string := "FILE_TOO_LARGE"
  const UploadErrorCode: string := "UPLOAD_ERROR"

  /** What `handleUpload` does once the upload gate has finished: call `next()`,
      or answer with a status, a message and an error code. */
  datatype UploadVerdict = Next | Respond(status: int, message: string, error: string)

  function HandleUploadVerdict(err: Option<Upload.UploadError>): (v: UploadVerdict)
    ensures v == Next <==> err.None?
    ensures v.Respond? ==> (v.status == 413 <==> err.value.MulterError? && err.value.code == Upload.LimitFileSizeCode)
    ensures v.Respond? && v.status == 413 ==> v.message == FileTooLargeMessage && v.error == FileTooLargeError
    ensures v.Respond? && v.status != 413 ==>
              v.status == 400 && v.message == err.value.message && v.error == UploadErrorCode
  {
    match err
    case None => Next
    case Some(e) =>
      if e.MulterError? && e.code == Upload.LimitFileSizeCode then Respond(413, FileTooLargeMessage, FileTooLargeError)
      else Respond(400, e.message, UploadErrorCode)
  }

  /** How a chain ends: its controller is reached, the privilege check answers,
      or the upload gate answers. */
  datatype ChainOutcome = Reached(handler: Handler) | AuthAnswered | UploadAnswered(verdict: UploadVerdict) | FellThrough

  /** Whether a step hands the request on to the next one. */
  predicate PassesOn(s: Step, authorized: bool, uploadError: Option<Upload.UploadError>) {
    match s
    case Auth => authorized
    case HandleUpload => uploadError.None?
    case Controller(_) => false
  }

  /** Runs a chain, given whether the privilege check passes and how the upload
      gate finished: the first step that does not hand the request on decides,
      and a controller is reached only when every step before it passed. */
  function Run(chain: seq<Step>, authorized: bool, uploadError: Option<Upload.UploadError>): (r: ChainOutcome)
    ensures r.FellThrough? <==> forall j :: 0 <= j < |chain| ==> PassesOn(chain[j], authorized, uploadError)
    ensures !r.FellThrough? ==>
      exists i :: 0 <= i < |chain| && !PassesOn(chain[i], authorized, uploadError)
        && (forall j :: 0 <= j < i ==> PassesOn(chain[j], authorized, uploadError))
        && match chain[i]
           case Auth => r == AuthAnswered
           case HandleUpload => r == UploadAnswered(HandleUploadVerdict(uploadError))
           case Controller(h) => r == Reached(h)
    decreases |chain|
  {
    if chain == [] then FellThrough
    else
      match chain[0]
      case Auth => if authorized then Run(chain[1..], authorized, uploadError) else AuthAnswered
      case HandleUpload =>
        var v := HandleUploadVerdict(uploadError);
        if v.Next? then Run(chain[1..], authorized, uploadError) else UploadAnswered(v)
      case Controller(h) => Reached(h)
  }

  /** On the create and update routes an upload error is answered by the gate
      (413 for an oversized file, 400 otherwise) and the controller is never
      reached; without one the controller is reached. */
  lemma UploadErrorsStopWrites(err: Option<Upload.UploadError>)
    ensures Run(CreateChain, true, err) == if err.None? then Reached(CreateTrack) else UploadAnswered(HandleUploadVerdict(err))
    ensures Run(UpdateChain, true, err) == if err.None? then Reached(UpdateTrack) else UploadAnswered(HandleUploadVerdict(err))
    ensures Run(CreateChain, false, err) == Run(UpdateChain, false, err) == AuthAnswered
  {
    assert CreateChain[1..] == [HandleUpload, Controller(CreateTrack)] && CreateChain[2..] == [Controller(CreateTrack)];
    assert UpdateChain[1..] == [HandleUpload, Controller(UpdateTrack)] && UpdateChain[2..] == [Controller(UpdateTrack)];
  }

  /** Deleting does not depend on the upload gate at all. */
  lemma DeleteIgnoresUploads(e1: Option<Upload.UploadError>, e2: Option<Upload.UploadError>, authorized: bool)
    ensures Run(DeleteChain, authorized, e1) == Run(DeleteChain, authorized, e2)
            == if authorized then Reached(DeleteTrack) else AuthAnswered
  {
    assert DeleteChain[1..] == [Controller(DeleteTrack)];
  }

  /** The 413 answer states a 200MB maximum, but the mixed upload instance the
      router uses rejects any file above 100 MiB: a 150MB file is refused with
      a message saying files up to 200MB are allowed. */
  lemma StatedMaximumExceedsLimit(file: Upload.IncomingFile)
    requires 100 * 1024 * 1024 < file.size <= 200 * 1000 * 1000
    ensures HandleUploadVerdict(Upload.ScreenAll(Upload.UploadMixed, [file]))
            == Respond(413, FileTooLargeMessage, FileTooLargeError)
  {
    Upload.MixedChecksOnlySize(file);
  }
}
