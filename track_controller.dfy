/** The track controller over an in-memory catalog: the stored documents, the
    file names present in `uploads/`, the next id to hand out and a logical
    clock that stands for `Date.now()`. The read handlers are functions of the
    catalog; create, update and delete are methods that change it. */
module TrackController {
  import opened Wrappers
  import opened TrackSchema
  import opened CatalogQueries

  // ---------------------------------------------------------------------------
  // Requests

  /** A numeric, date, JSON or ObjectId form field: absent, the empty string,
      or a non-empty string together with what the foreign parser makes of it
      (`None` for NaN, an invalid date, malformed JSON or a malformed id). Only
      `Text` is truthy. */
  datatype Arg<T> = Missing | Blank | Text(parsed: Option<T>)

  /** `req.params.id`: a well-formed ObjectId, or a string the cast refuses. */
  datatype IdParam = ObjectId(id: Id) | Malformed

  /** What `extractAudioMetadata` reports for an audio part. */
  datatype AudioMetadata = AudioMetadata(bitrate: int, duration: int, sampleRate: int, fileType: string)

  /** One entry of `req.files`: its form field, the name the disk storage gave
      it, and what measuring it yields (`None` when the measuring library throws). */
  datatype Part = Part(
    fieldname: string,
    filename: string,
    dimensions: Option<Dimensions>,
    audio: Option<AudioMetadata>)

  /** The text fields `createTrack` reads; "" stands for an absent or empty field. */
  datatype CreateBody = CreateBody(
    title: string,
    kind: string,
    genre: string,
    contributors: Arg<seq<Contributor>>,
    listenCount: Arg<int>,
    publishDate: Arg<int>,
    bitrate: Arg<int>,
    duration: Arg<int>,
    sampleRate: Arg<int>,
    fileType: string,
    album: Arg<Id>,
    trackNumber: Arg<int>)

  /** The text fields `updateTrack` reads. */
  datatype UpdateBody = UpdateBody(
    title: string,
    kind: string,
    genre: string,
    contributors: Arg<seq<Contributor>>,
    listenCount: Arg<int>,
    publishDate: Arg<int>)

  // ---------------------------------------------------------------------------
  // Responses

  datatype Outcome<T> = Ok(value: T) | Created(value: T) | BadRequest(message: string) | NotFound | ServerError

  function Status<T>(o: Outcome<T>): int {
    match o
    case Ok(_) => 200
    case Created(_) => 201
    case BadRequest(_) => 400
    case NotFound => 404
    case ServerError => 500
  }

  const RequiredMessage: string := "Title, type, and genre are required"
  const CoverMessage: string := "Cover image must be exactly 3000x3000 pixels"
  const QueryMessage: string := "Search query is required"
  const RemovedMessage: string := "Track removed"

  /** The body of a listing or search response. `pages` is `None` where
      `Math.ceil(count / limit)` is not a finite number and is written as null. */
  datatype Page = Page(tracks: seq<Listed>, page: int, pages: Option<int>, count: nat)

  // ---------------------------------------------------------------------------
  // Reading fields

  /** `parseInt(x) || d`: the parsed number unless it is NaN or 0. */
  function IntOr(arg: Option<int>, d: int): (n: int)
    requires d != 0
    ensures n != 0
    ensures arg.Some? && arg.value != 0 ==> n == arg.value
    ensures arg.None? || arg.value == 0 ==> n == d
  {
    if arg.Some? && arg.value != 0 then arg.value else d
  }

  /** `x ? parse(x) : absent` for a Number, Date or ObjectId path. */
  function Parsed<T>(a: Arg<T>, absent: Field<T>): Field<T> {
    match a
    case Text(Some(v)) => Val(v)
    case Text(None) => Uncastable
    case _ => absent
  }

  /** The contributor list: the parsed JSON when the field is truthy and parses, else `fallback`. */
  function ContributorsOr(a: Arg<seq<Contributor>>, fallback: seq<Contributor>): seq<Contributor> {
    if a.Text? && a.parsed.Some? then a.parsed.value else fallback
  }

  /** `measured || (x ? parseInt(x) : 0)` for the audio numbers of a new Single. */
  function MeasuredOr(measured: int, given: Arg<int>): Field<int> {
    if measured != 0 then Val(measured) else Parsed(given, Val(0))
  }

  /** The check `validateImageDimensions` makes. */
  predicate IsCoverSize(d: Dimensions) {
    d.width == 3000 && d.height == 3000
  }

  /** Part `i` is the last one of the request sent under form field `field`. */
  predicate IsLastPart(parts: seq<Part>, field: string, i: int) {
    && 0 <= i < |parts| && parts[i].fieldname == field
    && forall j :: i < j < |parts| ==> parts[j].fieldname != field
  }

  /** Where the last part under `field` sits once the first part is dropped. */
  lemma LastPartOfTail(parts: seq<Part>, field: string, i: int)
    requires IsLastPart(parts, field, i)
    ensures i == 0 ==> forall j :: 0 <= j < |parts| - 1 ==> parts[1..][j].fieldname != field
    ensures i > 0 ==> IsLastPart(parts[1..], field, i - 1)
  {
    assert forall j :: 0 <= j < |parts| - 1 ==> parts[1..][j] == parts[j + 1];
  }

  /** Part `p` ends an upload loop: a cover that cannot be measured or is not
      3000×3000, or, where audio is accepted, an audio file whose metadata
      cannot be read. */
  predicate Stops(p: Part, acceptsAudio: bool) {
    || (p.fieldname == "coverImage" && (p.dimensions.None? || !IsCoverSize(p.dimensions.value)))
    || (p.fieldname == "audioFile" && acceptsAudio && p.audio.None?)
  }

  /** Part `j` is the first part of the request that ends the loop. */
  predicate FirstStop(parts: seq<Part>, acceptsAudio: bool, j: int) {
    && 0 <= j < |parts| && Stops(parts[j], acceptsAudio)
    && forall i :: 0 <= i < j ==> !Stops(parts[i], acceptsAudio)
  }

  /** The first stopping part is a cover that was measured at the wrong size. */
  predicate IsBadCover(p: Part) {
    p.fieldname == "coverImage" && p.dimensions.Some? && !IsCoverSize(p.dimensions.value)
  }

  // ---------------------------------------------------------------------------
  // The upload loop of createTrack

  /** What the loop has collected: the cover's name and size, the audio file's
      name and its metadata. */
  datatype Collected = Collected(cover: string, coverDims: Dimensions, audioFile: string, audio: AudioMetadata)

  const NothingCollected: Collected := Collected("", Dimensions(0, 0), "", AudioMetadata(0, 0, 0, ""))

  /** The loop goes on, stops at a cover of the wrong size (whose file it then
      unlinks), or stops because a measurement threw. */
  datatype Scan = Scanning(got: Collected) | RejectCover(filename: string) | Crashed

  /** One iteration: a cover part is measured and kept only at 3000×3000; an
      audio part is kept only for a Single; any other part is ignored. */
  function CreateStep(p: Part, kind: string, c: Collected): Scan {
    if p.fieldname == "coverImage" then
      match p.dimensions
      case None => Crashed
      case Some(d) =>
        if !IsCoverSize(d) then RejectCover(p.filename)
        else Scanning(c.(cover := p.filename, coverDims := d))
    else if p.fieldname == "audioFile" && kind == "Single" then
      match p.audio
      case None => Crashed
      case Some(m) => Scanning(c.(audioFile := p.filename, audio := m))
    else Scanning(c)
  }

  /** The whole loop over `req.files`, in order, from what was collected so far. */
  function CreateScan(parts: seq<Part>, kind: string, c: Collected): (s: Scan)
    ensures s.Scanning? ==>
      || (s.got.cover == c.cover && s.got.coverDims == c.coverDims)
      || (IsCoverSize(s.got.coverDims)
          && exists i :: 0 <= i < |parts| && parts[i].fieldname == "coverImage" && parts[i].filename == s.got.cover)
    ensures s.Scanning? && (forall i :: 0 <= i < |parts| ==> parts[i].fieldname != "coverImage") ==>
      s.got.cover == c.cover && s.got.coverDims == c.coverDims
    ensures s.Scanning? && kind != "Single" ==> s.got.audioFile == c.audioFile && s.got.audio == c.audio
    ensures s.Scanning? && (forall i :: 0 <= i < |parts| ==> parts[i].fieldname != "audioFile") ==>
      s.got.audioFile == c.audioFile && s.got.audio == c.audio
    ensures s.RejectCover? ==>
      exists i :: 0 <= i < |parts| && parts[i].fieldname == "coverImage" && parts[i].filename == s.filename
                  && parts[i].dimensions.Some? && !IsCoverSize(parts[i].dimensions.value)
    decreases |parts|
  {
    if parts == [] then Scanning(c)
    else
      match CreateStep(parts[0], kind, c)
      case Scanning(next) =>
        var s := CreateScan(parts[1..], kind, next);
        assert forall i :: 0 <= i < |parts| - 1 ==> parts[1..][i] == parts[i + 1];
        s
      case stop => stop
  }

  /** When the loop runs to the end, it holds the name and size of the last
      cover part and, for a Single, the name and metadata of the last audio part. */
  lemma {:induction false} CreateRecordsLastUploads(parts: seq<Part>, kind: string, c: Collected)
    ensures var s := CreateScan(parts, kind, c);
      s.Scanning? ==> forall i :: IsLastPart(parts, "coverImage", i) ==>
        s.got.cover == parts[i].filename && parts[i].dimensions == Some(s.got.coverDims)
    ensures var s := CreateScan(parts, kind, c);
      s.Scanning? && kind == "Single" ==> forall i :: IsLastPart(parts, "audioFile", i) ==>
        s.got.audioFile == parts[i].filename && parts[i].audio == Some(s.got.audio)
    decreases |parts|
  {
    if parts != [] {
      var step := CreateStep(parts[0], kind, c);
      if step.Scanning? {
        var tail := parts[1..];
        var s := CreateScan(tail, kind, step.got);
        assert CreateScan(parts, kind, c) == s;
        CreateRecordsLastUploads(tail, kind, step.got);
        forall f, i | (f == "coverImage" || f == "audioFile") && IsLastPart(parts, f, i)
          ensures i == 0 ==> forall j :: 0 <= j < |tail| ==> tail[j].fieldname != f
          ensures i > 0 ==> IsLastPart(tail, f, i - 1)
        {
          LastPartOfTail(parts, f, i);
        }
      }
    }
  }

  /** How the loop of `createTrack` ends: it runs to the end exactly when no
      part stops it; otherwise the first stopping part decides, a cover of the
      wrong size rejecting with its own name and anything else crashing. */
  lemma {:induction false} CreateOutcome(parts: seq<Part>, kind: string, c: Collected)
    ensures CreateScan(parts, kind, c).Scanning? <==>
      forall i :: 0 <= i < |parts| ==> !Stops(parts[i], kind == "Single")
    ensures forall j :: FirstStop(parts, kind == "Single", j) ==>
      CreateScan(parts, kind, c) == if IsBadCover(parts[j]) then RejectCover(parts[j].filename) else Crashed
    decreases |parts|
  {
    var single := kind == "Single";
    if parts != [] {
      var step := CreateStep(parts[0], kind, c);
      var tail := parts[1..];
      assert forall j :: 0 <= j < |tail| ==> tail[j] == parts[j + 1];
      if step.Scanning? {
        assert !Stops(parts[0], single);
        assert CreateScan(parts, kind, c) == CreateScan(tail, kind, step.got);
        CreateOutcome(tail, kind, step.got);
        forall j | FirstStop(parts, single, j) ensures j > 0 && FirstStop(tail, single, j - 1) {
        }
      } else {
        assert Stops(parts[0], single);
        assert FirstStop(parts, kind == "Single", 0);
        forall j | FirstStop(parts, single, j) ensures j == 0 {
        }
      }
    }
  }

  /** The loop of `createTrack` over `req.files`, up to the part that stops it. */
  method CollectUploads(parts: seq<Part>, kind: string) returns (s: Scan)
    ensures s == CreateScan(parts, kind, NothingCollected)
  {
    var got := NothingCollected;
    var i := 0;
    while i < |parts|
      invariant 0 <= i <= |parts|
      invariant CreateScan(parts, kind, NothingCollected) == CreateScan(parts[i..], kind, got)
    {
      var p := parts[i];
      assert parts[i..][0] == p && parts[i..][1..] == parts[i + 1..];
      if p.fieldname == "coverImage" {
        if p.dimensions.None? {
          return Crashed;
        }
        var d := p.dimensions.value;
        if !IsCoverSize(d) {
          return RejectCover(p.filename);
        }
        got := got.(cover := p.filename, coverDims := d);
      } else if p.fieldname == "audioFile" {
        if kind == "Single" {
          if p.audio.None? {
            return Crashed;
          }
          got := got.(audioFile := p.filename, audio := p.audio.value);
        }
      }
      i := i + 1;
    }
    assert parts[i..] == [];
    return Scanning(got);
  }

  /** The document `new Track(trackData)` builds from the body and what the loop
      collected, with `now` for `new Date()` and for the timestamps. */
  function NewRecord(id: Id, body: CreateBody, g: Collected, now: int): (t: Track)
    ensures Normalized(t)
    ensures t.id == id && t.createdAt == now && t.updatedAt == now
  {
    var single := body.kind == "Single";
    var cs := TrimNames(ContributorsOr(body.contributors, []));
    TrimIdempotent(body.title);
    TrimIdempotent(body.genre);
    TrimNamesNormalized(ContributorsOr(body.contributors, []));
    WithDefaults(Track(
      id := id,
      title := Trim(body.title),
      kind := body.kind,
      genre := Trim(body.genre),
      contributors := cs,
      listenCount := Parsed(body.listenCount, Val(0)),
      publishDate := Parsed(body.publishDate, Val(now)),
      releaseDate := Unset,
      coverImage := if g.cover == "" then Placeholder else g.cover,
      coverImageDimensions := Some(if g.cover == "" then Dimensions(3000, 3000) else g.coverDims),
      audioFile := if single then Some(g.audioFile) else None,
      bitrate := if single then MeasuredOr(g.audio.bitrate, body.bitrate) else Unset,
      duration := if single then MeasuredOr(g.audio.duration, body.duration) else Unset,
      sampleRate := if single then MeasuredOr(g.audio.sampleRate, body.sampleRate) else Unset,
      fileType := if single then Some(if g.audio.fileType != "" then g.audio.fileType else body.fileType) else None,
      album := Parsed(body.album, Unset),
      trackNumber := Parsed(body.trackNumber, Unset),
      createdAt := now,
      updatedAt := now), now)
  }

  // ---------------------------------------------------------------------------
  // The upload loop of updateTrack

  /** `fs.existsSync` then `fs.unlinkSync` on a stored name, skipped for an empty name. */
  function UnlinkIfPresent(name: string, files: set<string>): (after: set<string>)
    ensures after <= files && files - after <= {name}
    ensures name != "" ==> name !in after
  {
    if name != "" && name in files then files - {name} else files
  }

  /** The loop goes on with the document and the files so far, or stops with the
      files as they then are: at a cover of the wrong size (400) or at a throw (500). */
  datatype Progress =
    | Continue(track: Track, files: set<string>)
    | StopBadCover(rejected: string, files: set<string>)
    | StopCrash(files: set<string>)

  /** One iteration. A good cover replaces the old one, whose file is unlinked
      unless it is the placeholder; an audio part, accepted when the document
      or the request says Single, unlinks the old audio file and overwrites all
      audio paths with the measured values. */
  function UpdateStep(p: Part, kindArg: string, t: Track, files: set<string>): Progress {
    if p.fieldname == "coverImage" then
      match p.dimensions
      case None => StopCrash(files)
      case Some(d) =>
        if !IsCoverSize(d) then
          if p.filename in files then StopBadCover(p.filename, files - {p.filename}) else StopCrash(files)
        else
          var kept := if t.coverImage != Placeholder then UnlinkIfPresent(t.coverImage, files) else files;
          Continue(t.(coverImage := p.filename, coverImageDimensions := Some(d)), kept)
    else if p.fieldname == "audioFile" && AcceptsAudio(t, kindArg) then
      var kept := if t.audioFile.Some? then UnlinkIfPresent(t.audioFile.value, files) else files;
      match p.audio
      case None => StopCrash(kept)
      case Some(m) =>
        Continue(t.(audioFile := Some(p.filename), bitrate := Val(m.bitrate), duration := Val(m.duration),
                    sampleRate := Val(m.sampleRate), fileType := Some(m.fileType)), kept)
    else Continue(t, files)
  }

  /** Whether the update's loop takes audio parts: the document, once its type
      is assigned, or the request says Single. */
  predicate AcceptsAudio(t: Track, kindArg: string) {
    t.kind == "Single" || kindArg == "Single"
  }

  /** The part of a document the upload loop of `updateTrack` never touches. */
  predicate SameExceptFiles(a: Track, b: Track) {
    && a.id == b.id && a.title == b.title && a.kind == b.kind && a.genre == b.genre
    && a.contributors == b.contributors && a.listenCount == b.listenCount
    && a.publishDate == b.publishDate && a.releaseDate == b.releaseDate
    && a.album == b.album && a.trackNumber == b.trackNumber
    && a.createdAt == b.createdAt && a.updatedAt == b.updatedAt
  }

  /** The whole loop over `req.files`. It only ever removes files; it removes
      the placeholder only if some part or the document is itself named so; and
      it changes nothing but the cover and audio paths. */
  function UpdateScan(parts: seq<Part>, kindArg: string, pr: Progress): (r: Progress)
    ensures r.files <= pr.files
    ensures pr.Continue? && Placeholder in pr.files && pr.track.audioFile != Some(Placeholder)
            && (forall i :: 0 <= i < |parts| ==> parts[i].filename != Placeholder)
            ==> Placeholder in r.files
    ensures pr.Continue? && r.Continue? ==> SameExceptFiles(r.track, pr.track)
    ensures !pr.Continue? ==> r == pr
    decreases |parts|
  {
    if parts == [] || !pr.Continue? then pr
    else
      var next := UpdateStep(parts[0], kindArg, pr.track, pr.files);
      assert forall i :: 0 <= i < |parts| - 1 ==> parts[1..][i] == parts[i + 1];
      UpdateScan(parts[1..], kindArg, next)
  }

  /** The assignments before the loop: title, type and genre only when given
      truthy (title and genre trimmed by their setters), contributors kept when
      absent or unparsable, `listenCount` whenever it is not undefined (an empty
      string parses to NaN) and `publishDate` when truthy. */
  function Prepare(t: Track, body: UpdateBody): (u: Track)
    ensures u.(title := t.title, kind := t.kind, genre := t.genre, contributors := t.contributors,
               listenCount := t.listenCount, publishDate := t.publishDate) == t
    ensures Normalized(t) ==> Normalized(u)
  {
    var cs := if body.contributors.Text? && body.contributors.parsed.Some?
              then TrimNames(body.contributors.parsed.value) else t.contributors;
    assert Normalized(t) ==> forall i :: 0 <= i < |cs| ==> Trim(cs[i].name) == cs[i].name by {
      if body.contributors.Text? && body.contributors.parsed.Some? {
        TrimNamesNormalized(body.contributors.parsed.value);
      }
    }
    TrimIdempotent(body.title);
    TrimIdempotent(body.genre);
    var listenCount := match body.listenCount
                       case Missing => t.listenCount
                       case Blank => Uncastable
                       case Text(n) => if n.Some? then Val(n.value) else Uncastable;
    var publishDate := if body.publishDate.Text? then Parsed(body.publishDate, Unset) else t.publishDate;
    t.(title := if body.title != "" then Trim(body.title) else t.title,
       kind := if body.kind != "" then body.kind else t.kind,
       genre := if body.genre != "" then Trim(body.genre) else t.genre,
       contributors := cs,
       listenCount := listenCount,
       publishDate := publishDate)
  }

  /** Each field the body supplies is assigned, trimmed where its setter trims. */
  lemma PrepareAssigns(t: Track, body: UpdateBody)
    ensures Prepare(t, body).title == if body.title != "" then Trim(body.title) else t.title
    ensures Prepare(t, body).kind == if body.kind != "" then body.kind else t.kind
    ensures Prepare(t, body).genre == if body.genre != "" then Trim(body.genre) else t.genre
    ensures body.contributors.Text? && body.contributors.parsed.Some? ==>
      Prepare(t, body).contributors == TrimNames(body.contributors.parsed.value)
    ensures !(body.contributors.Text? && body.contributors.parsed.Some?) ==> Prepare(t, body).contributors == t.contributors
    ensures body.listenCount.Missing? ==> Prepare(t, body).listenCount == t.listenCount
    ensures body.listenCount.Text? && body.listenCount.parsed.Some? ==> Prepare(t, body).listenCount == Val(body.listenCount.parsed.value)
    ensures body.listenCount == Blank || body.listenCount == Text(None) ==> Prepare(t, body).listenCount == Uncastable
    ensures !body.publishDate.Text? ==> Prepare(t, body).publishDate == t.publishDate
    ensures body.publishDate.Text? && body.publishDate.parsed.Some? ==> Prepare(t, body).publishDate == Val(body.publishDate.parsed.value)
    ensures body.publishDate == Text(None) ==> Prepare(t, body).publishDate == Uncastable
  {
  }

  // ---------------------------------------------------------------------------
  // The catalog's invariant

  /** What holds of the document under key `k`, if any, given the id counter and the clock. */
  predicate Admissible(store: Store, k: Id, nextId: Id, clock: int) {
    k in store ==>
      && k < nextId && store[k].id == k
      && ValidTrack(store[k]) && Normalized(store[k])
      && store[k].createdAt < clock
  }

  ghost predicate Consistent(store: Store, nextId: Id, clock: int) {
    && (forall k :: Admissible(store, k, nextId, clock))
    && Ordered(store)
  }

  /** The parts of the invariant the read handlers rely on. */
  lemma ConsistentKeys(store: Store, nextId: Id, clock: int)
    requires Consistent(store, nextId, clock)
    ensures forall k :: k in store ==> k < nextId && store[k].id == k
    ensures forall k :: k in store ==> store[k].genre != "" && Trim(store[k].genre) == store[k].genre
  {
    forall k | k in store
      ensures k < nextId && store[k].id == k
      ensures store[k].genre != "" && Trim(store[k].genre) == store[k].genre
    {
      assert Admissible(store, k, nextId, clock);
    }
  }

  /** Saving a new document under the counter, created at the clock, keeps the invariant. */
  lemma ConsistentInsert(store: Store, nextId: Id, clock: int, t: Track)
    requires Consistent(store, nextId, clock)
    requires t.id == nextId && ValidTrack(t) && Normalized(t) && t.createdAt == clock
    ensures Consistent(store[nextId := t], nextId + 1, clock + 1)
  {
    var after := store[nextId := t];
    forall k | k in after ensures Admissible(after, k, nextId + 1, clock + 1) {
      assert Admissible(store, k, nextId, clock);
    }
    forall j, k ensures CreatedInOrder(after, j, k) {
      assert Admissible(store, j, nextId, clock) && Admissible(store, k, nextId, clock);
      assert CreatedInOrder(store, j, k);
    }
  }

  /** Saving a changed document that keeps its id and creation time keeps the invariant. */
  lemma ConsistentReplace(store: Store, nextId: Id, clock: int, u: Track)
    requires Consistent(store, nextId, clock)
    requires u.id in store && ValidTrack(u) && Normalized(u) && u.createdAt == store[u.id].createdAt
    ensures Consistent(store[u.id := u], nextId, clock + 1)
  {
    var after := store[u.id := u];
    forall k | k in after ensures Admissible(after, k, nextId, clock + 1) {
      assert Admissible(store, k, nextId, clock);
    }
    forall j, k ensures CreatedInOrder(after, j, k) {
      assert CreatedInOrder(store, j, k);
    }
  }

  lemma ConsistentRemove(store: Store, nextId: Id, clock: int, k: Id)
    requires Consistent(store, nextId, clock)
    ensures Consistent(store - {k}, nextId, clock)
  {
    var after := store - {k};
    forall j ensures Admissible(after, j, nextId, clock) {
      assert Admissible(store, j, nextId, clock);
    }
    forall i, j ensures CreatedInOrder(after, i, j) {
      assert CreatedInOrder(store, i, j);
    }
  }

  // ---------------------------------------------------------------------------
  // The catalog

  class Catalog {
    var tracks: Store
    var files: set<string>
    var nextId: Id
    var clock: int

    /** Every stored document passed `save()`, holds trimmed text, has its own
        id below the counter and was created before the clock; creation time
        grows with the id. */
    ghost predicate Valid()
      reads this
    {
      Consistent(tracks, nextId, clock)
    }

    /** An empty catalog over an `uploads/` directory already holding `uploads`. */
    constructor (uploads: set<string>)
      ensures Valid()
      ensures tracks == map[] && files == uploads && nextId == 0 && clock == 0
    {
      tracks := map[];
      files := uploads;
      nextId := 0;
      clock := 0;
    }

    /** The disk storage writing the request's parts to `uploads/` before the controller runs. */
    method StoreParts(parts: seq<Part>)
      requires Valid()
      modifies this`files
      ensures Valid()
      ensures files == old(files) + set i | 0 <= i < |parts| :: parts[i].filename
    {
      files := files + set i | 0 <= i < |parts| :: parts[i].filename;
    }

    // -------------------------------------------------------------------------
    // Reads

    /** A page of the listing: the count of all matches and the window the
        skip and limit leave of them. */
    ghost predicate Paged(p: Page, q: Query, skip: int, limit: int)
      reads this
    {
      p.count == |MatchSet(tracks, q)| && IsWindow(tracks, nextId, p.tracks, q, skip, limit)
    }

    /** The sorted matches after `.skip(skip).limit(limit)`, with album member counts. */
    function ListingWindow(q: Query, skip: int, limit: int): (w: Option<seq<Listed>>)
      reads this
      requires Valid()
      ensures w.None? <==> skip < 0
      ensures w.Some? ==> Paged(Page(w.value, 0, None, |MatchSet(tracks, q)|), q, skip, limit)
    {
      ConsistentKeys(tracks, nextId, clock);
      ListWindow(tracks, nextId, q, skip, limit)
    }

    /** `getTracks`: the listing, `pageSize` and `page` defaulting to 10 and 1
        when they parse to NaN or 0. */
    function GetTracks(pageSizeArg: Option<int>, pageArg: Option<int>, genre: string): (r: Outcome<Page>)
      reads this
      requires Valid()
      ensures r.Ok? || r.ServerError?
      ensures
        var size, page := IntOr(pageSizeArg, 10), IntOr(pageArg, 1);
        && (r.ServerError? <==> size * (page - 1) < 0)
        && (r.Ok? ==>
              && Paged(r.value, Listing(GenreFilter(genre)), size * (page - 1), size)
              && r.value.page == page
              && r.value.pages == Some(CeilDiv(r.value.count, size)))
    {
      var size, page := IntOr(pageSizeArg, 10), IntOr(pageArg, 1);
      var q := Listing(GenreFilter(genre));
      match ListingWindow(q, size * (page - 1), size)
      case None => ServerError
      case Some(entries) =>
        var count := |MatchSet(tracks, q)|;
        Ok(Page(entries, page, Some(CeilDiv(count, size)), count))
    }

    /** `searchTracks`: 400 without a query; otherwise the visibility filter
        alone, because the second `$or` key of the query object replaces the
        text match. `page` and `limit` default to 1 and 10 when absent. */
    function SearchTracks(text: string, pageArg: Option<int>, limitArg: Option<int>): (r: Outcome<Page>)
      reads this
      requires Valid()
      ensures text == "" ==> r == BadRequest(QueryMessage)
      ensures text != "" ==>
        var page, limit := pageArg.GetOr(1), limitArg.GetOr(10);
        && (r.Ok? || r.ServerError?)
        && (r.ServerError? <==> limit * (page - 1) < 0)
        && (r.Ok? ==>
              && Paged(r.value, Listing(None), limit * (page - 1), limit)
              && r.value.page == page
              && r.value.pages == if limit == 0 then None else Some(CeilDiv(r.value.count, limit)))
    {
      if text == "" then BadRequest(QueryMessage)
      else
        var page, limit := pageArg.GetOr(1), limitArg.GetOr(10);
        var q := Listing(None);
        match ListingWindow(q, limit * (page - 1), limit)
        case None => ServerError
        case Some(entries) =>
          var count := |MatchSet(tracks, q)|;
          Ok(Page(entries, page, if limit == 0 then None else Some(CeilDiv(count, limit)), count))
    }

    /** `getTrackById`: the stored document, or 404 for an unknown or malformed id. */
    function GetTrackById(id: IdParam): (r: Outcome<Track>)
      reads this
      ensures r.Ok? <==> id.ObjectId? && id.id in tracks
      ensures r.Ok? ==> r.value == tracks[id.id]
      ensures !r.Ok? ==> r == NotFound
    {
      match id
      case Malformed => NotFound
      case ObjectId(k) => if k in tracks then Ok(tracks[k]) else NotFound
    }

    /** `getTracksByAlbumId`: every document referring to the album, in
        ascending track-number order; a malformed id is not caught and answers 500. */
    function GetTracksByAlbumId(albumId: IdParam): (r: Outcome<seq<Track>>)
      reads this
      requires Valid()
      ensures r.ServerError? <==> albumId.Malformed?
      ensures albumId.ObjectId? ==>
        && r.Ok?
        && ByTrackNumber(r.value)
        && |r.value| == TrackCount(tracks, albumId.id)
        && (forall t :: t in r.value <==> t in tracks.Values && t.album == Val(albumId.id))
    {
      match albumId
      case Malformed => ServerError
      case ObjectId(a) =>
        var q := AlbumMembers(a);
        var ids := NewestFirst(tracks, nextId, q);
        ConsistentKeys(tracks, nextId, clock);
        NewestFirstIsMatchSet(tracks, nextId, q);
        var members := Fetch(tracks, ids);
        var sorted := SortByTrackNumber(members);
        MembersAreInAlbum(tracks, nextId, a, members, sorted);
        Ok(sorted)
    }

    /** `getGenres`: the distinct genres of all documents, each non-empty and trimmed. */
    function GetGenres(): (r: set<string>)
      reads this
      requires Valid()
      ensures forall g :: g in r <==> exists k :: k in tracks && tracks[k].genre == g
      ensures forall g :: g in r ==> g != "" && Trim(g) == g
    {
      ConsistentKeys(tracks, nextId, clock);
      set k | k in tracks :: tracks[k].genre
    }

    // -------------------------------------------------------------------------
    // Writes

    /** `createTrack`. Without a title, type or genre it answers 400 and changes
        nothing. Otherwise it runs the upload loop: a cover of the wrong size has
        its own file unlinked (the other parts stay on disk) and answers 400; a
        throw answers 500. After the loop the document is saved under a fresh
        id when it validates, and 500 is the answer when it does not. */
    method CreateTrack(body: CreateBody, parts: seq<Part>) returns (r: Outcome<Track>)
      requires Valid()
      modifies this
      ensures Valid()
      ensures body.title == "" || body.kind == "" || body.genre == "" ==>
        r == BadRequest(RequiredMessage) && tracks == old(tracks) && files == old(files)
        && nextId == old(nextId) && clock == old(clock)
      ensures body.title != "" && body.kind != "" && body.genre != "" ==>
        match CreateScan(parts, body.kind, NothingCollected)
        case Crashed =>
          r == ServerError && tracks == old(tracks) && files == old(files) && nextId == old(nextId) && clock == old(clock)
        case RejectCover(f) =>
          && r == (if f in old(files) then BadRequest(CoverMessage) else ServerError)
          && files == old(files) - {f}
          && tracks == old(tracks) && nextId == old(nextId) && clock == old(clock)
        case Scanning(g) =>
          var t := NewRecord(old(nextId), body, g, old(clock));
          && files == old(files)
          && (ValidTrack(t) ==>
                r == Created(t) && tracks == old(tracks)[old(nextId) := t]
                && nextId == old(nextId) + 1 && clock == old(clock) + 1)
          && (!ValidTrack(t) ==>
                r == ServerError && tracks == old(tracks) && nextId == old(nextId) && clock == old(clock))
    {
      if body.title == "" || body.kind == "" || body.genre == "" {
        return BadRequest(RequiredMessage);
      }
      var scan := CollectUploads(parts, body.kind);
      if scan.Crashed? {
        return ServerError;
      }
      if scan.RejectCover? {
        // the rejected cover's own file is unlinked before answering
        if scan.filename !in files {
          return ServerError;
        }
        files := files - {scan.filename};
        return BadRequest(CoverMessage);
      }
      var got := scan.got;
      r := SaveNew(NewRecord(nextId, body, got, clock));
    }

    /** `track.save()` on a new document: it is stored under the counter, which
        advances with the clock, only when it validates; otherwise 500. */
    method SaveNew(t: Track) returns (r: Outcome<Track>)
      requires Valid()
      requires t.id == nextId && Normalized(t) && t.createdAt == clock
      modifies this`tracks, this`nextId, this`clock
      ensures Valid()
      ensures ValidTrack(t) ==>
        r == Created(t) && tracks == old(tracks)[old(nextId) := t] && nextId == old(nextId) + 1 && clock == old(clock) + 1
      ensures !ValidTrack(t) ==>
        r == ServerError && tracks == old(tracks) && nextId == old(nextId) && clock == old(clock)
    {
      if !ValidTrack(t) {
        return ServerError;
      }
      ConsistentInsert(tracks, nextId, clock, t);
      tracks := tracks[nextId := t];
      nextId := nextId + 1;
      clock := clock + 1;
      r := Created(t);
    }

    /** The loop of `updateTrack` over `req.files`: it replaces the cover and
        the audio file of the document it is given, unlinking the old files as
        it goes, up to the part that stops it. */
    method ApplyUploads(parts: seq<Part>, kindArg: string, start: Track) returns (pr: Progress)
      modifies this`files
      ensures pr == UpdateScan(parts, kindArg, Continue(start, old(files)))
      ensures files == pr.files
    {
      var t := start;
      var i := 0;
      while i < |parts|
        invariant 0 <= i <= |parts|
        invariant UpdateScan(parts, kindArg, Continue(start, old(files))) == UpdateScan(parts[i..], kindArg, Continue(t, files))
      {
        var p := parts[i];
        assert parts[i..][0] == p && parts[i..][1..] == parts[i + 1..];
        if p.fieldname == "coverImage" {
          if p.dimensions.None? {
            return StopCrash(files);
          }
          var d := p.dimensions.value;
          if !IsCoverSize(d) {
            if p.filename !in files {
              return StopCrash(files);
            }
            files := files - {p.filename};
            return StopBadCover(p.filename, files);
          }
          if t.coverImage != "" && t.coverImage != Placeholder && t.coverImage in files {
            files := files - {t.coverImage};
          }
          t := t.(coverImage := p.filename, coverImageDimensions := Some(d));
        } else if p.fieldname == "audioFile" {
          if AcceptsAudio(t, kindArg) {
            if t.audioFile.Some? && t.audioFile.value != "" && t.audioFile.value in files {
              files := files - {t.audioFile.value};
            }
            if p.audio.None? {
              return StopCrash(files);
            }
            var m := p.audio.value;
            t := t.(audioFile := Some(p.filename), bitrate := Val(m.bitrate), duration := Val(m.duration),
                    sampleRate := Val(m.sampleRate), fileType := Some(m.fileType));
          }
        }
        i := i + 1;
      }
      assert parts[i..] == [];
      return Continue(t, files);
    }

    /** `updateTrack`. An unknown or malformed id answers 404. Otherwise the
        fields of the body are assigned, the upload loop runs, and the document
        is saved when it validates. The files the loop unlinked stay unlinked
        whatever the answer; `album` and `trackNumber` never change. `scan` is
        what the upload loop ended with. */
    method UpdateTrack(id: IdParam, body: UpdateBody, parts: seq<Part>) returns (r: Outcome<Track>, ghost scan: Progress)
      requires Valid()
      modifies this
      ensures Valid()
      ensures nextId == old(nextId)
      ensures id.Malformed? || id.id !in old(tracks) ==>
        r == NotFound && tracks == old(tracks) && files == old(files) && clock == old(clock)
      ensures id.ObjectId? && id.id in old(tracks) ==>
        && scan == UpdateScan(parts, body.kind, Continue(Prepare(old(tracks)[id.id], body), old(files)))
        && match scan
        case StopBadCover(_, left) =>
          r == BadRequest(CoverMessage) && files == left && tracks == old(tracks) && clock == old(clock)
        case StopCrash(left) =>
          r == ServerError && files == left && tracks == old(tracks) && clock == old(clock)
        case Continue(t, left) =>
          var u := t.(updatedAt := old(clock));
          && files == left
          && (ValidTrack(u) ==> r == Ok(u) && tracks == old(tracks)[id.id := u] && clock == old(clock) + 1)
          && (!ValidTrack(u) ==> r == ServerError && tracks == old(tracks) && clock == old(clock))
    {
      if id.Malformed? || id.id !in tracks {
        return NotFound, StopCrash(files);
      }
      assert Admissible(tracks, id.id, nextId, clock);
      var start := Prepare(tracks[id.id], body);
      var progress := ApplyUploads(parts, body.kind, start);
      scan := progress;
      assert scan == UpdateScan(parts, body.kind, Continue(Prepare(old(tracks)[id.id], body), old(files)));
      if progress.StopCrash? {
        return ServerError, scan;
      }
      if progress.StopBadCover? {
        return BadRequest(CoverMessage), scan;
      }
      r := SaveChanged(progress.track);
    }

    /** `track.save()` on a fetched document: it is written back, with the
        clock as its update time, only when it validates; otherwise 500. */
    method SaveChanged(t: Track) returns (r: Outcome<Track>)
      requires Valid()
      requires t.id in tracks && Normalized(t) && t.createdAt == tracks[t.id].createdAt
      modifies this`tracks, this`clock
      ensures Valid()
      ensures var u := t.(updatedAt := old(clock));
        && (ValidTrack(u) ==> r == Ok(u) && tracks == old(tracks)[t.id := u] && clock == old(clock) + 1)
        && (!ValidTrack(u) ==> r == ServerError && tracks == old(tracks) && clock == old(clock))
    {
      var u := t.(updatedAt := clock);
      if !ValidTrack(u) {
        return ServerError;
      }
      ConsistentReplace(tracks, nextId, clock, u);
      tracks := tracks[u.id := u];
      clock := clock + 1;
      r := Ok(u);
    }

    /** `deleteTrack`. An unknown or malformed id answers 404. Otherwise the
        cover file and the audio file are unlinked where present, the
        placeholder included, and the document is removed; afterwards
        `getTrackById` answers 404 for it. */
    method DeleteTrack(id: IdParam) returns (r: Outcome<string>)
      requires Valid()
      modifies this
      ensures Valid()
      ensures nextId == old(nextId) && clock == old(clock)
      ensures id.Malformed? || id.id !in old(tracks) ==>
        r == NotFound && tracks == old(tracks) && files == old(files)
      ensures id.ObjectId? && id.id in old(tracks) ==>
        var t := old(tracks)[id.id];
        && r == Ok(RemovedMessage)
        && tracks == old(tracks) - {id.id}
        && files == (if t.audioFile.Some? then UnlinkIfPresent(t.audioFile.value, UnlinkIfPresent(t.coverImage, old(files)))
                     else UnlinkIfPresent(t.coverImage, old(files)))
        && (t.coverImage == Placeholder ==> Placeholder !in files)
        && GetTrackById(id) == NotFound
    {
      if id.Malformed? || id.id !in tracks {
        return NotFound;
      }
      var t := tracks[id.id];
      if t.coverImage != "" && t.coverImage in files {
        files := files - {t.coverImage};
      }
      if t.audioFile.Some? && t.audioFile.value != "" && t.audioFile.value in files {
        files := files - {t.audioFile.value};
      }
      ConsistentRemove(tracks, nextId, clock, id.id);
      tracks := tracks - {id.id};
      r := Ok(RemovedMessage);
    }
  }

  /** The album's members after sorting are exactly the documents referring to it. */
  lemma MembersAreInAlbum(store: Store, n: nat, a: Id, members: seq<Track>, sorted: seq<Track>)
    requires forall k :: k in store ==> k < n && store[k].id == k
    requires var ids := NewestFirst(store, n, AlbumMembers(a));
      |members| == |ids| && forall i :: 0 <= i < |ids| ==> ids[i] in store && members[i] == store[ids[i]]
    requires multiset(sorted) == multiset(members)
    requires |NewestFirst(store, n, AlbumMembers(a))| == |MatchSet(store, AlbumMembers(a))|
    ensures |sorted| == TrackCount(store, a)
    ensures forall t :: t in sorted <==> t in store.Values && t.album == Val(a)
  {
    var ids := NewestFirst(store, n, AlbumMembers(a));
    assert |sorted| == |members| by {
      assert |multiset(sorted)| == |multiset(members)|;
    }
    forall t ensures t in sorted <==> t in store.Values && t.album == Val(a) {
      assert t in sorted <==> t in members by {
        assert t in sorted <==> t in multiset(sorted);
        assert t in members <==> t in multiset(members);
      }
      if t in members {
        FetchedIsMember(store, n, a, members, t);
      }
      if t in store.Values && t.album == Val(a) {
        MemberIsFetched(store, n, a, members, t);
      }
    }
  }

  lemma FetchedIsMember(store: Store, n: nat, a: Id, members: seq<Track>, t: Track)
    requires var ids := NewestFirst(store, n, AlbumMembers(a));
      |members| == |ids| && forall i :: 0 <= i < |ids| ==> ids[i] in store && members[i] == store[ids[i]]
    requires t in members
    ensures t in store.Values && t.album == Val(a)
  {
    var ids := NewestFirst(store, n, AlbumMembers(a));
    var i :| 0 <= i < |members| && members[i] == t;
    assert store[ids[i]] == t;
  }

  lemma MemberIsFetched(store: Store, n: nat, a: Id, members: seq<Track>, t: Track)
    requires forall k :: k in store ==> k < n
    requires var ids := NewestFirst(store, n, AlbumMembers(a));
      |members| == |ids| && forall i :: 0 <= i < |ids| ==> ids[i] in store && members[i] == store[ids[i]]
    requires t in store.Values && t.album == Val(a)
    ensures t in members
  {
    var ids := NewestFirst(store, n, AlbumMembers(a));
    var k :| k in store && store[k] == t;
    assert k in ids;
    var i :| 0 <= i < |ids| && ids[i] == k;
    assert members[i] == t;
  }

  // ---------------------------------------------------------------------------
  // What the handlers promise

  /** The search text takes no part in the answer: it only has to be non-empty. */
  lemma SearchIgnoresText(c: Catalog, text1: string, text2: string, pageArg: Option<int>, limitArg: Option<int>)
    requires c.Valid() && text1 != "" && text2 != ""
    ensures c.SearchTracks(text1, pageArg, limitArg) == c.SearchTracks(text2, pageArg, limitArg)
  {
  }

  /** With a non-zero page and limit, a search answers exactly what the listing
      without a genre answers for the same page and page size. */
  lemma SearchIsUnfilteredListing(c: Catalog, text: string, page: int, limit: int)
    requires c.Valid() && text != "" && page != 0 && limit != 0
    ensures c.SearchTracks(text, Some(page), Some(limit)) == c.GetTracks(Some(limit), Some(page), "")
    ensures c.GetTracks(Some(limit), Some(page), "") == c.GetTracks(Some(limit), Some(page), "all")
  {
    assert IntOr(Some(limit), 10) == limit && IntOr(Some(page), 1) == page;
    assert GenreFilter("") == None && GenreFilter("all") == None;
  }

  /** A Single that belongs to an album is listed under its album and appears
      on no page of the listing or of a search. */
  lemma ChildSinglesOnlyUnderTheirAlbum(c: Catalog, t: Track, a: Id,
                                        sizeArg: Option<int>, pageArg: Option<int>, genre: string,
                                        text: string, limitArg: Option<int>)
    requires c.Valid() && t in c.tracks.Values && t.kind == "Single" && t.album == Val(a)
    ensures c.GetTracksByAlbumId(ObjectId(a)).Ok? && t in c.GetTracksByAlbumId(ObjectId(a)).value
    ensures var r := c.GetTracks(sizeArg, pageArg, genre);
      r.Ok? ==> forall i :: 0 <= i < |r.value.tracks| ==> r.value.tracks[i].track != t
    ensures var r := c.SearchTracks(text, pageArg, limitArg);
      r.Ok? ==> forall i :: 0 <= i < |r.value.tracks| ==> r.value.tracks[i].track != t
  {
    var r := c.GetTracks(sizeArg, pageArg, genre);
    if r.Ok? {
      forall i | 0 <= i < |r.value.tracks| ensures r.value.tracks[i].track != t {
        assert Matches(Listing(GenreFilter(genre)), r.value.tracks[i].track);
      }
    }
    var s := c.SearchTracks(text, pageArg, limitArg);
    if s.Ok? {
      forall i | 0 <= i < |s.value.tracks| ensures s.value.tracks[i].track != t {
        assert Matches(Listing(None), s.value.tracks[i].track);
      }
    }
  }

  /** A created document always carries a 3000×3000 cover: the placeholder when
      no cover part was uploaded, and otherwise the name and measured size of
      the last cover part, which the loop accepted. */
  lemma CreatedCover(id: Id, body: CreateBody, parts: seq<Part>, now: int)
    requires CreateScan(parts, body.kind, NothingCollected).Scanning?
    ensures var t := NewRecord(id, body, CreateScan(parts, body.kind, NothingCollected).got, now);
      && t.coverImageDimensions.Some? && IsCoverSize(t.coverImageDimensions.value)
      && ((forall i :: 0 <= i < |parts| ==> parts[i].fieldname != "coverImage") ==> t.coverImage == Placeholder)
    ensures var t := NewRecord(id, body, CreateScan(parts, body.kind, NothingCollected).got, now);
      forall i :: IsLastPart(parts, "coverImage", i) && parts[i].filename != "" ==>
        t.coverImage == parts[i].filename && t.coverImageDimensions == parts[i].dimensions
  {
    CreateRecordsLastUploads(parts, body.kind, NothingCollected);
  }

  /** How a new Single fills an audio number: the measurement when it is not
      0, otherwise the caller's value when it parses, a cast failure when it
      does not, and 0 when the caller gives none. */
  predicate AudioNumber(f: Field<int>, measured: int, given: Arg<int>) {
    && (measured != 0 ==> f == Val(measured))
    && (measured == 0 && given.Text? && given.parsed.Some? ==> f == Val(given.parsed.value))
    && (measured == 0 && given == Text(None) ==> f == Uncastable)
    && (measured == 0 && !given.Text? ==> f == Val(0))
  }

  /** The audio paths of a new document: an Album gets none of them; a Single
      gets the collected file name, each number from the measurement or the
      caller, and the measured file type, else the caller's. */
  lemma CreatedAudio(id: Id, body: CreateBody, g: Collected, now: int)
    ensures var t := NewRecord(id, body, g, now);
      body.kind != "Single" ==>
        t.audioFile.None? && t.bitrate.Unset? && t.duration.Unset? && t.sampleRate.Unset? && t.fileType.None?
    ensures var t := NewRecord(id, body, g, now);
      body.kind == "Single" ==>
        && t.audioFile == Some(g.audioFile)
        && AudioNumber(t.bitrate, g.audio.bitrate, body.bitrate)
        && AudioNumber(t.duration, g.audio.duration, body.duration)
        && AudioNumber(t.sampleRate, g.audio.sampleRate, body.sampleRate)
        && t.fileType == Some(if g.audio.fileType != "" then g.audio.fileType else body.fileType)
  {
  }

  /** A Single created from a request with audio parts carries the name of the
      last one and whatever its measurement reports. */
  lemma CreatedAudioUpload(id: Id, body: CreateBody, parts: seq<Part>, now: int)
    requires body.kind == "Single" && CreateScan(parts, body.kind, NothingCollected).Scanning?
    ensures var t := NewRecord(id, body, CreateScan(parts, body.kind, NothingCollected).got, now);
      forall i :: IsLastPart(parts, "audioFile", i) ==>
        && parts[i].audio.Some?
        && t.audioFile == Some(parts[i].filename)
        && (parts[i].audio.value.bitrate != 0 ==> t.bitrate == Val(parts[i].audio.value.bitrate))
        && (parts[i].audio.value.duration != 0 ==> t.duration == Val(parts[i].audio.value.duration))
        && (parts[i].audio.value.sampleRate != 0 ==> t.sampleRate == Val(parts[i].audio.value.sampleRate))
        && (parts[i].audio.value.fileType != "" ==> t.fileType == Some(parts[i].audio.value.fileType))
  {
    var g := CreateScan(parts, body.kind, NothingCollected).got;
    CreateRecordsLastUploads(parts, body.kind, NothingCollected);
    CreatedAudio(id, body, g, now);
  }

  /** A Single created without an audio part keeps the empty audio file name,
      which the required check refuses whatever `fileType` says, so
      `createTrack` answers 500 for it. */
  lemma SingleWithoutAudioIsRejected(id: Id, body: CreateBody, parts: seq<Part>, now: int)
    requires body.kind == "Single"
    requires forall i :: 0 <= i < |parts| ==> parts[i].fieldname != "audioFile"
    requires CreateScan(parts, body.kind, NothingCollected).Scanning?
    ensures !ValidTrack(NewRecord(id, body, CreateScan(parts, body.kind, NothingCollected).got, now))
  {
    var g := CreateScan(parts, body.kind, NothingCollected).got;
    assert g.audioFile == "";
    EmptyAudioIsRejected(id, body, g, now);
  }

  lemma EmptyAudioIsRejected(id: Id, body: CreateBody, g: Collected, now: int)
    requires body.kind == "Single" && g.audioFile == ""
    ensures !ValidTrack(NewRecord(id, body, g, now))
  {
    CreatedAudio(id, body, g, now);
    assert !RequiredString(NewRecord(id, body, g, now).audioFile);
  }

  /** The text and list fields of a new document, trimmed; its contributors are
      the parsed list, or none when the field is absent, empty or does not parse.
      A number, date or album reference the caller gives is stored when it
      parses and makes the save fail when it does not; one the caller leaves out
      takes the schema default, or stays unset. */
  lemma CreatedFields(id: Id, body: CreateBody, g: Collected, now: int)
    ensures var t := NewRecord(id, body, g, now);
      && t.title == Trim(body.title) && t.kind == body.kind && t.genre == Trim(body.genre)
      && t.contributors == (if body.contributors.Text? && body.contributors.parsed.Some?
                            then TrimNames(body.contributors.parsed.value) else [])
      && t.releaseDate.Unset?
    ensures var t := NewRecord(id, body, g, now);
      && (!body.listenCount.Text? ==> t.listenCount == Val(0))
      && (body.listenCount.Text? && body.listenCount.parsed.Some? ==> t.listenCount == Val(body.listenCount.parsed.value))
      && (body.listenCount == Text(None) ==> !ValidTrack(t))
    ensures var t := NewRecord(id, body, g, now);
      && (!body.publishDate.Text? ==> t.publishDate == Val(now))
      && (body.publishDate.Text? && body.publishDate.parsed.Some? ==> t.publishDate == Val(body.publishDate.parsed.value))
      && (body.publishDate == Text(None) ==> !ValidTrack(t))
    ensures var t := NewRecord(id, body, g, now);
      && (!body.album.Text? ==> t.album.Unset?)
      && (body.album.Text? && body.album.parsed.Some? ==> t.album == Val(body.album.parsed.value))
      && (body.album == Text(None) ==> !ValidTrack(t))
    ensures var t := NewRecord(id, body, g, now);
      && (!body.trackNumber.Text? ==> t.trackNumber.Unset?)
      && (body.trackNumber.Text? && body.trackNumber.parsed.Some? ==> t.trackNumber == Val(body.trackNumber.parsed.value))
      && (body.trackNumber == Text(None) ==> !ValidTrack(t))
  {
  }

  /** What an update leaves alone: its `album`, `trackNumber`, id and creation
      time always, and each of title, type, genre, contributors, listen count
      and publish date whenever the body does not supply it. */
  lemma UpdatePreservesOmitted(t: Track, body: UpdateBody, parts: seq<Part>, files: set<string>)
    ensures var r := UpdateScan(parts, body.kind, Continue(Prepare(t, body), files));
      r.Continue? ==>
        && r.track.album == t.album && r.track.trackNumber == t.trackNumber && r.track.releaseDate == t.releaseDate
        && r.track.id == t.id && r.track.createdAt == t.createdAt
        && (body.title == "" ==> r.track.title == t.title)
        && (body.kind == "" ==> r.track.kind == t.kind)
        && (body.genre == "" ==> r.track.genre == t.genre)
        && (!(body.contributors.Text? && body.contributors.parsed.Some?) ==> r.track.contributors == t.contributors)
        && (body.listenCount.Missing? ==> r.track.listenCount == t.listenCount)
        && (!body.publishDate.Text? ==> r.track.publishDate == t.publishDate)
  {
  }

  /** Every field the body supplies reaches the document the update saves:
      title, type and genre when truthy (title and genre trimmed), the parsed
      contributors with trimmed names, and a listen count or publish date that
      parses; one that does not parse fails the cast. */
  lemma UpdateStoresSupplied(t: Track, body: UpdateBody, parts: seq<Part>, files: set<string>)
    ensures var r := UpdateScan(parts, body.kind, Continue(Prepare(t, body), files));
      r.Continue? ==>
        && (body.title != "" ==> r.track.title == Trim(body.title))
        && (body.kind != "" ==> r.track.kind == body.kind)
        && (body.genre != "" ==> r.track.genre == Trim(body.genre))
        && (body.contributors.Text? && body.contributors.parsed.Some? ==>
              r.track.contributors == TrimNames(body.contributors.parsed.value))
    ensures var r := UpdateScan(parts, body.kind, Continue(Prepare(t, body), files));
      r.Continue? ==>
        && (body.listenCount.Text? && body.listenCount.parsed.Some? ==>
              r.track.listenCount == Val(body.listenCount.parsed.value))
        && (body.listenCount == Blank || body.listenCount == Text(None) ==> !ValidTrack(r.track))
        && (body.publishDate.Text? && body.publishDate.parsed.Some? ==>
              r.track.publishDate == Val(body.publishDate.parsed.value))
        && (body.publishDate == Text(None) ==> !ValidTrack(r.track))
  {
    var u := Prepare(t, body);
    PrepareAssigns(t, body);
    var r := UpdateScan(parts, body.kind, Continue(u, files));
    if r.Continue? {
      assert SameExceptFiles(r.track, u);
    }
  }

  /** The update's loop leaves the document with the name and measured size of
      the last cover part; with no cover part the cover stays as it was. */
  lemma {:induction false} UpdateInstallsLastCover(parts: seq<Part>, kindArg: string, pr: Progress)
    requires pr.Continue?
    ensures var r := UpdateScan(parts, kindArg, pr);
      r.Continue? ==> forall i :: IsLastPart(parts, "coverImage", i) ==>
        r.track.coverImage == parts[i].filename && r.track.coverImageDimensions == parts[i].dimensions
    ensures var r := UpdateScan(parts, kindArg, pr);
      r.Continue? && (forall i :: 0 <= i < |parts| ==> parts[i].fieldname != "coverImage") ==>
        r.track.coverImage == pr.track.coverImage && r.track.coverImageDimensions == pr.track.coverImageDimensions
    decreases |parts|
  {
    if parts != [] {
      var next := UpdateStep(parts[0], kindArg, pr.track, pr.files);
      var tail := parts[1..];
      assert UpdateScan(parts, kindArg, pr) == UpdateScan(tail, kindArg, next);
      assert forall j :: 0 <= j < |tail| ==> tail[j] == parts[j + 1];
      if next.Continue? {
        UpdateInstallsLastCover(tail, kindArg, next);
        forall i | IsLastPart(parts, "coverImage", i)
          ensures i == 0 ==> forall j :: 0 <= j < |tail| ==> tail[j].fieldname != "coverImage"
          ensures i > 0 ==> IsLastPart(tail, "coverImage", i - 1)
        {
        }
      }
    }
  }

  /** Once the update's loop has accepted a cover part, the document's former
      cover file is gone from `uploads/`, unless it was empty or the placeholder. */
  lemma {:induction false} UpdateUnlinksOldCover(parts: seq<Part>, kindArg: string, pr: Progress)
    requires pr.Continue? && pr.track.coverImage != "" && pr.track.coverImage != Placeholder
    requires exists i :: 0 <= i < |parts| && parts[i].fieldname == "coverImage"
    ensures var r := UpdateScan(parts, kindArg, pr);
      r.Continue? ==> pr.track.coverImage !in r.files
    decreases |parts|
  {
    var next := UpdateStep(parts[0], kindArg, pr.track, pr.files);
    var tail := parts[1..];
    assert UpdateScan(parts, kindArg, pr) == UpdateScan(tail, kindArg, next);
    if next.Continue? && parts[0].fieldname != "coverImage" {
      var i :| 0 <= i < |parts| && parts[i].fieldname == "coverImage";
      assert tail[i - 1] == parts[i];
      UpdateUnlinksOldCover(tail, kindArg, next);
    }
  }

  /** A rejected cover's own file is gone from `uploads/` when the update answers 400. */
  lemma {:induction false} UpdateUnlinksRejectedCover(parts: seq<Part>, kindArg: string, pr: Progress)
    requires pr.Continue?
    ensures var r := UpdateScan(parts, kindArg, pr);
      r.StopBadCover? ==>
        && r.rejected !in r.files
        && exists i :: 0 <= i < |parts| && parts[i].fieldname == "coverImage" && parts[i].filename == r.rejected
                       && parts[i].dimensions.Some? && !IsCoverSize(parts[i].dimensions.value)
    decreases |parts|
  {
    if parts != [] {
      var next := UpdateStep(parts[0], kindArg, pr.track, pr.files);
      var tail := parts[1..];
      assert UpdateScan(parts, kindArg, pr) == UpdateScan(tail, kindArg, next);
      if next.Continue? {
        UpdateUnlinksRejectedCover(tail, kindArg, next);
        assert forall j :: 0 <= j < |tail| ==> tail[j] == parts[j + 1];
      }
    }
  }

  /** The audio paths hold what was measured of part `p`. */
  predicate HoldsAudioOf(t: Track, p: Part) {
    && p.audio.Some?
    && t.audioFile == Some(p.filename)
    && t.bitrate == Val(p.audio.value.bitrate) && t.duration == Val(p.audio.value.duration)
    && t.sampleRate == Val(p.audio.value.sampleRate) && t.fileType == Some(p.audio.value.fileType)
  }

  predicate SameAudio(a: Track, b: Track) {
    && a.audioFile == b.audioFile && a.fileType == b.fileType
    && a.bitrate == b.bitrate && a.duration == b.duration && a.sampleRate == b.sampleRate
  }

  /** When the document or the request says Single, the update's loop leaves
      the document with the last audio part's name and measurement; with no
      audio part the audio paths stay as they were. */
  lemma {:induction false} UpdateInstallsLastAudio(parts: seq<Part>, kindArg: string, pr: Progress)
    requires pr.Continue? && AcceptsAudio(pr.track, kindArg)
    ensures var r := UpdateScan(parts, kindArg, pr);
      r.Continue? ==> forall i :: IsLastPart(parts, "audioFile", i) ==> HoldsAudioOf(r.track, parts[i])
    ensures var r := UpdateScan(parts, kindArg, pr);
      r.Continue? && (forall i :: 0 <= i < |parts| ==> parts[i].fieldname != "audioFile") ==>
        SameAudio(r.track, pr.track)
    decreases |parts|
  {
    if parts != [] {
      var next := UpdateStep(parts[0], kindArg, pr.track, pr.files);
      var tail := parts[1..];
      assert UpdateScan(parts, kindArg, pr) == UpdateScan(tail, kindArg, next);
      assert forall j :: 0 <= j < |tail| ==> tail[j] == parts[j + 1];
      if next.Continue? {
        assert next.track.kind == pr.track.kind;
        UpdateInstallsLastAudio(tail, kindArg, next);
        forall i | IsLastPart(parts, "audioFile", i)
          ensures i == 0 ==> forall j :: 0 <= j < |tail| ==> tail[j].fieldname != "audioFile"
          ensures i > 0 ==> IsLastPart(tail, "audioFile", i - 1)
        {
        }
      }
    }
  }

  /** Once the update's loop has accepted an audio part, the document's former
      audio file is gone from `uploads/`. */
  lemma {:induction false} UpdateUnlinksOldAudio(parts: seq<Part>, kindArg: string, pr: Progress)
    requires pr.Continue? && AcceptsAudio(pr.track, kindArg)
    requires pr.track.audioFile.Some? && pr.track.audioFile.value != ""
    requires exists i :: 0 <= i < |parts| && parts[i].fieldname == "audioFile"
    ensures var r := UpdateScan(parts, kindArg, pr);
      r.Continue? ==> pr.track.audioFile.value !in r.files
    decreases |parts|
  {
    var next := UpdateStep(parts[0], kindArg, pr.track, pr.files);
    var tail := parts[1..];
    assert UpdateScan(parts, kindArg, pr) == UpdateScan(tail, kindArg, next);
    if next.Continue? && parts[0].fieldname != "audioFile" {
      var i :| 0 <= i < |parts| && parts[i].fieldname == "audioFile";
      assert tail[i - 1] == parts[i];
      UpdateUnlinksOldAudio(tail, kindArg, next);
    }
  }

  /** How the loop of `updateTrack` ends: it runs to the end exactly when no
      part stops it; otherwise, with the loop run up to the first stopping
      part, a cover of the wrong size whose file is then on disk answers 400
      with that file unlinked, and anything else answers 500 with the files as
      they were, less the old audio file when the stopping part is audio. */
  lemma {:induction false} UpdateOutcome(parts: seq<Part>, kindArg: string, pr: Progress)
    requires pr.Continue?
    ensures UpdateScan(parts, kindArg, pr).Continue? <==>
      forall i :: 0 <= i < |parts| ==> !Stops(parts[i], AcceptsAudio(pr.track, kindArg))
    ensures forall j :: FirstStop(parts, AcceptsAudio(pr.track, kindArg), j) ==>
      var mid, r := UpdateScan(parts[..j], kindArg, pr), UpdateScan(parts, kindArg, pr);
      && mid.Continue?
      && (IsBadCover(parts[j]) && parts[j].filename in mid.files ==>
            r == StopBadCover(parts[j].filename, mid.files - {parts[j].filename}))
      && (!(IsBadCover(parts[j]) && parts[j].filename in mid.files) ==>
            r == StopCrash(if parts[j].fieldname == "audioFile" && mid.track.audioFile.Some?
                           then UnlinkIfPresent(mid.track.audioFile.value, mid.files) else mid.files))
    decreases |parts|
  {
    var accepts := AcceptsAudio(pr.track, kindArg);
    if parts != [] {
      var next := UpdateStep(parts[0], kindArg, pr.track, pr.files);
      var tail := parts[1..];
      assert UpdateScan(parts, kindArg, pr) == UpdateScan(tail, kindArg, next);
      assert forall j :: 0 <= j < |tail| ==> tail[j] == parts[j + 1];
      assert parts[..0] == [];
      if next.Continue? {
        assert !Stops(parts[0], accepts);
        assert AcceptsAudio(next.track, kindArg) == accepts;
        UpdateOutcome(tail, kindArg, next);
        forall j | FirstStop(parts, accepts, j)
          ensures j > 0 && FirstStop(tail, accepts, j - 1)
          ensures UpdateScan(parts[..j], kindArg, pr) == UpdateScan(tail[..j - 1], kindArg, next)
        {
          assert parts[..j][0] == parts[0] && parts[..j][1..] == tail[..j - 1];
        }
      } else {
        assert Stops(parts[0], accepts);
        assert FirstStop(parts, accepts, 0);
        forall j | FirstStop(parts, accepts, j) ensures j == 0 {
        }
      }
    }
  }

  /** A later part than part `i` (`-1`: any part) is sent under form field `field`. */
  predicate HasLaterPart(parts: seq<Part>, field: string, i: int) {
    exists k :: 0 <= k < |parts| && i < k && parts[k].fieldname == field
  }

  /** The files the upload loop of an update may unlink, starting from
      document `t`: its cover (never the placeholder) once a cover part comes,
      its audio file once an accepted audio part comes, a wrong-size cover, and
      the file of a cover or accepted audio part that a later part of the same
      field replaces. */
  predicate MayUnlink(parts: seq<Part>, t: Track, accepts: bool, f: string) {
    || (f == t.coverImage && f != Placeholder && HasLaterPart(parts, "coverImage", -1))
    || (t.audioFile == Some(f) && accepts && HasLaterPart(parts, "audioFile", -1))
    || exists i :: 0 <= i < |parts| && Unlinkable(parts, accepts, i) && parts[i].filename == f
  }

  /** Part `i` is a wrong-size cover, or a cover or accepted audio part that
      a later part of the same field replaces. */
  predicate Unlinkable(parts: seq<Part>, accepts: bool, i: int) {
    && 0 <= i < |parts|
    && (|| IsBadCover(parts[i])
        || (parts[i].fieldname == "coverImage" && HasLaterPart(parts, "coverImage", i))
        || (parts[i].fieldname == "audioFile" && accepts && HasLaterPart(parts, "audioFile", i)))
  }

  /** Every file the loop unlinks is one `MayUnlink` allows: in particular it
      never unlinks the cover or audio file it installs last. */
  lemma {:induction false} UpdateUnlinksOnlyKnown(parts: seq<Part>, kindArg: string, pr: Progress)
    requires pr.Continue?
    ensures forall f :: f in pr.files && f !in UpdateScan(parts, kindArg, pr).files ==>
      MayUnlink(parts, pr.track, AcceptsAudio(pr.track, kindArg), f)
    decreases |parts|
  {
    if parts != [] {
      var accepts := AcceptsAudio(pr.track, kindArg);
      var next := UpdateStep(parts[0], kindArg, pr.track, pr.files);
      var tail := parts[1..];
      assert UpdateScan(parts, kindArg, pr) == UpdateScan(tail, kindArg, next);
      assert forall k :: 0 <= k < |tail| ==> tail[k] == parts[k + 1];
      forall f | f in pr.files && f !in UpdateScan(parts, kindArg, pr).files
        ensures MayUnlink(parts, pr.track, accepts, f)
      {
        if f !in next.files {
          if parts[0].fieldname == "coverImage" && !IsBadCover(parts[0]) {
            assert f == pr.track.coverImage && HasLaterPart(parts, "coverImage", -1);
          } else if parts[0].fieldname == "audioFile" {
            assert pr.track.audioFile == Some(f) && HasLaterPart(parts, "audioFile", -1);
          } else {
            assert Unlinkable(parts, accepts, 0) && parts[0].filename == f;
          }
        } else {
          assert next.Continue?;
          assert AcceptsAudio(next.track, kindArg) == accepts;
          UpdateUnlinksOnlyKnown(tail, kindArg, next);
          assert MayUnlink(tail, next.track, accepts, f);
          if f == next.track.coverImage && f != Placeholder && HasLaterPart(tail, "coverImage", -1) {
            var k :| 0 <= k < |tail| && tail[k].fieldname == "coverImage";
            assert parts[k + 1].fieldname == "coverImage";
            if f != pr.track.coverImage {
              assert Unlinkable(parts, accepts, 0) && parts[0].filename == f;
            }
          } else if next.track.audioFile == Some(f) && accepts && HasLaterPart(tail, "audioFile", -1) {
            var k :| 0 <= k < |tail| && tail[k].fieldname == "audioFile";
            assert parts[k + 1].fieldname == "audioFile";
            if pr.track.audioFile != Some(f) {
              assert Unlinkable(parts, accepts, 0) && parts[0].filename == f;
            }
          } else {
            var i :| 0 <= i < |tail| && Unlinkable(tail, accepts, i) && tail[i].filename == f;
            assert parts[i + 1] == tail[i];
            if !IsBadCover(tail[i]) {
              var k :| i < k < |tail| && tail[k].fieldname == tail[i].fieldname;
              assert parts[k + 1].fieldname == parts[i + 1].fieldname;
            }
            assert Unlinkable(parts, accepts, i + 1);
          }
        }
      }
    }
  }

  /** When the loop runs to the end and the parts' file names differ from one
      another and from the document's own files, the last cover and the last
      accepted audio file stay on disk: the document never points at a file
      the update unlinked. */
  lemma UpdateKeepsInstalledFiles(parts: seq<Part>, kindArg: string, pr: Progress)
    requires pr.Continue?
    requires forall i, k :: 0 <= i < k < |parts| ==> parts[i].filename != parts[k].filename
    requires forall i :: 0 <= i < |parts| ==>
               parts[i].filename != pr.track.coverImage && pr.track.audioFile != Some(parts[i].filename)
    ensures var r := UpdateScan(parts, kindArg, pr);
      r.Continue? ==> forall i :: IsLastPart(parts, "coverImage", i) && parts[i].filename in pr.files ==>
        parts[i].filename in r.files
    ensures var r := UpdateScan(parts, kindArg, pr);
      r.Continue? && AcceptsAudio(pr.track, kindArg) ==>
        forall i :: IsLastPart(parts, "audioFile", i) && parts[i].filename in pr.files ==>
          parts[i].filename in r.files
  {
    UpdateOutcome(parts, kindArg, pr);
    UpdateUnlinksOnlyKnown(parts, kindArg, pr);
  }

  /** A wrong-size cover answers 400 whenever its file is on disk when the
      request starts and no earlier unlink can have taken it: it is neither
      the document's cover or audio file nor the file of an earlier part. */
  lemma UpdateRejectsBadCover(parts: seq<Part>, kindArg: string, pr: Progress, j: nat)
    requires pr.Continue? && FirstStop(parts, AcceptsAudio(pr.track, kindArg), j) && IsBadCover(parts[j])
    requires parts[j].filename in pr.files
    requires parts[j].filename != pr.track.coverImage && pr.track.audioFile != Some(parts[j].filename)
    requires forall i :: 0 <= i < j ==> parts[i].filename != parts[j].filename
    ensures UpdateScan(parts, kindArg, pr).StopBadCover?
    ensures UpdateScan(parts, kindArg, pr).rejected == parts[j].filename
    ensures parts[j].filename !in UpdateScan(parts, kindArg, pr).files
  {
    var prefix := parts[..j];
    UpdateOutcome(parts, kindArg, pr);
    UpdateUnlinksOnlyKnown(prefix, kindArg, pr);
    assert forall i :: 0 <= i < |prefix| ==> prefix[i] == parts[i];
  }

  /** Unless the document or the request says Single, the upload loop of an
      update ignores audio parts: every audio path keeps its value, and with no
      cover part either, nothing changes at all. */
  lemma {:induction false} UpdateIgnoresAudioOfAlbums(parts: seq<Part>, kindArg: string, pr: Progress)
    requires pr.Continue? && pr.track.kind != "Single" && kindArg != "Single"
    ensures var r := UpdateScan(parts, kindArg, pr);
      r.Continue? ==>
        && r.track.audioFile == pr.track.audioFile && r.track.fileType == pr.track.fileType
        && r.track.bitrate == pr.track.bitrate && r.track.duration == pr.track.duration
        && r.track.sampleRate == pr.track.sampleRate
    ensures (forall i :: 0 <= i < |parts| ==> parts[i].fieldname != "coverImage") ==>
      UpdateScan(parts, kindArg, pr) == pr
    decreases |parts|
  {
    if parts != [] {
      var next := UpdateStep(parts[0], kindArg, pr.track, pr.files);
      assert parts[0].fieldname != "coverImage" ==> next == pr;
      assert forall i :: 0 <= i < |parts| - 1 ==> parts[1..][i] == parts[i + 1];
      if next.Continue? {
        UpdateIgnoresAudioOfAlbums(parts[1..], kindArg, next);
      }
    }
  }

  /** Every cover the upload loop of an update installs measured 3000×3000. */
  lemma {:induction false} UpdatedCoverIsSquare(parts: seq<Part>, kindArg: string, pr: Progress)
    requires pr.Continue?
    requires pr.track.coverImageDimensions.Some? && IsCoverSize(pr.track.coverImageDimensions.value)
    ensures var r := UpdateScan(parts, kindArg, pr);
      r.Continue? ==> r.track.coverImageDimensions.Some? && IsCoverSize(r.track.coverImageDimensions.value)
    decreases |parts|
  {
    if parts != [] {
      var next := UpdateStep(parts[0], kindArg, pr.track, pr.files);
      assert forall i :: 0 <= i < |parts| - 1 ==> parts[1..][i] == parts[i + 1];
      if next.Continue? {
        UpdatedCoverIsSquare(parts[1..], kindArg, next);
      }
    }
  }
}
