/** The Track document of the catalog (`trackSchema` and `contributorSchema`):
    the record every track or album is stored as, the `trim` setter applied to
    its text paths, and the validation `save()` runs before writing it. */
module TrackSchema {
  import opened Wrappers

  /** A store-assigned document id. */
  type Id = nat

  /** A Number, Date or ObjectId path of a document: absent (undefined or null),
      holding a value, or holding something the schema cannot cast to the path's
      type (NaN, an invalid date, a string that is not an ObjectId). An uncastable
      value makes `save()` fail. */
  datatype Field<T> = Unset | Val(value: T) | Uncastable

  datatype Contributor = Contributor(name: string, role: string)

  datatype Dimensions = Dimensions(width: int, height: int)

  /** One stored document. A String path left empty is the empty string; the
      audio paths an Album never receives are `None` or `Unset`. */
  datatype Track = Track(
    id: Id,
    title: string,
    kind: string,            // the `type` path
    genre: string,
    contributors: seq<Contributor>,
    listenCount: Field<int>,
    publishDate: Field<int>,
    releaseDate: Field<int>,
    coverImage: string,
    coverImageDimensions: Option<Dimensions>,
    audioFile: Option<string>,
    bitrate: Field<int>,
    duration: Field<int>,
    sampleRate: Field<int>,
    fileType: Option<string>,
    album: Field<Id>,
    trackNumber: Field<int>,
    createdAt: int,
    updatedAt: int)

  const Placeholder: string := "placeholder-image.svg"

  const KindNames: set<string> := {"Single", "Album"}

  const RoleNames: set<string> :=
    {"Artist", "Producer", "Composer", "Lyricist", "Arranger", "Engineer", "Performer", "Writer", "Other"}

  // ---------------------------------------------------------------------------
  // The `trim: true` setter (String.prototype.trim)

  /** The characters String.prototype.trim removes: WhiteSpace and LineTerminator. */
  predicate IsTrimmable(c: char) {
    c == '\t' || c == '\n' || c == '\U{000B}' || c == '\U{000C}' || c == '\r' || c == ' '
    || c == '\U{00A0}' || c == '\U{1680}' || ('\U{2000}' <= c <= '\U{200A}')
    || c == '\U{2028}' || c == '\U{2029}' || c == '\U{202F}' || c == '\U{205F}'
    || c == '\U{3000}' || c == '\U{FEFF}'
  }

  /** The number of trimmable characters at the front of `s`. */
  function LeadingSpace(s: string): (k: nat)
    ensures k <= |s|
    ensures forall i :: 0 <= i < k ==> IsTrimmable(s[i])
    ensures k == |s| || !IsTrimmable(s[k])
  {
    if s != [] && IsTrimmable(s[0]) then 1 + LeadingSpace(s[1..]) else 0
  }

  /** The number of trimmable characters at the back of `s`. */
  function TrailingSpace(s: string): (k: nat)
    ensures k <= |s|
    ensures forall i :: |s| - k <= i < |s| ==> IsTrimmable(s[i])
    ensures k == |s| || !IsTrimmable(s[|s| - 1 - k])
  {
    if s != [] && IsTrimmable(s[|s| - 1]) then 1 + TrailingSpace(s[..|s| - 1]) else 0
  }

  function Trim(s: string): (r: string)
    ensures r == "" || (!IsTrimmable(r[0]) && !IsTrimmable(r[|r| - 1]))
    ensures r == "" <==> forall i :: 0 <= i < |s| ==> IsTrimmable(s[i])
  {
    var front := s[LeadingSpace(s)..];
    front[..|front| - TrailingSpace(front)]
  }

  /** Trimming is idempotent, so a value the setter has already trimmed is stored unchanged. */
  lemma TrimIdempotent(s: string)
    ensures Trim(Trim(s)) == Trim(s)
  {
    var t := Trim(s);
    assert LeadingSpace(t) == 0;
    assert TrailingSpace(t) == 0;
  }

  /** Trimming removes only trimmable characters from the two ends: `s` is
      `Trim(s)` with trimmable characters before and after. */
  lemma TrimIsInfix(s: string)
    ensures exists a, b ::
              && 0 <= a <= b <= |s| && Trim(s) == s[a..b]
              && (forall i :: 0 <= i < a ==> IsTrimmable(s[i]))
              && (forall i :: b <= i < |s| ==> IsTrimmable(s[i]))
  {
    var a := LeadingSpace(s);
    var front := s[a..];
    var b := a + |front| - TrailingSpace(front);
    assert Trim(s) == s[a..b];
    forall i | b <= i < |s| ensures IsTrimmable(s[i]) {
      assert s[i] == front[i - a];
    }
  }

  /** `trim: true` on the contributor subdocuments' `name`. */
  function TrimNames(cs: seq<Contributor>): (r: seq<Contributor>)
    ensures |r| == |cs|
    ensures forall i :: 0 <= i < |cs| ==> r[i] == cs[i].(name := Trim(cs[i].name))
  {
    seq(|cs|, i requires 0 <= i < |cs| => cs[i].(name := Trim(cs[i].name)))
  }

  /** The text paths hold what the `trim` setters leave: title, genre and every contributor name. */
  predicate Normalized(t: Track) {
    && Trim(t.title) == t.title
    && Trim(t.genre) == t.genre
    && forall i :: 0 <= i < |t.contributors| ==> Trim(t.contributors[i].name) == t.contributors[i].name
  }

  lemma TrimNamesNormalized(cs: seq<Contributor>)
    ensures forall i :: 0 <= i < |cs| ==> Trim(TrimNames(cs)[i].name) == TrimNames(cs)[i].name
  {
    forall i | 0 <= i < |cs| ensures Trim(TrimNames(cs)[i].name) == TrimNames(cs)[i].name {
      TrimIdempotent(cs[i].name);
    }
  }

  // ---------------------------------------------------------------------------
  // Validation

  /** Mongoose's `required` check on a String path: present and not the empty string. */
  predicate RequiredString(s: Option<string>) {
    s.Some? && s.value != ""
  }

  predicate Castable<T>(f: Field<T>) {
    !f.Uncastable?
  }

  predicate ValidContributor(c: Contributor) {
    c.name != "" && c.role in RoleNames
  }

  /** The `required` function of `coverImageDimensions.width` and `.height`. */
  predicate NeedsCoverDimensions(t: Track) {
    t.coverImage != "" && t.coverImage != Placeholder
  }

  /** The `required` function of the five audio paths. */
  predicate NeedsAudio(t: Track) {
    t.kind == "Single"
  }

  predicate AllCastable(t: Track) {
    && Castable(t.listenCount) && Castable(t.publishDate) && Castable(t.releaseDate)
    && Castable(t.bitrate) && Castable(t.duration) && Castable(t.sampleRate)
    && Castable(t.album) && Castable(t.trackNumber)
  }

  predicate HasAudio(t: Track) {
    && RequiredString(t.audioFile)
    && t.bitrate.Val? && t.duration.Val? && t.sampleRate.Val?
    && RequiredString(t.fileType)
  }

  /** What `save()` checks: the required and enum paths, every cast, and the two
      conditional requirements. */
  predicate ValidTrack(t: Track) {
    && t.title != ""
    && t.kind in KindNames
    && t.genre != ""
    && (forall i :: 0 <= i < |t.contributors| ==> ValidContributor(t.contributors[i]))
    && AllCastable(t)
    && (NeedsCoverDimensions(t) ==> t.coverImageDimensions.Some?)
    && (NeedsAudio(t) ==> HasAudio(t))
  }

  /** The audio paths are required exactly for a Single: a Single lacking any of
      them is rejected, and an Album's validity does not depend on them beyond
      the casts every Number path must pass. */
  lemma AudioRequiredExactlyForSingles(t: Track)
    ensures t.kind == "Single" && !HasAudio(t) ==> !ValidTrack(t)
    ensures t.kind == "Album" && Castable(t.bitrate) && Castable(t.duration) && Castable(t.sampleRate) ==>
      (ValidTrack(t) <==> ValidTrack(t.(audioFile := None, bitrate := Unset, duration := Unset,
                                         sampleRate := Unset, fileType := None)))
  {
    var u := t.(audioFile := None, bitrate := Unset, duration := Unset, sampleRate := Unset, fileType := None);
    assert u.contributors == t.contributors && u.kind == t.kind && u.coverImage == t.coverImage;
  }

  /** The cover dimensions are required exactly for a real upload: without them
      a real cover is rejected, while an empty or placeholder cover validates
      whether or not they are present. */
  lemma CoverDimensionsRequiredExactlyForUploads(t: Track)
    ensures NeedsCoverDimensions(t) && t.coverImageDimensions.None? ==> !ValidTrack(t)
    ensures !NeedsCoverDimensions(t) ==>
      (ValidTrack(t) <==> ValidTrack(t.(coverImageDimensions := None)))
  {
    var u := t.(coverImageDimensions := None);
    assert u.contributors == t.contributors && u.kind == t.kind && u.coverImage == t.coverImage;
  }

  /** `album`, `trackNumber` and `releaseDate` are optional: clearing them keeps a valid document valid. */
  lemma OptionalPaths(t: Track)
    requires ValidTrack(t)
    ensures ValidTrack(t.(album := Unset, trackNumber := Unset, releaseDate := Unset))
  {
  }

  /** A contributor list passes only if every entry has a name and one of the nine roles. */
  lemma ContributorRoles(t: Track, i: nat)
    requires ValidTrack(t) && i < |t.contributors|
    ensures t.contributors[i].name != ""
    ensures t.contributors[i].role in RoleNames
  {
  }

  /** The schema defaults, applied by the document constructor to paths left undefined. */
  function WithDefaults(t: Track, now: int): (r: Track)
    ensures r.listenCount == (if t.listenCount.Unset? then Val(0) else t.listenCount)
    ensures r.publishDate == (if t.publishDate.Unset? then Val(now) else t.publishDate)
    ensures r.(listenCount := t.listenCount, publishDate := t.publishDate) == t
  {
    t.(listenCount := if t.listenCount.Unset? then Val(0) else t.listenCount,
       publishDate := if t.publishDate.Unset? then Val(now) else t.publishDate)
  }

  /** Applying the defaults twice changes nothing, and they keep a valid document valid. */
  lemma WithDefaultsStable(t: Track, now: int, later: int)
    ensures WithDefaults(WithDefaults(t, now), later) == WithDefaults(t, now)
    ensures ValidTrack(t) ==> ValidTrack(WithDefaults(t, now))
  {
  }
}
