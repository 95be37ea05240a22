/** The upload gate (multer configuration): where uploaded files are stored and
    under which generated name, the two MIME-type filters, and the three upload
    instances with their per-file size limits. */
module Upload {
  import opened Wrappers

  /** Every uploaded part is written into this directory; the catalog records
      only the generated file name, relative to it. */
  const UploadDir: string := "uploads/"

  const MiB: nat := 1024 * 1024

  /** `Math.round(Math.random() * 1E9)` lies in 0 .. 10^9. */
  const RandomSuffixMax: nat := 1_000_000_000

  const AudioMimeTypes: set<string> := {"audio/mpeg", "audio/flac", "audio/wav", "audio/aac"}
  const ImageMimeTypes: set<string> := {"image/jpeg", "image/png", "image/jpg"}

  const AudioFilterMessage: string := "Only audio files (mp3, flac, wav, aac) are allowed"
  const ImageFilterMessage: string := "Only image files (jpeg, png, jpg) are allowed"

  // ---------------------------------------------------------------------------
  // Storage: destination and generated file name

  /** The `destination` callback: the same directory whatever the request or the file. */
  function Destination(fieldname: string, originalname: string): (dir: string)
    ensures dir == UploadDir
  {
    "uploads/"
  }

  predicate IsDigit(c: char) {
    '0' <= c <= '9'
  }

  function DigitChar(d: nat): (c: char)
    requires d < 10
    ensures IsDigit(c) && c as int - '0' as int == d
  {
    "0123456789"[d]
  }

  /** A number as JavaScript's string concatenation writes it: decimal, no leading zero. */
  function Decimal(n: nat): (s: string)
    ensures |s| >= 1
    ensures forall i :: 0 <= i < |s| ==> IsDigit(s[i])
  {
    if n < 10 then [DigitChar(n)] else Decimal(n / 10) + [DigitChar(n % 10)]
  }

  function DigitValue(c: char): nat
    requires IsDigit(c)
  {
    c as int - '0' as int
  }

  /** The value of a string of decimal digits. */
  function DecimalValue(s: string): nat
    requires forall i :: 0 <= i < |s| ==> IsDigit(s[i])
  {
    if s == [] then 0 else DecimalValue(s[..|s| - 1]) * 10 + DigitValue(s[|s| - 1])
  }

  lemma {:induction false} DecimalRoundTrip(n: nat)
    ensures DecimalValue(Decimal(n)) == n
  {
    if n >= 10 {
      var s := Decimal(n);
      assert s[..|s| - 1] == Decimal(n / 10);
      DecimalRoundTrip(n / 10);
    }
  }

  function LastIndexOf(s: string, c: char): (r: Option<nat>)
    ensures r.Some? ==> r.value < |s| && s[r.value] == c && forall i :: r.value < i < |s| ==> s[i] != c
    ensures r.None? ==> forall i :: 0 <= i < |s| ==> s[i] != c
  {
    if s == [] then None
    else if s[|s| - 1] == c then Some(|s| - 1)
    else LastIndexOf(s[..|s| - 1], c)
  }

  function StripTrailingSlashes(p: string): (q: string)
    ensures |q| <= |p| && q == p[..|q|]
    ensures q == "" || q[|q| - 1] != '/'
  {
    if p != [] && p[|p| - 1] == '/' then StripTrailingSlashes(p[..|p| - 1]) else p
  }

  /** The last component of a path, trailing slashes ignored. */
  function Basename(p: string): (b: string)
    ensures forall i :: 0 <= i < |b| ==> b[i] != '/'
  {
    var q := StripTrailingSlashes(p);
    match LastIndexOf(q, '/')
    case None => q
    case Some(k) => q[k + 1..]
  }

  /** `path.extname` (POSIX): from the last dot of the last component to its end;
      empty when that component has no dot, starts with its only leading dot,
      or is `..`. */
  function Extname(p: string): (e: string)
    ensures e == "" || (e[0] == '.' && forall i :: 1 <= i < |e| ==> e[i] != '.' && e[i] != '/')
    ensures var b := Basename(p);
      e != "" ==> |e| <= |b| && LastIndexOf(b, '.') == Some(|b| - |e|) && e == b[|b| - |e|..]
    ensures var b := Basename(p);
      e == "" <==> LastIndexOf(b, '.') in {None, Some(0)} || b == ".."
  {
    var b := Basename(p);
    match LastIndexOf(b, '.')
    case None => ""
    case Some(k) => if k == 0 || b == ".." then "" else b[k..]
  }

  /** The `filename` callback: `fieldname-timestamp-random` followed by the
      original name's extension. */
  function GeneratedFilename(fieldname: string, timestamp: nat, random: nat, originalname: string): (name: string)
    requires random <= RandomSuffixMax
    ensures |name| > |fieldname| && name[..|fieldname| + 1] == fieldname + "-"
  {
    fieldname + "-" + Decimal(timestamp) + "-" + Decimal(random) + Extname(originalname)
  }

  /** The length of the run of digits at the front of `s`. */
  function DigitRun(s: string): (k: nat)
    ensures k <= |s|
    ensures forall i :: 0 <= i < k ==> IsDigit(s[i])
    ensures k == |s| || !IsDigit(s[k])
  {
    if s != [] && IsDigit(s[0]) then 1 + DigitRun(s[1..]) else 0
  }

  /** The number written by the run of digits at the front of `s`, and what follows it. */
  function SplitNumber(s: string): Option<(nat, string)>
  {
    var k := DigitRun(s);
    if k == 0 then None else Some((DecimalValue(s[..k]), s[k..]))
  }

  /** Reads a generated name back: the timestamp, the random suffix and the extension. */
  function SplitGeneratedName(fieldname: string, name: string): Option<(nat, nat, string)>
  {
    var head := fieldname + "-";
    if |name| < |head| || name[..|head|] != head then None
    else
      match SplitNumber(name[|head|..])
      case None => None
      case Some((timestamp, rest)) =>
        if rest == [] || rest[0] != '-' then None
        else
          match SplitNumber(rest[1..])
          case None => None
          case Some((random, ext)) => Some((timestamp, random, ext))
  }

  lemma SplitNumberOfDecimal(n: nat, rest: string)
    requires rest == [] || !IsDigit(rest[0])
    ensures SplitNumber(Decimal(n) + rest) == Some((n, rest))
  {
    var d := Decimal(n);
    var s := d + rest;
    assert forall i :: 0 <= i < |d| ==> s[i] == d[i];
    assert rest != [] ==> s[|d|] == rest[0];
    assert DigitRun(s) == |d|;
    assert s[..|d|] == d && s[|d|..] == rest;
    DecimalRoundTrip(n);
  }

  /** The generated name determines the timestamp, the random suffix and the
      extension it was built from. */
  lemma GeneratedNameRoundTrip(fieldname: string, timestamp: nat, random: nat, originalname: string)
    requires random <= RandomSuffixMax
    ensures SplitGeneratedName(fieldname, GeneratedFilename(fieldname, timestamp, random, originalname))
            == Some((timestamp, random, Extname(originalname)))
  {
    var name := GeneratedFilename(fieldname, timestamp, random, originalname);
    var ext := Extname(originalname);
    var rest := "-" + (Decimal(random) + ext);
    GeneratedNameShape(fieldname, timestamp, random, originalname);
    SplitNumberOfDecimal(timestamp, rest);
    SplitNumberOfDecimal(random, ext);
    assert rest[1..] == Decimal(random) + ext;
    SplitGeneratedNameOf(fieldname, name, timestamp, random, rest, ext);
  }

  /** A generated name is the field name and a dash, then the timestamp's digits and what follows them. */
  lemma GeneratedNameShape(fieldname: string, timestamp: nat, random: nat, originalname: string)
    requires random <= RandomSuffixMax
    ensures var name := GeneratedFilename(fieldname, timestamp, random, originalname);
      && |name| >= |fieldname| + 1 && name[..|fieldname| + 1] == fieldname + "-"
      && name[|fieldname| + 1..] == Decimal(timestamp) + ("-" + (Decimal(random) + Extname(originalname)))
  {
    SplitAfterHead(fieldname + "-", Decimal(timestamp), "-", Decimal(random), Extname(originalname));
  }

  lemma SplitAfterHead(a: string, b: string, c: string, d: string, e: string)
    ensures var s := a + b + c + d + e;
      |s| >= |a| && s[..|a|] == a && s[|a|..] == b + (c + (d + e))
  {
    var s := a + b + c + d + e;
    assert s == a + (b + (c + (d + e)));
  }

  /** How `SplitGeneratedName` reads a name whose two numbers have been read. */
  lemma SplitGeneratedNameOf(fieldname: string, name: string, timestamp: nat, random: nat, rest: string, ext: string)
    requires |name| >= |fieldname| + 1 && name[..|fieldname| + 1] == fieldname + "-"
    requires SplitNumber(name[|fieldname| + 1..]) == Some((timestamp, rest))
    requires rest != [] && rest[0] == '-'
    requires SplitNumber(rest[1..]) == Some((random, ext))
    ensures SplitGeneratedName(fieldname, name) == Some((timestamp, random, ext))
  {
  }

  /** Two files uploaded under the same field get different names unless both
      the timestamp and the random suffix coincide. */
  lemma GeneratedNamesDistinct(fieldname: string, t1: nat, r1: nat, o1: string, t2: nat, r2: nat, o2: string)
    requires r1 <= RandomSuffixMax && r2 <= RandomSuffixMax
    requires t1 != t2 || r1 != r2
    ensures GeneratedFilename(fieldname, t1, r1, o1) != GeneratedFilename(fieldname, t2, r2, o2)
  {
    GeneratedNameRoundTrip(fieldname, t1, r1, o1);
    GeneratedNameRoundTrip(fieldname, t2, r2, o2);
  }

  // ---------------------------------------------------------------------------
  // File filters

  /** What a `fileFilter` passes to its callback: an error or null, and whether to keep the file. */
  datatype FilterDecision = FilterDecision(error: Option<string>, accept: bool)

  function AudioFileFilter(mimetype: string): (d: FilterDecision)
    ensures d.accept <==> mimetype in AudioMimeTypes
    ensures d.accept ==> d.error.None?
    ensures !d.accept ==> d.error == Some(AudioFilterMessage)
  {
    if mimetype == "audio/mpeg" || mimetype == "audio/flac" || mimetype == "audio/wav" || mimetype == "audio/aac"
    then FilterDecision(None, true)
    else FilterDecision(Some(AudioFilterMessage), false)
  }

  function ImageFileFilter(mimetype: string): (d: FilterDecision)
    ensures d.accept <==> mimetype in ImageMimeTypes
    ensures d.accept ==> d.error.None?
    ensures !d.accept ==> d.error == Some(ImageFilterMessage)
  {
    if mimetype == "image/jpeg" || mimetype == "image/png" || mimetype == "image/jpg"
    then FilterDecision(None, true)
    else FilterDecision(Some(ImageFilterMessage), false)
  }

  /** No file passes both filters, and neither filter ever skips a file silently:
      a rejection always carries an error. */
  lemma FiltersDisjointAndLoud(mimetype: string)
    ensures !(AudioFileFilter(mimetype).accept && ImageFileFilter(mimetype).accept)
    ensures AudioFileFilter(mimetype).accept <==> AudioFileFilter(mimetype).error.None?
    ensures ImageFileFilter(mimetype).accept <==> ImageFileFilter(mimetype).error.None?
  {
  }

  // ---------------------------------------------------------------------------
  // The three upload instances

  datatype FileFilter = AudioOnly | ImageOnly | AnyFile

  datatype UploadConfig = UploadConfig(filter: FileFilter, fileSizeLimit: nat)

  const UploadAudio: UploadConfig := UploadConfig(AudioOnly, 100 * MiB)
  const UploadImage: UploadConfig := UploadConfig(ImageOnly, 10 * MiB)
  /** The instance the track routes use: no filter, so any MIME type is accepted. */
  const UploadMixed: UploadConfig := UploadConfig(AnyFile, 100 * MiB)

  /** An incoming file part as multer sees it. */
  datatype IncomingFile = IncomingFile(fieldname: string, originalname: string, mimetype: string, size: nat)

  /** What multer hands to its completion callback: one of its own errors, or
      the plain Error raised by a file filter. */
  datatype UploadError = MulterError(code: string, message: string) | PlainError(message: string)

  const LimitFileSizeCode: string := "LIMIT_FILE_SIZE"

  function Filter(f: FileFilter, mimetype: string): FilterDecision {
    match f
    case AudioOnly => AudioFileFilter(mimetype)
    case ImageOnly => ImageFileFilter(mimetype)
    case AnyFile => FilterDecision(None, true)
  }

  /** One file through an upload instance: the filter first, then the size limit. */
  function Screen(cfg: UploadConfig, file: IncomingFile): (err: Option<UploadError>)
    ensures err.None? <==> Filter(cfg.filter, file.mimetype).accept && file.size <= cfg.fileSizeLimit
    ensures err.Some? && err.value.MulterError? <==>
              Filter(cfg.filter, file.mimetype).accept && file.size > cfg.fileSizeLimit
    ensures err.Some? && err.value.MulterError? ==> err.value.code == LimitFileSizeCode
  {
    var d := Filter(cfg.filter, file.mimetype);
    if !d.accept then Some(PlainError(d.error.GetOr("")))
    else if file.size > cfg.fileSizeLimit then Some(MulterError(LimitFileSizeCode, "File too large"))
    else None
  }

  /** A whole request through an upload instance: the error of the first file that fails, if any. */
  function ScreenAll(cfg: UploadConfig, files: seq<IncomingFile>): (err: Option<UploadError>)
    ensures err.None? <==> forall i :: 0 <= i < |files| ==> Screen(cfg, files[i]).None?
    ensures err.Some? ==> exists i :: 0 <= i < |files| && err == Screen(cfg, files[i])
                                      && forall j :: 0 <= j < i ==> Screen(cfg, files[j]).None?
  {
    if files == [] then None
    else if Screen(cfg, files[0]).Some? then Screen(cfg, files[0])
    else
      var e := ScreenAll(cfg, files[1..]);
      assert forall i :: 1 <= i < |files| ==> files[i] == files[1..][i - 1];
      e
  }

  /** The mixed instance rejects a file only for its size: every MIME type passes,
      and any file above 100 MiB fails with LIMIT_FILE_SIZE. */
  lemma MixedChecksOnlySize(file: IncomingFile)
    ensures Screen(UploadMixed, file).None? <==> file.size <= 100 * 1024 * 1024
    ensures Screen(UploadMixed, file).Some? ==> Screen(UploadMixed, file) == Some(MulterError(LimitFileSizeCode, "File too large"))
  {
  }

  /** The audio instance keeps exactly the four audio types up to 100 MiB, the
      image instance exactly the three image types up to 10 MiB; a file of
      another type fails with the filter's message, whatever its size. */
  lemma AudioAndImageScreens(file: IncomingFile)
    ensures Screen(UploadAudio, file).None? <==> file.mimetype in AudioMimeTypes && file.size <= 104857600
    ensures file.mimetype !in AudioMimeTypes ==> Screen(UploadAudio, file) == Some(PlainError(AudioFilterMessage))
    ensures Screen(UploadImage, file).None? <==> file.mimetype in ImageMimeTypes && file.size <= 10485760
    ensures file.mimetype !in ImageMimeTypes ==> Screen(UploadImage, file) == Some(PlainError(ImageFilterMessage))
  {
  }
}
