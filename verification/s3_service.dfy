/**
 The object-store client (services/s3_service.py): construction, object-key naming,
 metadata normalisation, the public URL of an uploaded object, and the one-entry-per-file
 result of a batch upload. The clock, uuid generation, `os.path.exists`,
 `mimetypes.guess_type` and the upload call are parameters.
 */
module S3Service {
  import opened Base
  import opened Strings

  const DefaultRegion := "us-east-1"
  const BucketVar := "AWS_S3_BUCKET"
  const S3RegionVar := "AWS_S3_REGION"
  const RegionVar := "AWS_REGION"
  /** The first segment of every object key. */
  const KeyPrefix := "browser-automation"
  /** The `file_type` segment `upload_file` always uses. */
  const DefaultFileType := "media"
  /** The content type used when none can be guessed from the path. */
  const FallbackContentType := "application/octet-stream"
  /** Length of the random suffix taken from the uuid's text. */
  const UidLength := 8

  datatype S3Service = S3Service(region: string, bucket: string)

  datatype ConfigError = MissingBucket | ClientInitFailed(message: string)

  /**
   `S3Service.__init__`: the region is `AWS_S3_REGION`, else `AWS_REGION`, else the
   default (an empty but set variable still wins); the bucket must be set and non-empty.
   */
  function NewS3Service(env: map<string, string>, clientInit: CallOutcome): (r: Result<S3Service, ConfigError>)
    ensures r == Failure(MissingBucket) <==> (BucketVar !in env || env[BucketVar] == "")
    ensures r.Success? <==> (BucketVar in env && env[BucketVar] != "" && clientInit.Completed?)
    ensures r.Success? ==> r.value.bucket == env[BucketVar]
    ensures r.Success? && S3RegionVar in env ==> r.value.region == env[S3RegionVar]
    ensures r.Success? && S3RegionVar !in env && RegionVar in env ==> r.value.region == env[RegionVar]
    ensures r.Success? && S3RegionVar !in env && RegionVar !in env ==> r.value.region == DefaultRegion
  {
    var region := Getenv(env, S3RegionVar, Getenv(env, RegionVar, DefaultRegion));
    if BucketVar !in env || env[BucketVar] == "" then Failure(MissingBucket)
    else match clientInit
      case Raised(e) => Failure(ClientInitFailed(e))
      case Completed => Success(S3Service(region, env[BucketVar]))
  }

  // ---------------------------------------------------------------- file names

  /** The last path component of `stem` holds a character other than '.'. */
  predicate NamedStem(stem: string) {
    exists j :: 0 <= j < |stem| && stem[j] != '.' && '/' !in stem[j..]
  }

  /**
   `os.path.splitext(p)[1]` for POSIX paths: from the last '.' of the last component,
   provided that component has a character other than '.' before it (so ".bashrc" and
   "a/..." have no extension).
   */
  function Extension(p: string): (ext: string)
    ensures ext == "" || (ext[0] == '.' && EndsWith(p, ext))
    ensures forall k :: 1 <= k < |ext| ==> ext[k] != '.' && ext[k] != '/'
    ensures ext != "" ==> NamedStem(p[..|p| - |ext|])
  {
    var sepIndex := LastIndexOf(p, '/');
    var dotIndex := LastIndexOf(p, '.');
    if dotIndex > sepIndex && exists j | sepIndex + 1 <= j < dotIndex :: p[j] != '.' then
      var j :| sepIndex + 1 <= j < dotIndex && p[j] != '.';
      SuffixFromLastDot(p, sepIndex, dotIndex, j);
      p[dotIndex..]
    else ""
  }

  /** The text from the last '.' after the last '/' is a dot- and slash-free suffix behind a named stem. */
  lemma SuffixFromLastDot(p: string, sepIndex: int, dotIndex: int, j: int)
    requires sepIndex == LastIndexOf(p, '/') && dotIndex == LastIndexOf(p, '.')
    requires sepIndex + 1 <= j < dotIndex && p[j] != '.'
    ensures p[dotIndex] == '.' && EndsWith(p, p[dotIndex..])
    ensures forall k :: 1 <= k < |p[dotIndex..]| ==> p[dotIndex..][k] != '.' && p[dotIndex..][k] != '/'
    ensures NamedStem(p[..dotIndex])
  {
    var stem := p[..dotIndex];
    assert stem[j] == p[j];
    assert stem[j..] == p[j..dotIndex];
    assert '/' !in stem[j..];
  }

  /** A name with a named stem, a dot and a dot- and slash-free tail has that tail as extension. */
  lemma ExtensionOfDottedName(stem: string, tail: string)
    requires NamedStem(stem)
    requires '.' !in tail && '/' !in tail
    ensures Extension(stem + "." + tail) == "." + tail
  {
    var p := stem + "." + tail;
    var j :| 0 <= j < |stem| && stem[j] != '.' && '/' !in stem[j..];
    var dotIndex := LastIndexOf(p, '.');
    assert p[|stem|] == '.';
    assert dotIndex == |stem|;
    var sepIndex := LastIndexOf(p, '/');
    assert sepIndex < j;
    assert p[j] == stem[j];
    assert p[dotIndex..] == "." + tail;
  }

  /** `os.path.basename(path)`: the text after the last '/'. */
  function Basename(path: string): (name: string)
    ensures '/' !in name && EndsWith(path, name)
    ensures '/' !in path ==> name == path
    ensures |name| < |path| ==> path[|path| - |name| - 1] == '/'
  {
    path[LastIndexOf(path, '/') + 1..]
  }

  // ---------------------------------------------------------------- object keys

  /**
   The extension of a generated key: the file's own extension, else one inferred from the
   guessed content type (`guess` stands for `mimetypes.guess_type`): `.png` for an image
   type, `.mp4` for a video type, nothing otherwise.
   */
  function InferExtension(filename: string, guess: string -> Option<string>): (ext: string)
    ensures Extension(filename) != "" ==> ext == Extension(filename)
    ensures Extension(filename) == "" ==> ext in {"", ".png", ".mp4"}
    ensures Extension(filename) == "" && ext == ".png" <==>
              Extension(filename) == "" && guess(filename).Some? && Contains(guess(filename).value, "image")
    ensures Extension(filename) == "" && ext == ".mp4" <==>
              Extension(filename) == "" && guess(filename).Some? && !Contains(guess(filename).value, "image")
              && Contains(guess(filename).value, "video")
    ensures '/' !in ext
  {
    var ext := Extension(filename);
    if ext != "" then ext
    else match guess(filename)
      case None => ""
      case Some(contentType) =>
        if contentType == "" then ""
        else if Contains(contentType, "image") then ".png"
        else if Contains(contentType, "video") then ".mp4"
        else ""
  }

  /** No '/' in any of the given strings. */
  predicate SlashFree(parts: seq<string>) {
    forall k :: 0 <= k < |parts| ==> '/' !in parts[k]
  }

  /** A key ends with '/' and its file name, whatever the other segments hold. */
  lemma KeyEndsWithFilename(segments: seq<string>, newFilename: string)
    requires |segments| == 5 && segments[4] == newFilename
    ensures EndsWith(Join(segments, '/'), "/" + newFilename)
  {
    JoinEndsWithSepLast(segments, '/');
    assert ['/'] + segments[4] == "/" + newFilename;
  }

  /**
   `_generate_s3_key`: `browser-automation/{file_type}/{project_id}/{flow_id}/{timestamp}_{uid}{ext}`,
   where `uid` is the first eight characters of the uuid's text; the f-string is the five
   segments joined with '/'. When the inputs hold no '/', splitting the key at '/' gives
   the five segments back.
   */
  function GenerateKey(projectId: string, flowId: string, filename: string, fileType: string,
                       timestamp: string, uuid: string, guess: string -> Option<string>): (key: string)
    ensures StartsWith(key, KeyPrefix + "/")
    ensures EndsWith(key, InferExtension(filename, guess))
    ensures EndsWith(key, "/" + (timestamp + "_" + Take(uuid, UidLength) + InferExtension(filename, guess)))
    ensures SlashFree([fileType, projectId, flowId, timestamp, Take(uuid, UidLength)]) ==>
              Split(key, '/') == [KeyPrefix, fileType, projectId, flowId,
                                  timestamp + "_" + Take(uuid, UidLength) + InferExtension(filename, guess)]
  {
    var uid := Take(uuid, UidLength);
    var ext := InferExtension(filename, guess);
    var newFilename := timestamp + "_" + uid + ext;
    var segments := [KeyPrefix, fileType, projectId, flowId, newFilename];
    KeySegments(segments, timestamp, uid, ext);
    KeyEndsWithFilename(segments, newFilename);
    Join(segments, '/')
  }

  lemma KeySegments(segments: seq<string>, timestamp: string, uid: string, ext: string)
    requires |segments| == 5 && segments[0] == KeyPrefix && segments[4] == timestamp + "_" + uid + ext
    requires '/' !in ext
    ensures StartsWith(Join(segments, '/'), KeyPrefix + "/")
    ensures EndsWith(Join(segments, '/'), ext)
    ensures SlashFree([segments[1], segments[2], segments[3], timestamp, uid]) ==> Split(Join(segments, '/'), '/') == segments
  {
    JoinHead(segments, '/');
    assert KeyPrefix + "/" == segments[0] + ['/'];
    JoinEndsWithLast(segments, '/');
    var last := segments[4];
    assert last[|last| - |ext|..] == ext;
    EndsWithTransitive(Join(segments, '/'), last, ext);
    var parts := [segments[1], segments[2], segments[3], timestamp, uid];
    if SlashFree(parts) {
      assert '/' !in parts[0] && '/' !in parts[1] && '/' !in parts[2] && '/' !in parts[3] && '/' !in parts[4];
      NoSlashInConcat(timestamp, "_", uid, ext);
      assert SlashFree(segments);
      SplitJoin(segments, '/');
    }
  }

  lemma NoSlashInConcat(a: string, b: string, c: string, d: string)
    requires '/' !in a && '/' !in b && '/' !in c && '/' !in d
    ensures '/' !in a + b + c + d
  {
  }

  // ---------------------------------------------------------------- metadata

  /** One character of `key.lower().replace(' ', '_').replace('-', '_')`. */
  function NormalizeChar(ch: char): char {
    var lower := LowerChar(ch);
    if lower == ' ' || lower == '-' then '_' else lower
  }

  /** A key as S3 metadata keys are written: no upper-case letters, spaces or hyphens. */
  predicate IsNormalKey(k: string) {
    forall i :: 0 <= i < |k| ==> !IsUpper(k[i]) && k[i] != ' ' && k[i] != '-'
  }

  /**
   The metadata key normalisation of `upload_file`: lower-cased, spaces and hyphens become
   underscores, every other character is kept in place.
   */
  function NormalizeKey(k: string): (r: string)
    ensures |r| == |k| && IsNormalKey(r)
    ensures forall i :: 0 <= i < |k| && (k[i] == ' ' || k[i] == '-') ==> r[i] == '_'
    ensures forall i :: 0 <= i < |k| && IsUpper(k[i]) ==> r[i] == LowerChar(k[i])
    ensures forall i :: 0 <= i < |k| && !IsUpper(k[i]) && k[i] != ' ' && k[i] != '-' ==> r[i] == k[i]
  {
    seq(|k|, i requires 0 <= i < |k| => NormalizeChar(k[i]))
  }

  /** Normalising a normal key changes nothing. */
  lemma NormalizeKeyIdempotent(k: string)
    ensures NormalizeKey(NormalizeKey(k)) == NormalizeKey(k)
  {
  }

  /**
   The user's metadata after normalisation: each value is stringified (`show` stands for
   Python's `str`); when two keys normalise alike, the later one wins.
   */
  function UserMetadata<V>(user: seq<(string, V)>, show: V -> string): (m: map<string, string>)
    ensures m.Keys == set i | 0 <= i < |user| :: NormalizeKey(user[i].0)
    decreases |user|
  {
    if |user| == 0 then map[]
    else
      var init := UserMetadata(user[..|user| - 1], show);
      var last := user[|user| - 1];
      assert forall i :: 0 <= i < |user| - 1 ==> user[..|user| - 1][i] == user[i];
      init[NormalizeKey(last.0) := show(last.1)]
  }

  /** The value kept for a normalised key is the stringified value of its last writer. */
  lemma {:induction false} UserMetadataLastWins<V>(user: seq<(string, V)>, show: V -> string, i: nat)
    requires i < |user|
    requires forall l :: i < l < |user| ==> NormalizeKey(user[l].0) != NormalizeKey(user[i].0)
    ensures UserMetadata(user, show)[NormalizeKey(user[i].0)] == show(user[i].1)
    decreases |user|
  {
    if i < |user| - 1 {
      var init := user[..|user| - 1];
      assert forall l :: i < l < |init| ==> init[l] == user[l];
      UserMetadataLastWins(init, show, i);
    }
  }

  /** The four keys every upload carries. */
  const DefaultKeys: set<string> := {"project_id", "flow_id", "upload_timestamp", "original_filename"}

  /**
   The object metadata of `upload_file`: the normalised user metadata, then the defaults
   written over it, so the defaults are always present and win over same-named user keys.
   */
  function BuildMetadata<V>(user: seq<(string, V)>, show: V -> string, projectId: string, flowId: string,
                            uploadTimestamp: string, filename: string): (m: map<string, string>)
    ensures m.Keys == UserMetadata(user, show).Keys + DefaultKeys
    ensures m["project_id"] == projectId && m["flow_id"] == flowId
    ensures m["upload_timestamp"] == uploadTimestamp && m["original_filename"] == filename
    ensures forall k :: k in m && k !in DefaultKeys ==> m[k] == UserMetadata(user, show)[k]
    ensures forall k :: k in m && k !in DefaultKeys ==> IsNormalKey(k)
  {
    UserMetadata(user, show) + map["project_id" := projectId, "flow_id" := flowId,
                                   "upload_timestamp" := uploadTimestamp, "original_filename" := filename]
  }

  // ---------------------------------------------------------------- uploading

  /** `mimetypes.guess_type(path)`, or the octet-stream fallback when it gives nothing. */
  function ContentType(path: string, guess: string -> Option<string>): (ct: string)
    ensures ct != ""
    ensures guess(path).Some? && guess(path).value != "" ==> ct == guess(path).value
    ensures guess(path).None? || guess(path).value == "" ==> ct == FallbackContentType
  {
    match guess(path)
    case Some(c) => if c != "" then c else FallbackContentType
    case None => FallbackContentType
  }

  /** The text every public URL of the bucket starts with. */
  function UrlPrefix(svc: S3Service): string {
    "https://" + svc.bucket + ".s3." + svc.region + ".amazonaws.com/"
  }

  /** The public, virtual-hosted-style URL of an object. */
  function PublicUrl(svc: S3Service, key: string): (url: string)
    ensures StartsWith(url, "https://") && EndsWith(url, key)
    ensures StartsWith(url, UrlPrefix(svc))
  {
    var url := "https://" + svc.bucket + ".s3." + svc.region + ".amazonaws.com/" + key;
    assert url == UrlPrefix(svc) + key;
    assert url[..|UrlPrefix(svc)|] == UrlPrefix(svc);
    assert url[..8] == UrlPrefix(svc)[..8];
    assert url[|url| - |key|..] == key;
    url
  }

  /** Reads the object key back from a public URL of the bucket. */
  function KeyOfUrl(svc: S3Service, url: string): Option<string> {
    if StartsWith(url, UrlPrefix(svc)) then Some(url[|UrlPrefix(svc)|..]) else None
  }

  /** A public URL determines its object key: distinct keys never share a URL. */
  lemma KeyOfPublicUrl(svc: S3Service, key: string)
    ensures KeyOfUrl(svc, PublicUrl(svc, key)) == Some(key)
  {
    var url := PublicUrl(svc, key);
    assert url == UrlPrefix(svc) + key;
    assert url[|UrlPrefix(svc)|..] == key;
  }

  /** What one upload hands to the SDK. */
  datatype UploadRequest = UploadRequest(localPath: string, bucket: string, key: string, contentType: string,
                                         metadata: map<string, string>)

  /** The per-call readings of the clock and uuid generator. */
  datatype UploadClock = UploadClock(keyTimestamp: string, uuid: string, isoTimestamp: string)

  /** The request `upload_file` builds for an existing file. */
  function UploadRequestFor<V>(svc: S3Service, path: string, projectId: string, flowId: string,
                               user: seq<(string, V)>, show: V -> string,
                               guess: string -> Option<string>, clock: UploadClock): (r: UploadRequest)
    ensures r.localPath == path && r.bucket == svc.bucket
    ensures r.key == GenerateKey(projectId, flowId, Basename(path), DefaultFileType,
                                 clock.keyTimestamp, clock.uuid, guess)
    ensures r.contentType == ContentType(path, guess)
    ensures r.metadata == BuildMetadata(user, show, projectId, flowId, clock.isoTimestamp, Basename(path))
  {
    var filename := Basename(path);
    UploadRequest(path, svc.bucket,
                  GenerateKey(projectId, flowId, filename, DefaultFileType, clock.keyTimestamp, clock.uuid, guess),
                  ContentType(path, guess),
                  BuildMetadata(user, show, projectId, flowId, clock.isoTimestamp, filename))
  }

  /**
   `upload_file`: None for a path that does not exist or an upload that raised, else the
   object's public URL.
   */
  function UploadFile<V>(svc: S3Service, path: string, projectId: string, flowId: string,
                         user: seq<(string, V)>, show: V -> string,
                         pathExists: string -> bool, guess: string -> Option<string>, clock: UploadClock,
                         upload: UploadRequest -> CallOutcome): (url: Option<string>)
    ensures url.Some? <==> pathExists(path) && upload(UploadRequestFor(svc, path, projectId, flowId, user, show, guess, clock)).Completed?
    ensures url.Some? ==> url.value == PublicUrl(svc, UploadRequestFor(svc, path, projectId, flowId, user, show, guess, clock).key)
    ensures url.Some? ==> url.value != ""
  {
    if !pathExists(path) then None
    else
      var request := UploadRequestFor(svc, path, projectId, flowId, user, show, guess, clock);
      match upload(request)
      case Raised(_) => None
      case Completed => Some(PublicUrl(svc, request.key))
  }

  /** One entry of `upload_multiple_files`; `filename` is absent for a missing file. */
  datatype UploadEntry = UploadEntry(localPath: string, filename: Option<string>, s3Url: Option<string>,
                                     error: Option<string>)

  const FileNotFound := "File not found"
  const UploadFailed := "Upload failed"

  /**
   The entry `upload_multiple_files` records for one path: a missing file is reported
   without an upload attempt; otherwise the file name and the upload's URL, with an error
   exactly when there is no URL.
   */
  function EntryFor<V>(svc: S3Service, path: string, projectId: string, flowId: string,
                       user: seq<(string, V)>, show: V -> string,
                       pathExists: string -> bool, guess: string -> Option<string>,
                       clock: UploadClock, upload: UploadRequest -> CallOutcome): (e: UploadEntry)
    ensures e.localPath == path
    ensures e.error.None? <==> e.s3Url.Some?
    ensures !pathExists(path) ==> e == UploadEntry(path, None, None, Some(FileNotFound))
    ensures pathExists(path) ==> && e.filename == Some(Basename(path))
                                 && e.s3Url == UploadFile(svc, path, projectId, flowId, user, show, pathExists, guess, clock, upload)
                                 && (e.error.Some? ==> e.error.value == UploadFailed)
  {
    if !pathExists(path) then UploadEntry(path, None, None, Some(FileNotFound))
    else
      var url := UploadFile(svc, path, projectId, flowId, user, show, pathExists, guess, clock, upload);
      UploadEntry(path, Some(Basename(path)), url, if url.Some? then None else Some(UploadFailed))
  }

  /**
   `upload_multiple_files`: exactly one entry per input path, in input order, each the
   entry for that path alone, so one file's failure never affects another's entry.
   `clock(i)` are the clock and uuid readings taken while uploading the i-th path.
   */
  method UploadMultipleFiles<V>(svc: S3Service, paths: seq<string>, projectId: string, flowId: string,
                                user: seq<(string, V)>, show: V -> string,
                                pathExists: string -> bool, guess: string -> Option<string>,
                                clock: nat -> UploadClock, upload: UploadRequest -> CallOutcome)
    returns (results: seq<UploadEntry>)
    ensures |results| == |paths|
    ensures forall i :: 0 <= i < |paths| ==> results[i].localPath == paths[i]
    ensures forall i :: 0 <= i < |paths| ==> (results[i].error.None? <==> results[i].s3Url.Some?)
    ensures forall i :: 0 <= i < |paths| ==>
              results[i] == EntryFor(svc, paths[i], projectId, flowId, user, show, pathExists, guess, clock(i), upload)
  {
    results := [];
    var i := 0;
    while i < |paths|
      invariant 0 <= i <= |paths| && |results| == i
      invariant forall j :: 0 <= j < i ==>
                  results[j] == EntryFor(svc, paths[j], projectId, flowId, user, show, pathExists, guess, clock(j), upload)
    {
      var path := paths[i];
      var entry;
      if !pathExists(path) {
        entry := UploadEntry(path, None, None, Some(FileNotFound));
      } else {
        var url := UploadFile(svc, path, projectId, flowId, user, show, pathExists, guess, clock(i), upload);
        entry := UploadEntry(path, Some(Basename(path)), url, if url.Some? then None else Some(UploadFailed));
      }
      results := results + [entry];
      i := i + 1;
    }
  }
}
