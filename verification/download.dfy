/** Downloading one file: the state functions that mutate a Response until it is closed, against an arbitrary file system,
    server and canceller. */
module Download {
  import opened Wrappers

  type byte = b: int | 0 <= b < 256

  // ---------------------------------------------------------------- the outside world

  datatype Entry = Regular(content: seq<byte>) | Directory

  datatype Error = FileError | HttpError | StatusCode(code: int) | BadLength | NoFilename | BadChecksum | HookError
    | Cancelled | LimiterError | ReadError | WriteError | ShortWrite

  /** One Read of a response body: some bytes, possibly fewer than asked for, and whether the body ended or broke. */
  datatype Status = More | Eof | Broken
  datatype ReadResult = ReadResult(data: seq<byte>, status: Status)

  datatype Verb = HEAD | GET | Other(name: string)

  datatype HttpResponse = HttpResponse(
    verb: Verb,            // of the request it answers
    statusCode: int,
    contentLength: int,         // -1 when unknown
    acceptRanges: bool,
    filename: Option<string>,   // what guessFilename makes of it
    body: seq<ReadResult>)

  /** The bytes a body delivers before it ends. */
  function Delivered(body: seq<ReadResult>): seq<byte> {
    if body == [] then [] else body[0].data + if body[0].status.More? then Delivered(body[1..]) else []
  }

  /** A body that ends in an end of file; an exhausted one does. */
  predicate EndsWell(body: seq<ReadResult>) {
    body == [] || body[0].status.Eof? || (body[0].status.More? && EndsWell(body[1..]))
  }

  /** A body breaks exactly when its reads fail before one ends it. */
  lemma {:induction false} EndsWellIff(body: seq<ReadResult>)
    ensures EndsWell(body) <==>
            forall i :: 0 <= i < |body| && body[i].status.Broken? ==> exists j :: 0 <= j < i && body[j].status.Eof?
  {
    if body != [] && body[0].status.More? {
      var rest := body[1..];
      EndsWellIff(rest);
      if EndsWell(rest) {
        forall i | 0 <= i < |body| && body[i].status.Broken?
          ensures exists j :: 0 <= j < i && body[j].status.Eof?
        {
          assert rest[i - 1].status.Broken?;
          var j :| 0 <= j < i - 1 && rest[j].status.Eof?;
          assert body[j + 1].status.Eof?;
        }
      } else {
        var i :| 0 <= i < |rest| && rest[i].status.Broken? && forall j :: 0 <= j < i ==> !rest[j].status.Eof?;
        assert body[i + 1].status.Broken?;
        forall j | 0 <= j < i + 1
          ensures !body[j].status.Eof?
        {
          if j > 0 {
            assert !rest[j - 1].status.Eof?;
          }
        }
      }
    }
  }

  /** The response delivers content, or the part of it from the requested offset on, or the start of that if it breaks. */
  predicate Serves(content: seq<byte>, range: Option<nat>, r: HttpResponse) {
    var offset := if range.Some? then range.value else 0;
    offset <= |content| ==>
      && Delivered(r.body) <= content[offset..]
      && (EndsWell(r.body) ==> Delivered(r.body) == content[offset..])
  }

  /** content after writing data at pos. */
  function Put(content: seq<byte>, pos: nat, data: seq<byte>): seq<byte>
    requires pos <= |content|
  {
    content[..pos] + data + if pos + |data| <= |content| then content[pos + |data|..] else []
  }

  type Files = map<string, Entry>

  predicate IsRegular(files: Files, path: string) {
    path in files && files[path].Regular?
  }

  predicate IsDirectory(files: Files, path: string) {
    path in files && files[path].Directory?
  }

  /** The content found at path when the download started. */
  function LocalContent(files: Files, path: string): seq<byte> {
    if IsRegular(files, path) then files[path].content else []
  }

  /** The path up to its last slash. */
  function UpToSlash(path: string): string {
    if path == "" || path[|path| - 1] == '/' then path else UpToSlash(path[..|path| - 1])
  }

  /** filepath.Dir of a clean path. */
  function Dir(path: string): string {
    var up := UpToSlash(path);
    if up == "" then "." else if |up| == 1 then up else up[..|up| - 1]
  }

  /** filepath.Join of clean paths. */
  function Join(directory: string, name: string): string {
    if directory == "" || directory == "/" then directory + name else directory + "/" + name
  }

  lemma {:induction false} UpToSlashOf(directory: string, name: string)
    requires '/' !in name && (directory == "" || directory[|directory| - 1] == '/')
    ensures UpToSlash(directory + name) == directory
  {
    if name == "" {
      assert directory + name == directory;
    } else {
      var path, n := directory + name, |name| - 1;
      assert path[|path| - 1] == name[n] && path[..|path| - 1] == directory + name[..n];
      UpToSlashOf(directory, name[..n]);
    }
  }

  lemma JoinDir(directory: string, name: string)
    requires '/' !in name
    ensures Dir(name) == "." && Dir("/" + name) == "/" && (directory != "" ==> Dir(directory + "/" + name) == directory)
    ensures Dir(Join(directory, name)) == if directory == "" then "." else directory
  {
    UpToSlashOf("", name);
    assert "" + name == name;
    UpToSlashOf("/", name);
    UpToSlashOf(directory + "/", name);
  }

  /** A file name is the last element of a path. */
  predicate IsBase(name: string) {
    name != "" && '/' !in name
  }

  /** Why a path cannot be opened for writing. */
  predicate CannotOpen(files: Files, path: string, mode: Mode) {
    IsDirectory(files, path) || (path !in files && (mode != Create || !IsDirectory(files, Dir(path))))
  }

  /** A directory that is not empty cannot be removed. */
  predicate CannotRemove(files: Files, path: string) {
    exists other :: other in files && other != path && Dir(other) == path
  }

  /** Everything lies in a directory. */
  predicate Tree(files: Files) {
    forall path :: path in files ==> IsDirectory(files, Dir(path))
  }

  class World {
    var files: Files
    const answers: (Verb, Option<nat>) -> Option<HttpResponse>  // to a request with that verb and Range
    const hash: seq<byte> -> seq<byte>
    const calm: bool                   // nothing fails by itself and nobody cancels

    constructor (files: Files, answers: (Verb, Option<nat>) -> Option<HttpResponse>, hash: seq<byte> -> seq<byte>, calm: bool)
      ensures this.files == files && this.answers == answers && this.hash == hash && this.calm == calm
    {
      this.files, this.answers, this.hash, this.calm := files, answers, hash, calm;
    }

    /** Whether the context is done; once it is anything may happen, so each poll is free. */
    method Poll() returns (done: bool)
      ensures calm ==> !done
    {
      done := *;
      done := done && !calm;
    }

    /** Calls whose failure is up to the outside. */
    method MayFail(error: Error) returns (err: Option<Error>)
      ensures err.None? || err == Some(error)
      ensures calm ==> err.None?
    {
      var fails: bool := *;
      err := if fails && !calm then Some(error) else None;
    }

    /** Opens path for writing; failing leaves it alone. */
    method OpenFile(path: string, mode: Mode) returns (err: Option<Error>)
      modifies this`files
      ensures err.Some? ==> files == old(files) && err == Some(FileError)
      ensures err.None? ==> !CannotOpen(old(files), path, mode)
      ensures err.None? ==> files == old(files)[path := Regular(Opened(mode, LocalContent(old(files), path)))]
      ensures calm && err.Some? ==> CannotOpen(files, path, mode)
    {
      err := MayFail(FileError);
      if err.Some? {
        return;
      }
      if CannotOpen(files, path, mode) {
        return Some(FileError);
      }
      files := files[path := Regular(Opened(mode, LocalContent(files, path)))];
    }

    /** Writes at offset some of data, possibly less than asked for. */
    method Write(path: string, offset: nat, data: seq<byte>) returns (n: nat, failed: bool)
      requires IsRegular(files, path) && offset <= |files[path].content|
      modifies this`files
      ensures n <= |data|
      ensures files == old(files)[path := Regular(Put(old(files[path].content), offset, data[..n]))]
      ensures calm ==> n == |data| && !failed
    {
      var some: int := *;
      n := if 0 <= some < |data| && !calm then some else |data|;
      failed := *;
      failed := failed && !calm;
      files := files[path := Regular(Put(files[path].content, offset, data[..n]))];
    }

    /** What hashing an entry gives; reading a directory fails. */
    function Sum(entry: Entry): seq<byte> {
      if entry.Regular? then hash(entry.content) else []
    }

    /** The checksum of what is at path. An error of reading it is lost, and the sum is then empty. */
    method Checksum(path: string) returns (sum: seq<byte>, err: Option<Error>)
      ensures err.None? || err == Some(FileError)
      ensures err.None? ==> path in files && (sum == [] || sum == Sum(files[path]))
      ensures calm && path in files ==> err.None? && sum == Sum(files[path])
    {
      sum := [];
      err := MayFail(FileError);
      if err.Some? || path !in files {
        return [], Some(FileError);
      }
      var broken := MayFail(ReadError);
      if broken.None? {
        sum := Sum(files[path]);
      }
      err := MayFail(FileError);
    }

    /** Removes what is at path. */
    method Remove(path: string) returns (err: Option<Error>)
      requires path in files
      modifies this`files
      ensures err.None? || err == Some(FileError)
      ensures err.None? ==> !CannotRemove(old(files), path)
      ensures files == if err.None? then old(files) - {path} else old(files)
      ensures calm ==> (err.Some? <==> CannotRemove(old(files), path))
    {
      err := MayFail(FileError);
      if err.Some? || CannotRemove(files, path) {
        return Some(FileError);
      }
      files := files - {path};
    }

    /** What comes back for a request; it is answered as what it was, under a name or none. A download sends at most one
        HEAD and one other request, so a function can stand for all that a server may do. */
    function Answer(verb: Verb, range: Option<nat>): (r: Option<HttpResponse>)
      ensures r.Some? ==> r.value.verb == verb && (r.value.filename.Some? ==> IsBase(r.value.filename.value))
    {
      var r := answers(verb, range);
      if r.Some? && r.value.verb == verb && (r.value.filename.Some? ==> IsBase(r.value.filename.value)) then r else None
    }
  }

  // ---------------------------------------------------------------- requests and responses

  datatype Request = Request(
    verb: Verb,
    noResume: bool,
    filename: string,
    ignoreBadStatusCodes: bool,
    ignoreRemoteTime: bool,
    size: int,
    checksum: Option<seq<byte>>,     // what the checksum of the file must be
    deleteOnError: bool,
    hasRateLimiter: bool)

  /** How the local file was opened for writing. */
  datatype Mode = Create | Truncate | Append

  datatype Writer = Writer(path: string, append: bool, pos: nat)

  class Response {
    const request: Request
    var httpResponse: Option<HttpResponse>
    var filename: string
    var size: int
    var canResume: bool
    var didResume: bool
    var optionsKnown: bool
    var fi: Option<nat>              // size of the local file found
    var writer: Option<Writer>
    var bytesResumed: nat
    var transfer: Option<Writer>     // set up to copy the body there
    var written: nat
    var err: Option<Error>
    var range: Option<nat>           // the Range header of the request
    var closes: nat                  // history: how often Done was closed
    var heads: nat                   // history: HEAD requests sent
    var gets: nat                    // history: other requests sent
    var getRange: Option<nat>        // history: the Range header sent with the GET
    var mode: Option<Mode>           // history: how the writer was opened
    var removed: bool                // history: the file was removed after its checksum was wrong

    constructor (request: Request)
      ensures this.request == request && filename == request.filename
      ensures httpResponse.None? && fi.None? && writer.None? && transfer.None? && err.None? && range.None?
      ensures !canResume && !didResume && !optionsKnown && bytesResumed == 0 && written == 0
      ensures closes == heads == gets == 0 && getRange.None? && mode.None? && !removed
    {
      this.request, filename := request, request.filename;
      httpResponse, fi, writer, transfer, err, range := None, None, None, None, None, None;
      size, canResume, didResume, optionsKnown, bytesResumed, written := 0, false, false, false, 0, 0;
      closes, heads, gets, getRange, mode, removed := 0, 0, 0, None, None, false;
    }

    predicate IsComplete()
      reads this`closes
    {
      closes > 0
    }

    function RequestMethod(): Option<Verb>
      reads this`httpResponse
    {
      if httpResponse.None? then None else Some(httpResponse.value.verb)
    }
  }

  datatype Stage = StatFileInfo | ValidateLocal | ChecksumFile | HeadRequest | GetRequest | ReadResponse | OpenWriter
    | CopyFile | CloseResponse | Stop

  // ---------------------------------------------------------------- what a download will do

  /** The request names the file to write. */
  predicate Named(w: World, request: Request, files: Files) {
    request.filename != "" && !IsDirectory(files, Dir(request.filename))
  }

  /** A HEAD is sent: resuming is wanted, and the file is not known to be missing, complete or too long. */
  predicate AsksHead(w: World, request: Request, files: Files) {
    && !request.noResume
    && (Named(w, request, files) ==>
          && IsRegular(files, Dir(request.filename))
          && (request.size == 0 || request.size > |files[Dir(request.filename)].content|))
  }

  /** The answer to the HEAD, if it can be used. */
  function Head(w: World, request: Request, files: Files): Option<HttpResponse> {
    var r := w.Answer(HEAD, None);
    if AsksHead(w, request, files) && r.Some? && r.value.statusCode == 200 then r else None
  }

  /** The name known before the file is requested, unless it is that of a directory. */
  function Stated(w: World, request: Request, files: Files): Option<string> {
    if Named(w, request, files) then
      Some(request.filename)
    else
      match Head(w, request, files)
      case None => None
      case Some(r) =>
        if r.filename.Some? && !IsDirectory(files, Dir(Join(request.filename, r.filename.value))) then
          Some(Join(request.filename, r.filename.value))
        else
          None
  }

  /** The size of the local file of that name. */
  function Found(w: World, request: Request, files: Files): Option<nat> {
    match Stated(w, request, files)
    case None => None
    case Some(name) => if IsRegular(files, Dir(name)) then Some(|files[Dir(name)].content|) else None
  }

  /** The size the file should have: what the request says, else what the server said; 0 when neither is known. */
  function Known(w: World, request: Request, files: Files): int {
    if request.size != 0 then
      request.size
    else
      match Head(w, request, files)
      case None => 0
      case Some(r) => r.contentLength
  }

  /** How the file will be opened; not at all if the local one is taken for complete. */
  function Planned(w: World, request: Request, files: Files): Option<Mode> {
    var head := Head(w, request, files);
    var known := Known(w, request, files);
    match Found(w, request, files)
    case None => Some(Create)
    case Some(size) =>
      if known != 0 && known == size then None
      else if known != 0 && head.Some? && head.value.acceptRanges then Some(Append)
      else Some(Truncate)
  }

  /** The Range header of the request for the file. */
  function Range(w: World, request: Request, files: Files): Option<nat> {
    if Planned(w, request, files) == Some(Append) then Found(w, request, files) else None
  }

  function Get(w: World, request: Request, files: Files): Option<HttpResponse> {
    w.Answer(request.verb, Range(w, request, files))
  }

  /** The name under which the file is written; empty if none can be made out. */
  function Target(w: World, request: Request, files: Files): string {
    var stated := Stated(w, request, files);
    var get := Get(w, request, files);
    if stated.Some? then stated.value
    else if get.Some? && get.value.filename.Some? then Join(request.filename, get.value.filename.value)
    else ""
  }

  predicate SizesAgree(request: Request, resumed: nat, answer: HttpResponse) {
    request.size > 0 && answer.contentLength > 0 ==> request.size == resumed + answer.contentLength
  }

  predicate StatusFine(request: Request, answer: HttpResponse) {
    request.ignoreBadStatusCodes || 200 <= answer.statusCode <= 299
  }

  /** What is wrong with what comes back for the HEAD. */
  function HeadError(w: World, request: Request, files: Files): Option<Error> {
    var r := w.Answer(HEAD, None);
    if !AsksHead(w, request, files) then None
    else if r.None? then Some(HttpError)
    else if r.value.statusCode != 200 then None
    else if !SizesAgree(request, 0, r.value) then Some(BadLength)
    else if r.value.filename.None? && !Named(w, request, files) then Some(NoFilename)
    else None
  }

  /** What is wrong with the local file: without it being asked for anew, it must not be too long. */
  function LocalError(w: World, request: Request, files: Files): Option<Error> {
    var found := Found(w, request, files);
    if found.Some? && !request.noResume && 0 != Known(w, request, files) < found.value then Some(BadLength) else None
  }

  /** What is wrong with what comes back for the request for the file. */
  function GetError(w: World, request: Request, files: Files): Option<Error> {
    var get := Get(w, request, files);
    var range := Range(w, request, files);
    if get.None? then Some(HttpError)
    else if !StatusFine(request, get.value) then Some(StatusCode(get.value.statusCode))
    else if !SizesAgree(request, if range.Some? then range.value else 0, get.value) then Some(BadLength)
    else if Target(w, request, files) == "" then Some(NoFilename)
    else None
  }

  /** What is wrong with opening the target or with the body. */
  function CopyError(w: World, request: Request, files: Files): Option<Error> {
    var get := Get(w, request, files);
    var mode := Planned(w, request, files);
    if mode.Some? && CannotOpen(files, Dir(Target(w, request, files)), mode.value) then Some(FileError)
    else if get.Some? && !EndsWell(get.value.body) then Some(ReadError)
    else None
  }

  function First(a: Option<Error>, b: Option<Error>): Option<Error> {
    if a.Some? then a else b
  }

  /** The error a download meets before its checksum even if nothing fails by itself, the first one. */
  function Flaw(w: World, request: Request, files: Files): Option<Error> {
    First(HeadError(w, request, files),
          First(LocalError(w, request, files),
                if Planned(w, request, files).None? then None
                else First(GetError(w, request, files), CopyError(w, request, files))))
  }

  /** The file right after it was opened. */
  function Opened(mode: Mode, local: seq<byte>): seq<byte> {
    if mode == Truncate then [] else local
  }

  /** The file once data was written. */
  function Left(mode: Mode, local: seq<byte>, data: seq<byte>): seq<byte> {
    match mode
    case Create => Put(local, 0, data)
    case Truncate => data
    case Append => local + data
  }

  lemma LeftNothing(mode: Mode, local: seq<byte>)
    ensures Left(mode, local, []) == Opened(mode, local)
  {
  }

  /** All files after data was written to the target. */
  function FilesLeft(w: World, request: Request, files: Files, data: seq<byte>): Files {
    match Planned(w, request, files)
    case None => files
    case Some(mode) =>
      var path := Dir(Target(w, request, files));
      files[path := Regular(Left(mode, LocalContent(files, path), data))]
  }

  /** All files after a download without error. */
  function Outcome(w: World, request: Request, files: Files): Files
    requires Flaw(w, request, files).None?
  {
    if Planned(w, request, files).None? then files
    else FilesLeft(w, request, files, Delivered(Get(w, request, files).value.body))
  }

  /** What is wrong with the checksum of the file, which is looked for at the name itself. */
  function ChecksumError(w: World, request: Request, files: Files): Option<Error>
    requires Flaw(w, request, files).None?
  {
    var found, target := Outcome(w, request, files), Target(w, request, files);
    if request.checksum.None? then None
    else if target !in found then Some(FileError)
    else if w.Sum(found[target]) == request.checksum.value then None
    else if request.deleteOnError && CannotRemove(found, target) then Some(FileError)
    else Some(BadChecksum)
  }

  /** The error a download ends with if nothing fails by itself. */
  function Foreseen(w: World, request: Request, files: Files): Option<Error> {
    var flaw := Flaw(w, request, files);
    if flaw.Some? then flaw else ChecksumError(w, request, files)
  }

  /** The file is written in the place of the directory of its name, so that there is nothing at the name itself. */
  lemma NothingAtTarget(w: World, request: Request, files: Files)
    requires Tree(files) && Flaw(w, request, files).None?
    ensures Target(w, request, files) !in Outcome(w, request, files)
  {
    var target := Target(w, request, files);
    assert !IsDirectory(files, Dir(target));
    assert target !in files;
    assert target != Dir(target);
  }

  /** A download with a checksum never succeeds. */
  lemma ChecksumNeverPasses(w: World, request: Request, files: Files)
    requires Tree(files)
    ensures Foreseen(w, request, files).None? <==> Flaw(w, request, files).None? && request.checksum.None?
    ensures Flaw(w, request, files).None? && request.checksum.Some? ==> Foreseen(w, request, files) == Some(FileError)
  {
    if Flaw(w, request, files).None? {
      NothingAtTarget(w, request, files);
    }
  }

  /** The target after a download without error. */
  function TargetLeft(w: World, request: Request, files: Files): seq<byte>
    requires Flaw(w, request, files).None?
  {
    LocalContent(Outcome(w, request, files), Dir(Target(w, request, files)))
  }

  /** The server honours ranges and says and serves what remote holds. */
  predicate Honest(w: World, request: Request, files: Files, remote: seq<byte>) {
    var head := Head(w, request, files);
    var get := Get(w, request, files);
    && (head.Some? ==> head.value.contentLength in {-1, |remote|})
    && (get.Some? ==> Serves(remote, Range(w, request, files), get.value))
  }

  /** The content of the target when the download starts. */
  function TargetFound(w: World, request: Request, files: Files): seq<byte> {
    LocalContent(files, Dir(Target(w, request, files)))
  }

  /** What is left once all of the rest of remote is written. */
  lemma LeftIsRemoteIff(mode: Mode, local: seq<byte>, remote: seq<byte>)
    requires mode == Append ==> |local| <= |remote|
    ensures var data := if mode == Append then remote[|local|..] else remote;
            Left(mode, local, data) == remote <==>
              match mode
              case Create => |local| <= |remote|
              case Truncate => true
              case Append => local <= remote
  {
    match mode
    case Truncate =>
    case Create =>
      if |local| <= |remote| {
        assert Put(local, 0, remote) == remote;
      } else {
        assert |Put(local, 0, remote)| == |local|;
      }
    case Append =>
      var data := remote[|local|..];
      if local <= remote {
        assert local + data == remote;
      } else {
        assert (local + data)[..|local|] == local;
      }
  }

  /** What an honest server delivers to a download without error, unless the local file is longer than the remote one. */
  lemma HonestDelivers(w: World, request: Request, files: Files, remote: seq<byte>)
    requires Honest(w, request, files, remote) && Flaw(w, request, files).None? && Planned(w, request, files).Some?
    ensures var local, mode := TargetFound(w, request, files), Planned(w, request, files).value;
            && TargetLeft(w, request, files) == Left(mode, local, Delivered(Get(w, request, files).value.body))
            && (mode != Append ==> Delivered(Get(w, request, files).value.body) == remote)
            && (mode == Append && |local| <= |remote| ==> Delivered(Get(w, request, files).value.body) == remote[|local|..])
  {
  }

  /** A download that ends without error leaves the remote content exactly when: a file taken for complete is the remote
      one, a resumed one is a prefix of it, and one that is opened without having been looked at is not longer. */
  lemma RemoteLeftIff(w: World, request: Request, files: Files, remote: seq<byte>)
    requires Honest(w, request, files, remote) && Flaw(w, request, files).None?
    ensures var local := TargetFound(w, request, files);
            TargetLeft(w, request, files) == remote <==>
              match Planned(w, request, files)
              case None => local == remote
              case Some(Create) => |local| <= |remote|
              case Some(Truncate) => true
              case Some(Append) => local <= remote
  {
    if Planned(w, request, files).Some? {
      var local, mode := TargetFound(w, request, files), Planned(w, request, files).value;
      HonestDelivers(w, request, files, remote);
      if mode == Append && |local| > |remote| {
        assert |TargetLeft(w, request, files)| >= |local|;
      } else {
        LeftIsRemoteIff(mode, local, remote);
      }
    }
  }

  /** The file will be written without having been looked at: the directory of its path exists, and the server was not asked
      about it or refused. */
  predicate Unseen(w: World, request: Request, files: Files) {
    && IsDirectory(files, Dir(request.filename))
    && var head := w.Answer(HEAD, None);
       request.noResume || (head.Some? && head.value.statusCode != 200)
  }

  /** Below an existing directory the target is the path the request gives; only the last element of the path that comes back
      from the server is dropped again. */
  lemma NameIsDropped(w: World, request: Request, files: Files)
    requires !Named(w, request, files)
    ensures var path := if request.filename == "" then "." else request.filename;
            && (Stated(w, request, files).Some? ==> Dir(Stated(w, request, files).value) == path)
            && (Target(w, request, files) != "" ==> Dir(Target(w, request, files)) == path)
            && (var head := Head(w, request, files);
                head.Some? && head.value.filename.Some? ==> Dir(Join(request.filename, head.value.filename.value)) == path)
  {
    var head, get := Head(w, request, files), Get(w, request, files);
    if head.Some? && head.value.filename.Some? {
      JoinDir(request.filename, head.value.filename.value);
    }
    if get.Some? && get.value.filename.Some? {
      JoinDir(request.filename, get.value.filename.value);
    }
  }

  /** Where a successful download writes: at the path the request gives if the directory of that exists, else in place of that
      directory. */
  lemma TargetPath(w: World, request: Request, files: Files)
    requires IsDirectory(files, ".") && Flaw(w, request, files).None?
    ensures request.filename != ""
    ensures Dir(Target(w, request, files))
            == if IsDirectory(files, Dir(request.filename)) then request.filename else Dir(request.filename)
  {
    if !Named(w, request, files) {
      NameIsDropped(w, request, files);
    }
  }

  /** A download into a directory, or without a name, which is one into the working directory, never succeeds. */
  lemma DirectoryFails(w: World, request: Request, files: Files)
    requires IsDirectory(files, ".") && IsDirectory(files, Dir(request.filename))
    requires request.filename == "" || IsDirectory(files, request.filename)
    ensures Flaw(w, request, files).Some?
  {
    NameIsDropped(w, request, files);
  }

  /** What is planned for a file that is there: it is written over as it is exactly when it is not looked at; otherwise its
      name is known beforehand, and resuming takes that it is wanted. */
  lemma UnseenIff(w: World, request: Request, files: Files)
    requires IsDirectory(files, ".") && Flaw(w, request, files).None?
    requires IsRegular(files, Dir(Target(w, request, files)))
    ensures Planned(w, request, files) == Some(Create) <==> Unseen(w, request, files)
    ensures !Unseen(w, request, files) ==> Stated(w, request, files) == Some(Target(w, request, files))
    ensures Planned(w, request, files) == Some(Append) ==> !request.noResume
  {
    if !Named(w, request, files) {
      NameIsDropped(w, request, files);
    }
  }

  /** A local file longer than the remote one, with a true or unknown expected size: when the download succeeds all the
      same, the end of the old file stays exactly when that was not looked at. */
  lemma LongerFileStaysIff(w: World, request: Request, files: Files, remote: seq<byte>)
    requires IsDirectory(files, ".") && Flaw(w, request, files).None? && request.size in {0, |remote|}
    requires Honest(w, request, files, remote) && |remote| < |TargetFound(w, request, files)|
    ensures TargetLeft(w, request, files) != remote <==> Unseen(w, request, files)
  {
    UnseenIff(w, request, files);
    RemoteLeftIff(w, request, files, remote);
  }

  /** With an honest server a true or unknown expected size and a local file that is a prefix of the remote one are enough. */
  lemma DownloadedIsRemote(w: World, request: Request, files: Files, remote: seq<byte>)
    requires Honest(w, request, files, remote) && Flaw(w, request, files).None? && request.size in {0, |remote|}
    requires TargetFound(w, request, files) <= remote
    ensures TargetLeft(w, request, files) == remote
  {
    RemoteLeftIff(w, request, files, remote);
  }

  lemma LeftPrefix(mode: Mode, local: seq<byte>, remote: seq<byte>, data: seq<byte>)
    requires local <= remote && data <= if mode == Append then remote[|local|..] else remote
    ensures Left(mode, local, data) <= remote
  {
    match mode
    case Append => assert local + data == remote[..|local| + |data|];
    case Create => assert Put(local, 0, data) == remote[..if |data| < |local| then |local| else |data|];
    case Truncate =>
  }

  /** However far a download over a prefix of the remote content gets, it leaves a prefix again: it can be resumed. */
  lemma PrefixStays(w: World, request: Request, files: Files, remote: seq<byte>, n: nat)
    requires Honest(w, request, files, remote) && Planned(w, request, files).Some? && Get(w, request, files).Some?
    requires n <= |Delivered(Get(w, request, files).value.body)| && TargetFound(w, request, files) <= remote
    ensures var data := Delivered(Get(w, request, files).value.body)[..n];
            LocalContent(FilesLeft(w, request, files, data), Dir(Target(w, request, files))) <= remote
  {
    var data := Delivered(Get(w, request, files).value.body);
    LeftPrefix(Planned(w, request, files).value, TargetFound(w, request, files), remote, data[..n]);
  }

  // ---------------------------------------------------------------- the invariant

  /** A download that is still open and has not asked for the file; files are those found at the start. */
  ghost predicate Untouched(w: World, resp: Response, files: Files)
    reads w`files, resp`closes, resp`err, resp`removed, resp`gets, resp`getRange, resp`mode, resp`transfer, resp`writer, resp`written
  {
    && resp.request.verb != HEAD && resp.closes == 0 && resp.err.None? && !resp.removed
    && w.files == files && resp.gets == 0 && resp.getRange.None? && resp.mode.None?
    && resp.transfer.None? && resp.writer.None? && resp.written == 0
  }

  /** No decision to resume was made. */
  predicate Fresh(resp: Response)
    reads resp`range, resp`didResume, resp`bytesResumed
  {
    resp.range.None? && !resp.didResume && resp.bytesResumed == 0
  }

  /** Nothing is known of the server. */
  ghost predicate Before(w: World, resp: Response, files: Files)
    reads w`files, resp
  {
    && Untouched(w, resp, files) && Fresh(resp) && resp.heads == 0
    && !resp.optionsKnown && resp.httpResponse.None? && !resp.canResume
  }

  /** The HEAD was answered and read. */
  ghost predicate After(w: World, resp: Response, files: Files)
    reads w`files, resp
  {
    && Untouched(w, resp, files) && Fresh(resp) && resp.heads == 1 && resp.optionsKnown
    && resp.httpResponse.Some? && resp.httpResponse == Head(w, resp.request, files)
    && resp.canResume == resp.httpResponse.value.acceptRanges && HeadError(w, resp.request, files).None?
  }

  /** What a look at the file named in the request has shown. */
  ghost predicate Looked(w: World, resp: Response, files: Files)
    reads resp`filename, resp`fi
  {
    var path := Dir(resp.request.filename);
    if Named(w, resp.request, files) then
      && resp.filename == resp.request.filename
      && resp.fi == if IsRegular(files, path) then Some(|files[path].content|) else None
    else
      resp.filename == "" && resp.fi.None?
  }

  ghost predicate Looking(w: World, resp: Response, files: Files)
    reads w`files, resp
  {
    || (Before(w, resp, files) && resp.filename == resp.request.filename && resp.fi.None?)
    || (After(w, resp, files)
        && if Named(w, resp.request, files) then
             Looked(w, resp, files)
           else
             resp.filename == Join(resp.request.filename, resp.httpResponse.value.filename.value) && resp.fi.None?)
  }

  /** Everything about the local file is known. */
  ghost predicate Seen(w: World, resp: Response, files: Files)
    reads resp`filename, resp`fi
  {
    && resp.fi == Found(w, resp.request, files)
    && resp.filename == (match Stated(w, resp.request, files) case None => "" case Some(name) => name)
  }

  /** There is a local file to compare with what is known so far. */
  ghost predicate Comparing(w: World, resp: Response, files: Files)
    reads w`files, resp
  {
    && Seen(w, resp, files) && resp.fi.Some?
    && ((Before(w, resp, files) && Named(w, resp.request, files)) || After(w, resp, files))
  }

  /** The server was not asked yet, and the local file is neither known to be complete nor to be too long. */
  ghost predicate Undecided(w: World, resp: Response, files: Files)
    reads w`files, resp
  {
    && Before(w, resp, files) && Looked(w, resp, files)
    && (resp.fi.Some? ==> resp.request.size == 0 || (!resp.request.noResume && resp.request.size > resp.fi.value))
  }

  /** The HEAD was answered and not read yet. */
  ghost predicate HeadAnswered(w: World, resp: Response, files: Files)
    reads w`files, resp
  {
    && Untouched(w, resp, files) && Fresh(resp) && resp.heads == 1 && resp.optionsKnown && !resp.canResume && Looked(w, resp, files)
    && resp.httpResponse.Some? && resp.httpResponse == Head(w, resp.request, files)
  }

  /** How to ask for the file was decided, as planned. */
  ghost predicate Decided(w: World, resp: Response, files: Files)
    reads resp`filename, resp`fi, resp`range, resp`didResume, resp`bytesResumed, resp`heads
  {
    && Seen(w, resp, files) && Planned(w, resp.request, files).Some?
    && HeadError(w, resp.request, files).None? && LocalError(w, resp.request, files).None?
    && resp.range == Range(w, resp.request, files)
    && resp.didResume == resp.range.Some? && resp.bytesResumed == (if resp.range.Some? then resp.range.value else 0)
    && resp.heads == if AsksHead(w, resp.request, files) then 1 else 0
  }

  ghost predicate Unasked(w: World, resp: Response, files: Files)
    reads w`files, resp
  {
    Untouched(w, resp, files) && Decided(w, resp, files)
  }

  /** The file was asked for once, as planned. */
  ghost predicate Asked(w: World, resp: Response, files: Files)
    reads resp`gets, resp`getRange, resp`httpResponse, resp`closes, resp`err, resp`removed, resp`written
  {
    && resp.request.verb != HEAD && resp.gets == 1 && resp.getRange == Range(w, resp.request, files)
    && resp.httpResponse == Get(w, resp.request, files) && resp.closes == 0 && resp.err.None? && !resp.removed
    && resp.written == 0
  }

  ghost predicate Answered(w: World, resp: Response, files: Files)
    reads w`files, resp
  {
    && Decided(w, resp, files) && Asked(w, resp, files) && w.files == files && resp.mode.None?
    && resp.transfer.None? && resp.writer.None?
    && resp.httpResponse.Some? && StatusFine(resp.request, resp.httpResponse.value)
  }

  /** The answer was accepted and the name of the file is known. */
  ghost predicate Accepted(w: World, resp: Response, files: Files)
    reads resp
  {
    && Planned(w, resp.request, files).Some? && Asked(w, resp, files)
    && HeadError(w, resp.request, files).None? && LocalError(w, resp.request, files).None? && GetError(w, resp.request, files).None?
    && resp.filename == Target(w, resp.request, files)
    && resp.heads == (if AsksHead(w, resp.request, files) then 1 else 0)
    && resp.bytesResumed == if resp.getRange.Some? then resp.getRange.value else 0
  }

  /** The writer is open, as planned, and the body is ready to be copied. */
  ghost predicate Ready(w: World, resp: Response, files: Files)
    reads w`files, resp
  {
    var path := Dir(resp.filename);
    && Accepted(w, resp, files) && resp.mode == Planned(w, resp.request, files)
    && resp.mode.Some? && !CannotOpen(files, path, resp.mode.value)
    && resp.transfer.Some? && resp.writer == resp.transfer
    && resp.transfer.value == WriterFor(path, resp.mode.value, LocalContent(files, path))
    && w.files == files[path := Regular(Opened(resp.mode.value, LocalContent(files, path)))]
  }

  /** A resumed file is written at its end, any other from the start. */
  function WriterFor(path: string, mode: Mode, local: seq<byte>): Writer {
    Writer(path, mode == Append, if mode == Append then |local| else 0)
  }

  /** The answer was accepted and nothing is opened yet. */
  ghost predicate Chosen(w: World, resp: Response, files: Files)
    reads w`files, resp
  {
    && Accepted(w, resp, files) && w.files == files && resp.mode.None? && resp.transfer.None? && resp.writer.None?
    && resp.fi == Found(w, resp.request, files) && resp.didResume == resp.getRange.Some?
  }

  /** At most one HEAD and one other request, sent and written as planned. */
  ghost predicate Bounded(w: World, resp: Response, files: Files)
    reads resp`heads, resp`gets, resp`getRange, resp`mode, resp`filename
  {
    && resp.heads <= (if AsksHead(w, resp.request, files) then 1 else 0)
    && resp.gets <= (if Planned(w, resp.request, files).Some? then 1 else 0)
    && (resp.gets == 1 ==> resp.getRange == Range(w, resp.request, files))
    && (resp.mode.Some? ==>
          && resp.mode == Planned(w, resp.request, files) && resp.filename == Target(w, resp.request, files)
          && resp.gets == 1 && HeadError(w, resp.request, files).None? && LocalError(w, resp.request, files).None?
          && GetError(w, resp.request, files).None? && !CannotOpen(files, Dir(resp.filename), resp.mode.value))
  }

  /** The target holds what was copied, and no other file changed. */
  ghost predicate Partial(w: World, resp: Response, files: Files)
    reads w`files, resp`heads, resp`gets, resp`getRange, resp`mode, resp`filename, resp`written
    requires Bounded(w, resp, files)
  {
    if resp.mode.None? then
      w.files == files
    else
      var data := Delivered(Get(w, resp.request, files).value.body);
      resp.written <= |data| && w.files == FilesLeft(w, resp.request, files, data[..resp.written])
  }

  /** Everything up to the checksum was done as planned and the files are as planned. */
  ghost predicate Copied(w: World, resp: Response, files: Files)
    reads w`files, resp`heads, resp`gets, resp`getRange, resp`mode, resp`filename, resp`written
  {
    && Bounded(w, resp, files) && Partial(w, resp, files)
    && Flaw(w, resp.request, files).None? && w.files == Outcome(w, resp.request, files)
    && resp.filename == Target(w, resp.request, files) && resp.filename != ""
    && resp.mode == Planned(w, resp.request, files)
    && resp.heads == (if AsksHead(w, resp.request, files) then 1 else 0)
    && resp.gets == (if resp.mode.Some? then 1 else 0)
  }

  /** How a download ends. Without error everything was done as planned and the checksum found; if nothing failed by itself
      its error is the one foreseen. Only a bad checksum makes it undo what was written. */
  ghost predicate Settled(w: World, resp: Response, files: Files)
    reads w`files, resp`err, resp`removed, resp`heads, resp`gets, resp`getRange, resp`mode, resp`filename, resp`written
  {
    && Bounded(w, resp, files)
    && (resp.err.None? ==> Copied(w, resp, files) && (resp.request.checksum.Some? ==> resp.filename in w.files))
    && (w.calm ==> resp.err == Foreseen(w, resp.request, files))
    && (resp.removed ==>
          && resp.err.Some? && resp.request.checksum.Some? && resp.request.deleteOnError
          && Flaw(w, resp.request, files).None? && resp.filename == Target(w, resp.request, files)
          && w.files == Outcome(w, resp.request, files) - {resp.filename})
    && (!resp.removed ==> Partial(w, resp, files))
  }

  ghost predicate ToClose(w: World, resp: Response, files: Files)
    reads w`files, resp`closes, resp`err, resp`removed, resp`heads, resp`gets, resp`getRange, resp`mode, resp`filename, resp`written
  {
    resp.closes == 0 && Settled(w, resp, files)
  }

  ghost predicate Closed(w: World, resp: Response, files: Files)
    reads w`files, resp`closes, resp`err, resp`removed, resp`heads, resp`gets, resp`getRange, resp`mode, resp`filename, resp`written
  {
    resp.closes == 1 && Settled(w, resp, files)
  }

  ghost predicate Complete(w: World, resp: Response, files: Files)
    reads w`files, resp`closes, resp`err, resp`removed, resp`heads, resp`gets, resp`getRange, resp`mode, resp`filename, resp`written
  {
    resp.closes == 0 && resp.err.None? && !resp.removed && Copied(w, resp, files)
  }

  /** Each state function's entry condition; Stop is the end of a run. */
  ghost predicate At(f: Stage, w: World, resp: Response, files: Files)
    reads w`files, resp
  {
    || (f == StatFileInfo && Looking(w, resp, files))
    || (f == ValidateLocal && Comparing(w, resp, files))
    || (f == HeadRequest && (Undecided(w, resp, files) || (resp.optionsKnown && Unasked(w, resp, files))))
    || (f == GetRequest && Unasked(w, resp, files))
    || (f == ReadResponse && if resp.RequestMethod() == Some(HEAD) then HeadAnswered(w, resp, files) else Answered(w, resp, files))
    || (f == OpenWriter && Chosen(w, resp, files))
    || (f in {CopyFile, Stop} && (Ready(w, resp, files) || Closed(w, resp, files)))
    || (f == ChecksumFile && Complete(w, resp, files))
    || (f == CloseResponse && ToClose(w, resp, files))
  }

  /** How many more state functions can follow. */
  function Rank(f: Stage, optionsKnown: bool, verb: Option<Verb>): nat {
    var later := if optionsKnown then 0 else 10;
    match f
    case StatFileInfo => 8 + later
    case ValidateLocal => 7 + later
    case HeadRequest => 6 + later
    case ReadResponse => if verb == Some(HEAD) then 9 else 4
    case GetRequest => 5
    case OpenWriter => 3
    case CopyFile => 3
    case ChecksumFile => 2
    case CloseResponse => 1
    case Stop => 0
  }

  function RankOf(f: Stage, resp: Response): nat
    reads resp
  {
    Rank(f, resp.optionsKnown, resp.RequestMethod())
  }

  // ---------------------------------------------------------------- state functions

  /** Closes an open download because of an error. */
  method Fail(error: Error, w: World, resp: Response, ghost files: Files) returns (next: Stage)
    requires resp.closes == 0 && !resp.removed && Bounded(w, resp, files) && Partial(w, resp, files)
    requires w.calm ==> Flaw(w, resp.request, files) == Some(error)
    modifies resp`err
    ensures resp.err == Some(error) && next == CloseResponse && ToClose(w, resp, files)
  {
    resp.err := Some(error);
    return CloseResponse;
  }

  /** What is found at the path of the local file. */
  method Look(w: World, resp: Response, path: string, ghost files: Files) returns (next: Stage)
    requires Looking(w, resp, files) && resp.filename != "" && path == Dir(resp.filename)
    modifies resp`filename, resp`fi
    ensures RankOf(next, resp) < old(RankOf(StatFileInfo, resp))
    ensures At(next, w, resp, files)
    ensures next == if IsRegular(w.files, path) then ValidateLocal else HeadRequest
    ensures resp.filename == if IsDirectory(w.files, path) then "" else old(resp.filename)
    ensures resp.fi == if IsRegular(w.files, path) then Some(|w.files[path].content|) else None
  {
    if path !in w.files {
      return HeadRequest;
    }
    if w.files[path].Directory? {
      resp.filename := "";
      return HeadRequest;
    }
    resp.fi := Some(|w.files[path].content|);
    return ValidateLocal;
  }

  method DoStatFileInfo(w: World, resp: Response, ghost files: Files) returns (next: Stage)
    requires Looking(w, resp, files)
    modifies resp`filename, resp`fi, resp`err
    ensures RankOf(next, resp) < old(RankOf(StatFileInfo, resp))
    ensures At(next, w, resp, files) && next in {ValidateLocal, HeadRequest, CloseResponse}
    ensures next == CloseResponse <==> resp.err.Some?
    ensures next == ValidateLocal <==>
              resp.err.None? && old(resp.filename) != "" && IsRegular(w.files, Dir(old(resp.filename)))
    ensures next == HeadRequest && resp.filename != "" ==> Dir(resp.filename) !in w.files
    ensures resp.filename == if next == HeadRequest && old(resp.filename) != "" && IsDirectory(w.files, Dir(old(resp.filename)))
                             then "" else old(resp.filename)
    ensures next == ValidateLocal ==> resp.fi == Some(|w.files[Dir(resp.filename)].content|)
    ensures next == CloseResponse ==> resp.err == Some(FileError) && !w.calm
  {
    if resp.filename == "" {
      return HeadRequest;
    }
    var path := Dir(resp.filename);
    var err := w.MayFail(FileError);
    if err.Some? {
      next := Fail(err.value, w, resp, files);
      return;
    }
    next := Look(w, resp, path, files);
  }

  /** The size the file should have, as far as it is known by now. */
  function KnownSize(resp: Response): int
    reads resp
  {
    if resp.request.size == 0 && resp.httpResponse.Some? then resp.httpResponse.value.contentLength else resp.request.size
  }

  /** Compares the local file with the size it should have. */
  method CompareSizes(w: World, resp: Response, size: int, ghost files: Files) returns (next: Stage)
    requires Comparing(w, resp, files) && size == KnownSize(resp) && size != 0
    modifies resp`range, resp`didResume, resp`bytesResumed, resp`err
    ensures RankOf(next, resp) < old(RankOf(ValidateLocal, resp))
    ensures At(next, w, resp, files)
    ensures var local := resp.fi.value;
            && (next == ChecksumFile <==> size == local)
            && (next == CloseResponse <==> size < local && !resp.request.noResume)
            && (next == HeadRequest <==> size > local && !resp.canResume && !resp.request.noResume)
            && (resp.range.Some? <==> size > local && resp.canResume && !resp.request.noResume)
            && (resp.range.Some? ==> resp.range == Some(local) && resp.didResume && resp.bytesResumed == local)
            && next in {ChecksumFile, CloseResponse, HeadRequest, GetRequest}
            && resp.err == if next == CloseResponse then Some(BadLength) else None
  {
    assert Known(w, resp.request, files) == size;
    if size == resp.fi.value {
      resp.didResume := true;
      resp.bytesResumed := resp.fi.value;
      return ChecksumFile;
    }
    if resp.request.noResume {
      return GetRequest;
    }
    if size < resp.fi.value {
      next := Fail(BadLength, w, resp, files);
      return;
    }
    if resp.canResume {
      resp.range := Some(resp.fi.value);
      resp.didResume := true;
      resp.bytesResumed := resp.fi.value;
      return GetRequest;
    }
    return HeadRequest;
  }

  method DoValidateLocal(w: World, resp: Response, ghost files: Files) returns (next: Stage)
    requires Comparing(w, resp, files)
    modifies resp`range, resp`didResume, resp`bytesResumed, resp`err
    ensures RankOf(next, resp) < old(RankOf(ValidateLocal, resp))
    ensures At(next, w, resp, files) && next in {HeadRequest, GetRequest, ChecksumFile, CloseResponse}
    ensures var local := resp.fi.value;
            var size := if resp.request.size == 0 && resp.httpResponse.Some? then resp.httpResponse.value.contentLength
                        else resp.request.size;
            && (next == ChecksumFile <==> size != 0 && size == local)
            && (next == CloseResponse <==> 0 != size < local && !resp.request.noResume)
            && (resp.range.Some? <==> size > local && resp.canResume && !resp.request.noResume)
            && (resp.range.Some? ==> resp.range == Some(local) && resp.didResume && resp.bytesResumed == local)
            && (next == HeadRequest <==> size == 0 || (size > local && !resp.canResume && !resp.request.noResume))
            && resp.err == if next == CloseResponse then Some(BadLength) else None
  {
    var size := resp.request.size;
    if size == 0 && resp.httpResponse.Some? {
      size := resp.httpResponse.value.contentLength;
    }
    if size == 0 {
      return HeadRequest;
    }
    next := CompareSizes(w, resp, size, files);
  }

  /** Without a usable answer to a HEAD no file is resumed. */
  lemma HeadUnused(w: World, request: Request, files: Files)
    requires Head(w, request, files).None?
    ensures Stated(w, request, files) == if Named(w, request, files) then Some(request.filename) else None
    ensures Known(w, request, files) == request.size
    ensures Planned(w, request, files) != Some(Append) && Range(w, request, files).None?
  {
  }

  /** Asks the server what it knows of the file. */
  method SendHead(w: World, resp: Response, ghost files: Files) returns (next: Stage)
    requires Untouched(w, resp, files) && Fresh(resp) && resp.heads == 0 && resp.optionsKnown && !resp.canResume
    requires AsksHead(w, resp.request, files) && Looked(w, resp, files)
    modifies resp`httpResponse, resp`heads, resp`err
    ensures At(next, w, resp, files) && next in {GetRequest, ReadResponse, CloseResponse}
    ensures resp.heads == 1 && resp.httpResponse == w.Answer(HEAD, None)
    ensures next == ReadResponse <==> resp.httpResponse.Some? && resp.httpResponse.value.statusCode == 200
    ensures next == CloseResponse <==> resp.httpResponse.None?
    ensures resp.err == if next == CloseResponse then Some(HttpError) else None
  {
    resp.httpResponse := w.Answer(HEAD, None);
    resp.heads := resp.heads + 1;
    if resp.httpResponse.None? {
      next := Fail(HttpError, w, resp, files);
      return;
    }
    if resp.httpResponse.value.statusCode != 200 {
      HeadUnused(w, resp.request, files);
      return GetRequest;
    }
    return ReadResponse;
  }

  method DoHeadRequest(w: World, resp: Response, ghost files: Files) returns (next: Stage)
    requires At(HeadRequest, w, resp, files)
    modifies resp`httpResponse, resp`optionsKnown, resp`heads, resp`err
    ensures RankOf(next, resp) < old(RankOf(HeadRequest, resp))
    ensures At(next, w, resp, files) && next in {GetRequest, ReadResponse, CloseResponse}
    ensures var sent := !old(resp.optionsKnown) && !resp.request.noResume && (resp.filename == "" || resp.fi.Some?);
            && resp.heads == old(resp.heads) + (if sent then 1 else 0)
            && resp.httpResponse == (if sent then w.Answer(HEAD, None) else old(resp.httpResponse))
            && (next == ReadResponse <==> sent && resp.httpResponse.Some? && resp.httpResponse.value.statusCode == 200)
            && (next == CloseResponse <==> sent && resp.httpResponse.None?)
            && resp.err == if next == CloseResponse then Some(HttpError) else None
    ensures resp.optionsKnown
  {
    if resp.optionsKnown {
      return GetRequest;
    }
    resp.optionsKnown := true;
    if !AsksHead(w, resp.request, files) {
      HeadUnused(w, resp.request, files);
    }
    if resp.request.noResume {
      return GetRequest;
    }
    if resp.filename != "" && resp.fi.None? {
      return GetRequest;
    }
    next := SendHead(w, resp, files);
  }

  method DoGetRequest(w: World, resp: Response, ghost files: Files) returns (next: Stage)
    requires Unasked(w, resp, files)
    modifies resp`httpResponse, resp`gets, resp`getRange, resp`err
    ensures RankOf(next, resp) < old(RankOf(GetRequest, resp))
    ensures At(next, w, resp, files) && next in {ReadResponse, CloseResponse}
    ensures resp.gets == old(resp.gets) + 1 && resp.getRange == old(resp.range)
    ensures resp.httpResponse == w.Answer(resp.request.verb, old(resp.range))
    ensures resp.err == if next == ReadResponse then None
                        else if resp.httpResponse.None? then Some(HttpError)
                        else Some(StatusCode(resp.httpResponse.value.statusCode))
    ensures next == ReadResponse <==>
              resp.httpResponse.Some?
              && (resp.request.ignoreBadStatusCodes || 200 <= resp.httpResponse.value.statusCode <= 299)
  {
    resp.httpResponse := w.Answer(resp.request.verb, resp.range);
    resp.gets, resp.getRange := resp.gets + 1, resp.range;
    if resp.httpResponse.None? {
      next := Fail(HttpError, w, resp, files);
      return;
    }
    if !resp.request.ignoreBadStatusCodes {
      var code := resp.httpResponse.value.statusCode;
      if code < 200 || code > 299 {
        next := Fail(StatusCode(code), w, resp, files);
        return;
      }
    }
    return ReadResponse;
  }

  /** Compares the size announced with the one expected, and finds a name for the file if it has none yet. */
  method CheckAnswer(resp: Response) returns (err: Option<Error>)
    requires resp.httpResponse.Some?
    modifies resp`size, resp`filename
    ensures var answer, request := resp.httpResponse.value, resp.request;
            var differs := request.size > 0 && answer.contentLength > 0 && request.size != resp.bytesResumed + answer.contentLength;
            && resp.size == resp.bytesResumed + answer.contentLength
            && err == (if differs then Some(BadLength)
                       else if old(resp.filename) == "" && answer.filename.None? then Some(NoFilename) else None)
            && resp.filename == if err.Some? || old(resp.filename) != "" then old(resp.filename)
                                else if request.filename in {"", "/"} then request.filename + answer.filename.value
                                else request.filename + "/" + answer.filename.value
  {
    var answer := resp.httpResponse.value;
    resp.size := resp.bytesResumed + answer.contentLength;
    if answer.contentLength > 0 && resp.request.size > 0 {
      if resp.request.size != resp.size {
        return Some(BadLength);
      }
    }
    if resp.filename == "" {
      if answer.filename.None? {
        return Some(NoFilename);
      }
      resp.filename := Join(resp.request.filename, answer.filename.value);
    }
    return None;
  }

  /** After a HEAD the local file is looked at again. */
  method ReadHead(w: World, resp: Response, ghost files: Files) returns (next: Stage)
    requires HeadAnswered(w, resp, files)
    modifies resp`size, resp`filename, resp`canResume, resp`err
    ensures RankOf(next, resp) < Rank(ReadResponse, true, Some(HEAD))
    ensures At(next, w, resp, files) && next in {StatFileInfo, CloseResponse}
    ensures resp.httpResponse.Some? && (next == CloseResponse <==> resp.err.Some?)
    ensures var answer, request := resp.httpResponse.value, resp.request;
            resp.err == if request.size > 0 && answer.contentLength > 0
                           && request.size != old(resp.bytesResumed) + answer.contentLength then Some(BadLength)
                        else if old(resp.filename) == "" && answer.filename.None? then Some(NoFilename) else None
    ensures next == StatFileInfo ==> resp.canResume == resp.httpResponse.value.acceptRanges
  {
    var err := CheckAnswer(resp);
    if err.Some? {
      next := Fail(err.value, w, resp, files);
      return;
    }
    if resp.httpResponse.value.acceptRanges {
      resp.canResume := true;
    }
    return StatFileInfo;
  }

  /** After any other request the file is opened. */
  method ReadGet(w: World, resp: Response, ghost files: Files) returns (next: Stage)
    requires Answered(w, resp, files)
    modifies resp`size, resp`filename, resp`err
    ensures RankOf(next, resp) < Rank(ReadResponse, true, None)
    ensures At(next, w, resp, files) && next in {OpenWriter, CloseResponse}
    ensures resp.httpResponse.Some? && (next == CloseResponse <==> resp.err.Some?)
    ensures var answer, request := resp.httpResponse.value, resp.request;
            resp.err == if request.size > 0 && answer.contentLength > 0
                           && request.size != old(resp.bytesResumed) + answer.contentLength then Some(BadLength)
                        else if old(resp.filename) == "" && answer.filename.None? then Some(NoFilename) else None
  {
    var err := CheckAnswer(resp);
    if err.Some? {
      next := Fail(err.value, w, resp, files);
      return;
    }
    return OpenWriter;
  }

  method DoReadResponse(w: World, resp: Response, ghost files: Files) returns (next: Stage)
    requires At(ReadResponse, w, resp, files)
    modifies resp`size, resp`filename, resp`canResume, resp`err
    ensures RankOf(next, resp) < old(RankOf(ReadResponse, resp))
    ensures At(next, w, resp, files)
    ensures next in {CloseResponse, if old(resp.RequestMethod()) == Some(HEAD) then StatFileInfo else OpenWriter}
    ensures resp.httpResponse.Some? && (next == CloseResponse <==> resp.err.Some?)
    ensures var answer, request := resp.httpResponse.value, resp.request;
            resp.err == if request.size > 0 && answer.contentLength > 0
                           && request.size != old(resp.bytesResumed) + answer.contentLength then Some(BadLength)
                        else if old(resp.filename) == "" && answer.filename.None? then Some(NoFilename) else None
    ensures next == StatFileInfo ==> resp.canResume == resp.httpResponse.value.acceptRanges
  {
    assert resp.httpResponse.Some?;  // the code panics otherwise
    if resp.RequestMethod() == Some(HEAD) {
      next := ReadHead(w, resp, files);
    } else {
      next := ReadGet(w, resp, files);
    }
  }

  /** Opens the local file: resumed ones for appending, other known ones emptied, unknown ones as they are. */
  method DoOpenWriter(w: World, resp: Response, ghost files: Files) returns (next: Stage)
    requires Chosen(w, resp, files)
    modifies w`files, resp
    ensures RankOf(next, resp) < old(RankOf(OpenWriter, resp))
    ensures (next == CloseResponse && resp.err.Some? && ToClose(w, resp, files)) || (next == Stop && Ready(w, resp, files))
    ensures resp.mode.Some? ==>
              && resp.mode.value == (if old(resp.fi).None? then Create else if old(resp.getRange).Some? then Append else Truncate)
              && var path := Dir(old(resp.filename));
                 var local := if path in files && files[path].Regular? then files[path].content else [];
                 && w.files == files[path := Regular(if resp.mode.value.Truncate? then [] else local)]
                 && (next == Stop ==>
                       resp.transfer == if resp.mode.value.Append? then Some(Writer(path, true, |local|))
                                        else Some(Writer(path, false, 0)))
    ensures next == CloseResponse ==> resp.err == Some(FileError)
    ensures resp.mode.None? ==> next == CloseResponse && w.files == files
  {
    var path := Dir(resp.filename);
    var mode := if resp.fi.None? then Create else if resp.didResume then Append else Truncate;
    PlannedMode(w, resp, files);
    var err := w.OpenFile(path, mode);
    if err.Some? {
      next := Fail(err.value, w, resp, files);
      return;
    }
    next := DoSeek(w, resp, path, mode, files);
  }

  /** The flags chosen are those planned, and only a file of unknown size can turn out not to be openable. */
  lemma PlannedMode(w: World, resp: Response, files: Files)
    requires Accepted(w, resp, files) && resp.fi == Found(w, resp.request, files)
    requires resp.didResume == resp.getRange.Some?
    ensures Planned(w, resp.request, files)
            == Some(if resp.fi.None? then Create else if resp.didResume then Append else Truncate)
    ensures resp.fi.Some? ==> IsRegular(files, Dir(resp.filename))
    ensures resp.bytesResumed == if resp.didResume then |LocalContent(files, Dir(resp.filename))| else 0
  {
  }

  /** The file was opened and nothing else happened. */
  ghost predicate JustOpened(w: World, resp: Response, path: string, mode: Mode, files: Files)
    reads w`files, resp
  {
    && Accepted(w, resp, files) && path == Dir(resp.filename) && !CannotOpen(files, path, mode)
    && Planned(w, resp.request, files) == Some(mode)
    && resp.bytesResumed == (if mode == Append then |LocalContent(files, path)| else 0)
    && w.files == files[path := Regular(Opened(mode, LocalContent(files, path)))]
  }

  /** Moves to the end of a resumed file. */
  method DoSeek(w: World, resp: Response, path: string, mode: Mode, ghost files: Files) returns (next: Stage)
    requires JustOpened(w, resp, path, mode, files)
    modifies resp`writer, resp`mode, resp`transfer, resp`err
    ensures (next == CloseResponse && resp.err.Some? && ToClose(w, resp, files)) || (next == Stop && Ready(w, resp, files))
    ensures resp.mode == Some(mode) && (next == CloseResponse ==> resp.err == Some(FileError))
  {
    LeftNothing(mode, LocalContent(files, path));
    var end := |w.files[path].content|;
    var writer := Writer(path, mode == Append, if resp.bytesResumed > 0 then end else 0);
    var err := w.MayFail(FileError);
    resp.writer, resp.mode := Some(writer), Some(mode);
    if err.Some? {
      next := Fail(err.value, w, resp, files);
      return;
    }
    resp.transfer := resp.writer;
    return Stop;
  }

  /** The content after data was written through the writer of a file that had the given content when it was opened. */
  function Written(writer: Writer, content: seq<byte>, data: seq<byte>): seq<byte>
    requires writer.pos <= |content|
  {
    Put(content, if writer.append then |content| else writer.pos, data)
  }

  lemma PutPut(content: seq<byte>, pos: nat, a: seq<byte>, b: seq<byte>)
    requires pos <= |content|
    ensures pos + |a| <= |Put(content, pos, a)|
    ensures Put(Put(content, pos, a), pos + |a|, b) == Put(content, pos, a + b)
  {
  }

  lemma PutNothing(content: seq<byte>, pos: nat)
    requires pos <= |content|
    ensures Put(content, pos, []) == content
  {
  }

  /** One Read of a body: what it gives first. */
  lemma DeliveredFirst(body: seq<ReadResult>)
    requires body != []
    ensures Delivered([]) == [] && body[0].data <= Delivered(body)
    ensures !body[0].status.More? ==> Delivered(body) == body[0].data
    ensures body[0].status.More? ==> Delivered(body) == body[0].data + Delivered(body[1..])
  {
  }

  /** Writes one chunk at the end of what was written so far; more is what got written. */
  method WriteChunk(w: World, resp: Response, writer: Writer, data: seq<byte>, ghost start: seq<byte>, ghost done: seq<byte>)
    returns (err: Option<Error>, ghost more: seq<byte>)
    requires IsRegular(w.files, writer.path) && writer.pos <= |start|
    requires w.files[writer.path].content == Written(writer, start, done) && resp.written == |done|
    modifies w`files, resp`written
    ensures more <= data && resp.written == |done + more|
    ensures w.files == old(w.files)[writer.path := Regular(Written(writer, start, done + more))]
    ensures err.None? ==> more == data
    ensures w.calm ==> err.None?
  {
    ghost var from := if writer.append then |start| else writer.pos;
    PutPut(start, from, done, []);
    var at := if writer.append then |w.files[writer.path].content| else writer.pos + resp.written;
    var n, failed := w.Write(writer.path, at, data);
    PutPut(start, from, done, data[..n]);
    more := data[..n];
    resp.written := resp.written + n;
    err := if failed then Some(WriteError) else if n != |data| then Some(ShortWrite) else None;
  }

  /** What is delivered once more of the next chunk is written. */
  lemma ChunkCopied(body: seq<ReadResult>, rest: seq<ReadResult>, done: seq<byte>, more: seq<byte>)
    requires rest != [] && done + Delivered(rest) == Delivered(body) && more <= rest[0].data
    ensures done + more <= Delivered(body)
    ensures more == rest[0].data && rest[0].status.More? ==> done + more + Delivered(rest[1..]) == Delivered(body)
    ensures more == rest[0].data && !rest[0].status.More? ==> done + more == Delivered(body)
  {
    DeliveredFirst(rest);
    var after := if rest[0].status.More? then Delivered(rest[1..]) else [];
    assert Delivered(rest) == rest[0].data + after;
    assert done + Delivered(rest) == done + more + Delivered(rest)[|more|..];
  }

  /** Copies the body into the file, for any pattern of short reads. What was written, done, is a prefix of what the body
      delivers, and all of it when there was no error. */
  method Copy(w: World, resp: Response, writer: Writer, body: seq<ReadResult>, ghost start: seq<byte>)
    returns (err: Option<Error>, ghost done: seq<byte>)
    requires IsRegular(w.files, writer.path) && w.files[writer.path].content == start
    requires writer.pos <= |start| && resp.written == 0
    modifies w`files, resp`written
    ensures resp.written == |done| && done <= Delivered(body)
    ensures w.files == old(w.files)[writer.path := Regular(Written(writer, start, done))]
    ensures err.None? ==> done == Delivered(body)
    ensures err.None? ==>
              forall i :: 0 <= i < |body| && body[i].status.Broken? ==> exists j :: 0 <= j < i && body[j].status.Eof?
    ensures w.calm ==>
              && done == Delivered(body) && err in {None, Some(ReadError)}
              && (err == Some(ReadError) <==>
                    exists i :: 0 <= i < |body| && body[i].status.Broken? && forall j :: 0 <= j < i ==> !body[j].status.Eof?)
  {
    EndsWellIff(body);
    var rest := body;
    done := [];
    PutNothing(start, if writer.append then |start| else writer.pos);
    while true
      invariant resp.written == |done|
      invariant w.files == old(w.files)[writer.path := Regular(Written(writer, start, done))]
      invariant done + Delivered(rest) == Delivered(body) && EndsWell(rest) == EndsWell(body)
      decreases |rest|
    {
      var cancelled := w.Poll();
      if cancelled {
        return Some(Cancelled), done;
      }
      if resp.request.hasRateLimiter {
        err := w.MayFail(LimiterError);
        if err.Some? {
          return;
        }
      }
      if rest == [] {
        return None, done;
      }
      var got := rest[0];
      if |got.data| > 0 {
        ghost var more;
        err, more := WriteChunk(w, resp, writer, got.data, start, done);
        ChunkCopied(body, rest, done, more);
        done := done + more;
        if err.Some? {
          return;
        }
      } else {
        ChunkCopied(body, rest, done, []);
        assert done + [] == done;
      }
      if got.status.Broken? {
        return Some(ReadError), done;
      }
      if got.status.Eof? {
        return None, done;
      }
      rest := rest[1..];
    }
  }

  /** Writing through the writer of an opened file leaves what it should. */
  lemma WrittenLeft(path: string, mode: Mode, local: seq<byte>, data: seq<byte>)
    ensures WriterFor(path, mode, local).pos <= |Opened(mode, local)|
    ensures Written(WriterFor(path, mode, local), Opened(mode, local), data) == Left(mode, local, data)
  {
  }

  method DoCopyFile(w: World, resp: Response, ghost files: Files) returns (next: Stage)
    requires Ready(w, resp, files) || Closed(w, resp, files)
    modifies w`files, resp
    ensures RankOf(next, resp) < old(RankOf(CopyFile, resp))
    ensures || (next == ChecksumFile && Complete(w, resp, files))
            || (next == CloseResponse && ToClose(w, resp, files))
            || (next == Stop && Closed(w, resp, files))
  {
    if resp.IsComplete() {
      return Stop;
    }
    next := StartCopy(w, resp, files);
  }

  /** An opened file may be left as it is. */
  lemma ReadyPartial(w: World, resp: Response, files: Files)
    requires Ready(w, resp, files)
    ensures Bounded(w, resp, files) && Partial(w, resp, files)
  {
    LeftNothing(resp.mode.value, LocalContent(files, Dir(resp.filename)));
  }

  /** The hook before the copy. */
  method StartCopy(w: World, resp: Response, ghost files: Files) returns (next: Stage)
    requires Ready(w, resp, files)
    modifies w`files, resp
    ensures || (next == ChecksumFile && Complete(w, resp, files))
            || (next == CloseResponse && ToClose(w, resp, files))
  {
    ReadyPartial(w, resp, files);
    var err := w.MayFail(HookError);
    if err.Some? {
      next := Fail(err.value, w, resp, files);
      return;
    }
    next := CopyBody(w, resp, files);
  }

  /** Copies the body, and what comes after. */
  method CopyBody(w: World, resp: Response, ghost files: Files) returns (next: Stage)
    requires Ready(w, resp, files)
    modifies w`files, resp
    ensures || (next == ChecksumFile && Complete(w, resp, files))
            || (next == CloseResponse && ToClose(w, resp, files))
  {
    assert resp.transfer.Some?;  // the code panics otherwise
    var writer := resp.transfer.value;
    ghost var start := w.files[writer.path].content;
    ghost var local := LocalContent(files, writer.path);
    WrittenLeft(writer.path, resp.mode.value, local, []);
    ghost var done;
    var err;
    err, done := Copy(w, resp, writer, resp.httpResponse.value.body, start);
    WrittenLeft(writer.path, resp.mode.value, local, done);
    EndsWellIff(resp.httpResponse.value.body);
    assert Delivered(resp.httpResponse.value.body)[..resp.written] == done;
    assert w.files == files[writer.path := Regular(Left(resp.mode.value, local, done))];
    if err.Some? {
      next := Fail(err.value, w, resp, files);
      return;
    }
    next := FinishCopy(w, resp, files);
  }

  /** The timestamp, and the hook after the copy. */
  method FinishCopy(w: World, resp: Response, ghost files: Files) returns (next: Stage)
    requires Complete(w, resp, files)
    modifies resp
    ensures || (next == ChecksumFile && Complete(w, resp, files))
            || (next == CloseResponse && ToClose(w, resp, files))
  {
    var err := None;
    resp.writer := None;
    if !resp.request.ignoreRemoteTime {
      err := w.MayFail(FileError);
    }
    if err.None? {
      err := w.MayFail(HookError);
    }
    if err.Some? {
      next := Fail(err.value, w, resp, files);
      return;
    }
    return ChecksumFile;
  }

  /** What is foreseen once everything was copied. */
  lemma CopiedForeseen(w: World, resp: Response, files: Files)
    requires Copied(w, resp, files)
    ensures Foreseen(w, resp.request, files)
            == if resp.request.checksum.None? then None
               else if resp.filename !in w.files then Some(FileError)
               else if w.Sum(w.files[resp.filename]) == resp.request.checksum.value then None
               else if resp.request.deleteOnError && CannotRemove(w.files, resp.filename) then Some(FileError)
               else Some(BadChecksum)
  {
  }

  /** Nothing of what was copied is undone. */
  lemma KeptSettled(w: World, resp: Response, files: Files)
    requires resp.closes == 0 && !resp.removed && Copied(w, resp, files)
    requires w.calm ==> resp.err == Foreseen(w, resp.request, files)
    requires resp.err.None? && resp.request.checksum.Some? ==> resp.filename in w.files
    ensures ToClose(w, resp, files)
  {
  }

  method DoChecksumFile(w: World, resp: Response, ghost files: Files) returns (next: Stage)
    requires Complete(w, resp, files)
    modifies w`files, resp
    ensures RankOf(next, resp) < old(RankOf(ChecksumFile, resp))
    ensures next == CloseResponse && ToClose(w, resp, files)
    ensures resp.request.checksum.None? ==> resp.err.None?
    ensures resp.request.checksum.Some? && resp.err.None? ==> resp.filename in w.files
    ensures w.calm && resp.request.checksum.Some? && resp.filename in old(w.files) && old(w.files)[resp.filename].Regular? ==>
              (resp.err.None? <==> w.hash(old(w.files)[resp.filename].content) == resp.request.checksum.value)
    ensures resp.removed <==> resp.err == Some(BadChecksum) && resp.request.deleteOnError
    ensures w.files == if resp.removed then old(w.files) - {resp.filename} else old(w.files)
    ensures resp.filename == old(resp.filename)
  {
    CopiedForeseen(w, resp, files);
    if resp.request.checksum.None? {
      KeptSettled(w, resp, files);
      return CloseResponse;
    }
    assert resp.filename != "";  // the code panics otherwise
    var sum, err := w.Checksum(resp.filename);
    resp.err := err;
    if resp.err.Some? {
      KeptSettled(w, resp, files);
      return CloseResponse;
    }
    if sum != resp.request.checksum.value {
      next := Mismatch(w, resp, files);
      return;
    }
    KeptSettled(w, resp, files);
    return CloseResponse;
  }

  /** A wrong checksum. */
  method Mismatch(w: World, resp: Response, ghost files: Files) returns (next: Stage)
    requires Complete(w, resp, files) && resp.request.checksum.Some? && resp.filename in w.files
    requires w.calm ==> w.Sum(w.files[resp.filename]) != resp.request.checksum.value
    modifies w`files, resp`err, resp`removed
    ensures next == CloseResponse && ToClose(w, resp, files)
    ensures resp.err.Some?
    ensures resp.removed <==> resp.err == Some(BadChecksum) && resp.request.deleteOnError
    ensures w.files == if resp.removed then old(w.files) - {resp.filename} else old(w.files)
  {
    CopiedForeseen(w, resp, files);
    resp.err := Some(BadChecksum);
    if resp.request.deleteOnError {
      var err := w.Remove(resp.filename);
      if err.None? {
        resp.removed := true;
        return CloseResponse;
      }
      resp.err := err;
    }
    KeptSettled(w, resp, files);
    return CloseResponse;
  }

  /** Closes Done, once. */
  method DoCloseResponse(w: World, resp: Response, ghost files: Files) returns (next: Stage)
    requires ToClose(w, resp, files)
    modifies resp
    ensures RankOf(next, resp) < old(RankOf(CloseResponse, resp))
    ensures next == Stop && Closed(w, resp, files) && resp.closes == old(resp.closes) + 1
    ensures resp.err == old(resp.err) && resp.filename == old(resp.filename) && resp.mode == old(resp.mode)
  {
    assert !resp.IsComplete();  // the code panics otherwise
    resp.fi, resp.writer := None, None;
    resp.closes := resp.closes + 1;
    return Stop;
  }

  // ---------------------------------------------------------------- runs

  /** Any open download may be closed with an error. */
  lemma MayClose(f: Stage, w: World, resp: Response, files: Files)
    requires At(f, w, resp, files) && !resp.IsComplete()
    ensures resp.closes == 0 && Bounded(w, resp, files) && (!resp.removed ==> Partial(w, resp, files))
  {
    if resp.mode.Some? {
      LeftNothing(resp.mode.value, LocalContent(files, Dir(resp.filename)));
    }
  }

  /** What a run does when it notices that it was cancelled. */
  method Abandon(f: Stage, w: World, resp: Response, ghost files: Files) returns (next: Stage)
    requires At(f, w, resp, files) && f != Stop && !w.calm
    modifies resp
    ensures next == Stop && Closed(w, resp, files)
    ensures resp.err == if old(resp.closes) == 0 then Some(Cancelled) else old(resp.err)
  {
    if resp.IsComplete() {
      return Stop;
    }
    MayClose(f, w, resp, files);
    resp.err := Some(Cancelled);
    next := DoCloseResponse(w, resp, files);
  }

  method Execute(f: Stage, w: World, resp: Response, ghost files: Files) returns (next: Stage)
    requires At(f, w, resp, files) && f != Stop
    modifies w`files, resp
    ensures At(next, w, resp, files) && RankOf(next, resp) < old(RankOf(f, resp))
    ensures next == Stop && f != OpenWriter ==> Closed(w, resp, files)
    ensures f == CopyFile || f == ChecksumFile || f == CloseResponse ==> next in {ChecksumFile, CloseResponse, Stop}
  {
    match f
    case StatFileInfo => next := DoStatFileInfo(w, resp, files);
    case ValidateLocal => next := DoValidateLocal(w, resp, files);
    case HeadRequest => next := DoHeadRequest(w, resp, files);
    case GetRequest => next := DoGetRequest(w, resp, files);
    case ReadResponse => next := DoReadResponse(w, resp, files);
    case OpenWriter => next := DoOpenWriter(w, resp, files);
    case CopyFile => next := DoCopyFile(w, resp, files);
    case ChecksumFile => next := DoChecksumFile(w, resp, files);
    case CloseResponse => next := DoCloseResponse(w, resp, files);
  }

  /** One turn of the run loop: cancelling is noticed first and ends the download; otherwise a state function runs. */
  method Turn(f: Stage, w: World, resp: Response, ghost files: Files) returns (next: Stage, cancelled: bool)
    requires At(f, w, resp, files) && f != Stop
    modifies w`files, resp
    ensures At(next, w, resp, files) && RankOf(next, resp) < old(RankOf(f, resp))
    ensures next == Stop && f != OpenWriter ==> Closed(w, resp, files)
    ensures f == CopyFile || f == ChecksumFile || f == CloseResponse ==> next in {ChecksumFile, CloseResponse, Stop}
    ensures cancelled ==> next == Stop && Closed(w, resp, files) && w.files == old(w.files)
    ensures cancelled ==> resp.err == if old(resp.closes) == 0 then Some(Cancelled) else old(resp.err)
    ensures w.calm ==> !cancelled
  {
    cancelled := w.Poll();
    if !cancelled {
      next := Execute(f, w, resp, files);
    } else {
      next := Abandon(f, w, resp, files);
    }
  }

  /** Calls state functions until one returns none. */
  method Run(first: Stage, w: World, resp: Response, ghost files: Files)
    requires first == StatFileInfo || first == CopyFile
    requires At(first, w, resp, files)
    modifies w`files, resp
    ensures Ready(w, resp, files) || Closed(w, resp, files)
    ensures first == CopyFile ==> Closed(w, resp, files)
  {
    var f := first;
    while f != Stop
      invariant At(f, w, resp, files)
      invariant first == CopyFile ==> f in {CopyFile, ChecksumFile, CloseResponse, Stop}
      invariant first == CopyFile && f == Stop ==> Closed(w, resp, files)
      decreases RankOf(f, resp)
    {
      var cancelled;
      f, cancelled := Turn(f, w, resp, files);
    }
  }

  /** What a download without error did. */
  lemma SuccessMeans(w: World, request: Request, files: Files)
    requires Flaw(w, request, files).None?
    ensures var get, path := w.Answer(request.verb, Range(w, request, files)), Dir(Target(w, request, files));
            var local := if path in files && files[path].Regular? then files[path].content else [];
            match Planned(w, request, files)
            case None =>
              && path in files && files[path].Regular? && Outcome(w, request, files) == files
              && (if request.size != 0 then request.size == |local|
                  else
                    var head := w.Answer(HEAD, None);
                    head.Some? && head.value.statusCode == 200 && head.value.contentLength == |local|)
            case Some(mode) =>
              && get.Some? && (request.ignoreBadStatusCodes || 200 <= get.value.statusCode <= 299)
              && (request.size > 0 && get.value.contentLength > 0 ==>
                    request.size == get.value.contentLength + if mode.Append? then |local| else 0)
              && Range(w, request, files) == (if mode.Append? then Some(|local|) else None)
              && (mode.Append? ==> !request.noResume && path in files)
              && var data := Delivered(get.value.body);
                 Outcome(w, request, files) == files[path := Regular(
                   match mode
                   case Append => local + data
                   case Truncate => data
                   case Create => data + if |data| <= |local| then local[|data|..] else [])]
  {
    if Planned(w, request, files).Some? {
      PutAtStart(TargetFound(w, request, files), Delivered(Get(w, request, files).value.body));
    }
  }

  lemma PutAtStart(content: seq<byte>, data: seq<byte>)
    ensures Put(content, 0, data) == data + if |data| <= |content| then content[|data|..] else []
  {
  }

  lemma SettledSuccess(w: World, resp: Response, files: Files)
    requires Settled(w, resp, files)
    ensures resp.err.None? ==>
              var get, path := w.Answer(resp.request.verb, resp.getRange), Dir(resp.filename);
              var local := if path in files && files[path].Regular? then files[path].content else [];
              match resp.mode
              case None =>
                && resp.gets == 0 && path in w.files && w.files[path].Regular? && w.files == files
                && (if resp.request.size != 0 then resp.request.size == |local|
                    else
                      var head := w.Answer(HEAD, None);
                      head.Some? && head.value.statusCode == 200 && head.value.contentLength == |local|)
              case Some(mode) =>
                && get.Some? && (resp.request.ignoreBadStatusCodes || 200 <= get.value.statusCode <= 299)
                && (resp.request.size > 0 && get.value.contentLength > 0 ==>
                      resp.request.size == get.value.contentLength + if mode.Append? then |local| else 0)
                && resp.gets == 1 && resp.getRange == (if mode.Append? then Some(|local|) else None)
                && (mode.Append? ==> !resp.request.noResume && path in files)
                && var data := Delivered(get.value.body);
                   w.files == files[path := Regular(
                     match mode
                     case Append => local + data
                     case Truncate => data
                     case Create => data + if |data| <= |local| then local[|data|..] else [])]
    ensures (forall path :: path in files ==> IsDirectory(files, Dir(path))) && resp.request.checksum.Some? ==>
              resp.err.Some?
  {
    if resp.err.None? {
      SuccessMeans(w, resp.request, files);
      if Tree(files) {
        NothingAtTarget(w, resp.request, files);
      }
    }
  }

  lemma SettledBroken(w: World, resp: Response, files: Files)
    requires Settled(w, resp, files)
    ensures resp.mode.Some? ==>
              var get := w.Answer(resp.request.verb, resp.getRange);
              && get.Some?
              && ((exists i :: 0 <= i < |get.value.body| && get.value.body[i].status.Broken?
                               && forall j :: 0 <= j < i ==> !get.value.body[j].status.Eof?) ==>
                    resp.err.Some? && (w.calm ==> resp.err == Some(ReadError)))
  {
    if resp.mode.Some? {
      EndsWellIff(Get(w, resp.request, files).value.body);
    }
  }

  /** No other file is touched. */
  lemma SettledElsewhere(w: World, resp: Response, files: Files)
    requires Settled(w, resp, files)
    ensures forall path :: path in files && path !in {resp.filename, Dir(resp.filename)} ==>
                             path in w.files && w.files[path] == files[path]
  {
  }

  /** A download: the run that sets up the transfer, then the one that copies, which the code starts in the background.
      Whatever the file system, the server and the canceller do, both end, and Done is closed exactly once. How the two end
      is what Settled says. */
  method Do(w: World, request: Request) returns (resp: Response)
    requires request.verb != HEAD
    modifies w`files
    ensures fresh(resp) && resp.request == request
    ensures resp.closes == 1 && Settled(w, resp, old(w.files))
    ensures resp.err.None? ==>
              var get, path := w.Answer(request.verb, resp.getRange), Dir(resp.filename);
              var local := if path in old(w.files) && old(w.files)[path].Regular? then old(w.files)[path].content else [];
              match resp.mode
              case None =>
                && resp.gets == 0 && path in w.files && w.files[path].Regular? && w.files == old(w.files)
                && (if request.size != 0 then request.size == |local|
                    else
                      var head := w.Answer(HEAD, None);
                      head.Some? && head.value.statusCode == 200 && head.value.contentLength == |local|)
              case Some(mode) =>
                && get.Some? && (request.ignoreBadStatusCodes || 200 <= get.value.statusCode <= 299)
                && (request.size > 0 && get.value.contentLength > 0 ==>
                      request.size == get.value.contentLength + if mode.Append? then |local| else 0)
                && resp.gets == 1 && resp.getRange == (if mode.Append? then Some(|local|) else None)
                && (mode.Append? ==> !request.noResume && path in old(w.files))
                && var data := Delivered(get.value.body);
                   w.files == old(w.files)[path := Regular(
                     match mode
                     case Append => local + data
                     case Truncate => data
                     case Create => data + if |data| <= |local| then local[|data|..] else [])]
    ensures resp.mode.Some? ==>
              var get := w.Answer(request.verb, resp.getRange);
              && get.Some?
              && ((exists i :: 0 <= i < |get.value.body| && get.value.body[i].status.Broken?
                               && forall j :: 0 <= j < i ==> !get.value.body[j].status.Eof?) ==>
                    resp.err.Some? && (w.calm ==> resp.err == Some(ReadError)))
    ensures (forall path :: path in old(w.files) ==> IsDirectory(old(w.files), Dir(path))) && request.checksum.Some? ==>
              resp.err.Some?
    ensures forall path :: path in old(w.files) && path !in {resp.filename, Dir(resp.filename)} ==>
                             path in w.files && w.files[path] == old(w.files)[path]
  {
    resp := new Response(request);
    Run(StatFileInfo, w, resp, w.files);
    Run(CopyFile, w, resp, old(w.files));
    SettledSuccess(w, resp, old(w.files));
    SettledBroken(w, resp, old(w.files));
    SettledElsewhere(w, resp, old(w.files));
  }

  /** Unless something fails by itself, a download ends with the error foreseen, if any. */
  method DoCalmly(w: World, request: Request) returns (resp: Response)
    requires request.verb != HEAD && w.calm
    modifies w`files
    ensures fresh(resp) && resp.request == request
    ensures resp.err == Foreseen(w, request, old(w.files))
    ensures resp.err.None? ==> w.files == Outcome(w, request, old(w.files))
    ensures resp.mode.Some? ==>
              var get := w.Answer(request.verb, resp.getRange);
              && get.Some?
              && ((exists i :: 0 <= i < |get.value.body| && get.value.body[i].status.Broken?
                               && forall j :: 0 <= j < i ==> !get.value.body[j].status.Eof?) ==>
                    resp.err == Some(ReadError))
  {
    resp := Do(w, request);
  }

  /** A body that breaks after one of two bytes: the download ends with the error of reading it. */
  method BrokenBody() returns (w: World, resp: Response)
    ensures fresh(w) && fresh(resp) && resp.err == Some(ReadError)
    ensures resp.request == Request(GET, true, "d/f", false, false, 2, None, false, false)
    ensures w.Answer(GET, None) == Some(HttpResponse(GET, 200, 2, true, Some("a"), [ReadResult([1], Broken)]))
  {
    var request := Request(GET, true, "d/f", false, false, 2, None, false, false);
    var files := map["." := Directory, "d" := Directory];
    var answer := HttpResponse(GET, 200, 2, true, Some("a"), [ReadResult([1], Broken)]);
    w := new World(files, (verb, range) => Some(answer), content => content, true);
    BrokenForeseen(w, request, files, answer);
    resp := DoCalmly(w, request);
  }

  lemma BrokenForeseen(w: World, request: Request, files: Files, answer: HttpResponse)
    requires request == Request(GET, true, "d/f", false, false, 2, None, false, false)
    requires files == map["." := Directory, "d" := Directory]
    requires answer == HttpResponse(GET, 200, 2, true, Some("a"), [ReadResult([1], Broken)])
    requires w.Answer(GET, None) == Some(answer)
    ensures Foreseen(w, request, files) == Some(ReadError)
  {
    JoinDir("d", "f");
    assert "d" + "/" + "f" == "d/f";
    JoinDir("d/f", "a");
    assert Planned(w, request, files) == Some(Create);
    assert Target(w, request, files) == Join("d/f", "a");
  }

  /** What comes of a file below an existing directory when resuming is not wanted and nothing is wrong with the answer. */
  lemma WrittenUnseen(w: World, request: Request, files: Files, answer: HttpResponse)
    requires request.noResume && request.filename != "" && IsDirectory(files, Dir(request.filename))
    requires IsRegular(files, request.filename)
    requires w.Answer(request.verb, None) == Some(answer) && answer.filename.Some? && EndsWell(answer.body)
    requires StatusFine(request, answer) && SizesAgree(request, 0, answer)
    ensures Flaw(w, request, files).None? && Get(w, request, files) == Some(answer) && Range(w, request, files).None?
    ensures Outcome(w, request, files)
            == files[request.filename := Regular(Put(files[request.filename].content, 0, Delivered(answer.body)))]
  {
    JoinDir(request.filename, answer.filename.value);
    assert Planned(w, request, files) == Some(Create);
  }

  /** A file of three bytes at a path of the working directory, for one of two: the download ends without error, with the
      right size expected, and leaves the third byte. */
  method KeptTail() returns (w: World, resp: Response)
    ensures fresh(w) && fresh(resp) && resp.err.None?
    ensures resp.request == Request(GET, true, "f", false, false, 2, None, false, false)
    ensures Honest(w, resp.request, map["." := Directory, "f" := Regular([7, 8, 9])], [1, 2])
    ensures w.files == map["." := Directory, "f" := Regular([1, 2, 9])]
  {
    var request := Request(GET, true, "f", false, false, 2, None, false, false);
    var files := map["." := Directory, "f" := Regular([7, 8, 9])];
    var answer := HttpResponse(GET, 200, 2, true, Some("a"), [ReadResult([1, 2], Eof)]);
    w := new World(files, (verb, range) => Some(answer), content => content, true);
    KeptTailForeseen(w, request, files, answer);
    resp := DoCalmly(w, request);
  }

  lemma KeptTailForeseen(w: World, request: Request, files: Files, answer: HttpResponse)
    requires request == Request(GET, true, "f", false, false, 2, None, false, false)
    requires files == map["." := Directory, "f" := Regular([7, 8, 9])]
    requires answer == HttpResponse(GET, 200, 2, true, Some("a"), [ReadResult([1, 2], Eof)])
    requires w.Answer(GET, None) == Some(answer)
    ensures Honest(w, request, files, [1, 2]) && Flaw(w, request, files).None?
    ensures Outcome(w, request, files) == map["." := Directory, "f" := Regular([1, 2, 9])]
  {
    JoinDir("", "f");
    WrittenUnseen(w, request, files, answer);
    assert Delivered(answer.body) == [1, 2] && Put([7, 8, 9], 0, [1, 2]) == [1, 2, 9];
  }
}
