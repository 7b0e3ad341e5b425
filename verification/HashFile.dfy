/** runHash: verifying a downloaded file and moving it to its final place, on a file system where any
    operation may fail. */
module HashFile {
  import opened Text

  type Bytes = seq<bv8>

  type Files = map<string, Bytes>

  // ---------------------------------------------------------------- names

  /** `_<ms>` before the extension, or at the end when there is none. */
  function WithTimestampSuffix(filename: string, timestampMs: nat): string
  {
    var dotIndex := LastIndexOf(filename, '.');
    if dotIndex <= 0 then filename + "_" + Decimal(timestampMs)
    else filename[..dotIndex] + "_" + Decimal(timestampMs) + filename[dotIndex..]
  }

  /** Everything after the first three levels. */
  function FormatTopicDir(topic: string): string
  {
    var parts := Split(topic, '/');
    Join(if |parts| > 3 then parts[3..] else [], '/')
  }

  /** A topic of more than three levels is its first three and its directory. */
  lemma TopicDirIsTheRest(a: string, b: string, c: string, rest: string)
    requires '/' !in a && '/' !in b && '/' !in c
    ensures FormatTopicDir(a + "/" + (b + "/" + (c + "/" + rest))) == rest
  {
    SplitFirst(c, '/', rest);
    SplitFirst(b, '/', c + "/" + rest);
    SplitFirst(a, '/', b + "/" + (c + "/" + rest));
    JoinOfSplit(rest, '/');
    hide Split, Join;
    assert ([a] + ([b] + ([c] + Split(rest, '/'))))[3..] == Split(rest, '/');
    assert a + "/" + (b + "/" + (c + "/" + rest)) == a + ['/'] + (b + "/" + (c + "/" + rest));
  }

  /** `stem.ext` becomes `stem_ms.ext`; a name without a dot after its first character gets the time at its end. */
  lemma SuffixForm(stem: string, ext: string, t: nat)
    requires '.' !in ext
    ensures stem != "" ==> WithTimestampSuffix(stem + "." + ext, t) == stem + "_" + Decimal(t) + "." + ext
    ensures WithTimestampSuffix(ext, t) == ext + "_" + Decimal(t)
  {
    var name := stem + "." + ext;
    assert LastAt(name, '.', |stem|);
    hide Decimal;
    assert name[..|stem|] == stem && name[|stem|..] == "." + ext;
    assert stem + "_" + Decimal(t) + ("." + ext) == stem + "_" + Decimal(t) + "." + ext;
  }

  // ---------------------------------------------------------------- no two names share a suffixed name

  /** The suffix does not touch the extension, and moves the dot by its own length. */
  lemma SuffixDot(filename: string, t: nat)
    ensures var d, s := LastIndexOf(filename, '.'), WithTimestampSuffix(filename, t);
            && (d <= 0 ==> LastIndexOf(s, '.') == d)
            && (d > 0 ==> LastIndexOf(s, '.') == d + 1 + |Decimal(t)|)
  {
    var d, s, n := LastIndexOf(filename, '.'), WithTimestampSuffix(filename, t), Decimal(t);
    assert '.' !in "_" + n;
    hide Decimal;
    if d > 0 {
      assert LastAt(s, '.', d + 1 + |n|);
    } else if d == 0 {
      assert LastAt(s, '.', 0);
    }
  }

  /** In one millisecond two different names never get the same new name. */
  lemma SuffixInjective(f: string, g: string, t: nat)
    requires WithTimestampSuffix(f, t) == WithTimestampSuffix(g, t)
    ensures f == g
  {
    SuffixDot(f, t);
    SuffixDot(g, t);
    var s, n, d, e := WithTimestampSuffix(f, t), Decimal(t), LastIndexOf(f, '.'), LastIndexOf(g, '.');
    hide Decimal;
    if d > 0 && e > 0 {
      assert d == e;
      assert f == s[..d] + s[d + 1 + |n|..] && g == s[..d] + s[d + 1 + |n|..];
    } else {
      assert d <= 0 && e <= 0;
      assert f == s[..|s| - 1 - |n|] && g == s[..|s| - 1 - |n|];
    }
  }

  /** The new name always differs from the old one and keeps its extension. */
  lemma SuffixKeepsExtension(f: string, t: nat)
    ensures WithTimestampSuffix(f, t) != f
    ensures var d := LastIndexOf(f, '.');
            d > 0 ==> var s := WithTimestampSuffix(f, t); s[LastIndexOf(s, '.')..] == f[d..] && s[..d] == f[..d]
  {
    SuffixDot(f, t);
    hide Decimal;
    assert |WithTimestampSuffix(f, t)| > |f|;
  }

  // ---------------------------------------------------------------- inputs and results

  /** What the runtime computes about paths, dates and digests. dateDir is None where toISOString throws. */
  datatype Runtime = Runtime(
    dirname: string -> string, basename: string -> string, join: (string, string) -> string,
    relative: (string, string) -> string, dateDir: string -> Option<string>,
    supported: string -> bool, digest: (Bytes, string) -> string)

  datatype Expected = Digest(text: string) | Number(n: int)

  datatype Input = Input(filepath: string, integrity: Option<string>, hash: Expected, pubtime: string, topic: string)

  datatype Config = Config(worker: string, downloadUrlBase: string, renameToDate: bool, renameToTopic: bool, renameToS3: bool, ariaDownload: string)

  datatype Verdict = HashOk | HashNok | Fail

  datatype Detail = NoDetail | DigestMismatch | UnsupportedMethod

  datatype Result =
    | Done(outcome: Verdict, detail: Detail, length: nat, localhref: Option<string>, uri: string, localPath: Option<string>)
    | RenameIoError
    | HashReadError

  // ---------------------------------------------------------------- the file system

  class Disk {
    var files: Files
    var dirs: set<string>
    var bucket: map<string, Bytes>  // objects uploaded to S3

    ghost predicate Valid()
      reads this
    {
      files.Keys !! dirs
    }

    method StatSize(path: string) returns (size: nat)
      ensures size == 0 || (path in files && size == |files[path]|)
    {
      var fails: bool := *;
      size := if path in files && !fails then |files[path]| else 0;
    }

    method Exists(path: string) returns (found: bool)
      ensures found == (path in files || path in dirs)
    {
      found := path in files || path in dirs;
    }

    /** May create some parents and then fail. */
    method MkdirRecursive(dir: string) returns (ok: bool)
      requires Valid()
      modifies this`dirs
      ensures Valid() && old(dirs) <= dirs && (ok ==> dir in dirs)
    {
      var fails: bool := *;
      var parents: set<string> := *;
      ok := !fails && dir !in files;
      dirs := dirs + (parents - files.Keys) + (if ok then {dir} else {});
    }

    method RenameSync(from: string, to: string) returns (ok: bool)
      requires Valid()
      modifies this`files
      ensures Valid()
      ensures ok ==> from in old(files) && files == (old(files) - {from})[to := old(files)[from]]
      ensures !ok ==> files == old(files)
    {
      var fails: bool := *;
      ok := !fails && from in files && to !in dirs;
      if ok { files := (files - {from})[to := files[from]]; }
    }

    method Unlink(path: string) returns (ok: bool)
      requires Valid()
      modifies this`files
      ensures Valid() && files == if ok then old(files) - {path} else old(files)
    {
      var fails: bool := *;
      ok := !fails && path in files;
      if ok { files := files - {path}; }
    }

    method HashFileBase64(rt: Runtime, path: string, integrity: string) returns (r: Option<string>)
      ensures r.Some? ==> path in files && r.value == rt.digest(files[path], integrity)
    {
      var fails: bool := *;
      r := if path in files && !fails then Some(rt.digest(files[path], integrity)) else None;
    }

    method UploadToS3(objectName: string, path: string) returns (ok: bool)
      modifies this`bucket
      ensures ok ==> path in files && bucket == old(bucket)[objectName := files[path]]
      ensures !ok ==> bucket == old(bucket)
    {
      var fails: bool := *;
      ok := path in files && !fails;
      if ok { bucket := bucket[objectName := files[path]]; }
    }
  }

  // ---------------------------------------------------------------- what may happen to the files

  /** Every file but the input is as it was. */
  ghost predicate OthersIntact(before: Files, after: Files, input: string)
  {
    forall q :: q in before && q != input ==> q in after && after[q] == before[q]
  }

  /** The input was moved, with its bytes, to a path that held nothing. */
  ghost predicate MovedTo(before: Files, after: Files, input: string, path: string)
  {
    && input in before && path in after && after[path] == before[input]
    && (path == input || path !in before)
    && after.Keys == before.Keys - {input} + {path}
    && OthersIntact(before, after, input)
  }

  /** The input was left alone or removed; nothing else happened. */
  ghost predicate LeftOrRemoved(before: Files, after: Files, input: string)
  {
    after == before || after == before - {input}
  }

  // ---------------------------------------------------------------- src/downloader/hash.ts

  datatype RenameOutcome = Renamed(renamed: bool, failed: bool, filepath: string) | Threw

  /** The name a file gets in a directory: its own, or the time-stamped one when that is taken. */
  function Target(rt: Runtime, filepath: string, dir: string): string { rt.join(dir, rt.basename(filepath)) }

  function Disambiguated(rt: Runtime, filepath: string, dir: string, now: nat): string
  {
    rt.join(dir, WithTimestampSuffix(rt.basename(filepath), now))
  }

  method RenameIntoDir(disk: Disk, rt: Runtime, filepath: string, targetDir: string, now: nat) returns (r: RenameOutcome)
    requires disk.Valid()
    modifies disk`files
    ensures disk.Valid()
    ensures r.Threw? ==> disk.files == old(disk.files)
    ensures r.Renamed? ==> (r.renamed <==> !r.failed)
    ensures r.Renamed? && r.renamed ==>
            && MovedTo(old(disk.files), disk.files, filepath, r.filepath)
            && r.filepath !in old(disk.files) && r.filepath !in disk.dirs
            && r.filepath == (if Target(rt, filepath, targetDir) in old(disk.files) || Target(rt, filepath, targetDir) in disk.dirs
                              then Disambiguated(rt, filepath, targetDir, now) else Target(rt, filepath, targetDir))
    ensures r.Renamed? && r.failed ==>
            && disk.files == old(disk.files) - {filepath}
            && forall p :: p in {Target(rt, filepath, targetDir), Disambiguated(rt, filepath, targetDir, now)} ==>
                 p in old(disk.files) || p in disk.dirs
  {
    var filename := rt.basename(filepath);
    var targetPath := rt.join(targetDir, filename);
    var taken := disk.Exists(targetPath);
    if !taken {
      var ok := disk.RenameSync(filepath, targetPath);
      return if ok then Renamed(true, false, targetPath) else Threw;
    }
    var disambiguatedPath := rt.join(targetDir, WithTimestampSuffix(filename, now));
    taken := disk.Exists(disambiguatedPath);
    if taken {
      var ok := disk.Unlink(filepath);
      return if ok then Renamed(false, true, filepath) else Threw;
    }
    var ok := disk.RenameSync(filepath, disambiguatedPath);
    return if ok then Renamed(true, false, disambiguatedPath) else Threw;
  }

  /** The directory a file is moved into, if any: by date first, then by topic. */
  function RenameDir(rt: Runtime, input: Input, config: Config): Option<string>
  {
    if config.renameToDate && input.pubtime != "" then
      match rt.dateDir(input.pubtime)
      case Some(dir) => Some(rt.join(rt.dirname(input.filepath), dir))
      case None => None
    else if config.renameToTopic && input.topic != "" then Some(rt.join(rt.dirname(input.filepath), FormatTopicDir(input.topic)))
    else None
  }

  /** Where the file goes, given the paths taken by other files and by directories. */
  function Destination(rt: Runtime, input: Input, config: Config, now: nat, files: Files, dirs: set<string>): Option<string>
  {
    match RenameDir(rt, input, config)
    case None => None
    case Some(dir) =>
      var target := Target(rt, input.filepath, dir);
      Some(if target in files || target in dirs then Disambiguated(rt, input.filepath, dir, now) else target)
  }

  /** A file's place in a directory next to it: under its own name, or with the time when that is taken. */
  function PlaceIn(rt: Runtime, filepath: string, dir: string, now: nat, files: Files, dirs: set<string>): string
  {
    var full := rt.join(rt.dirname(filepath), dir);
    var own := rt.join(full, rt.basename(filepath));
    if own in files || own in dirs then rt.join(full, WithTimestampSuffix(rt.basename(filepath), now)) else own
  }

  /** The date of publication decides, where it is configured and known; otherwise the levels of the topic
      after the third; otherwise the file stays. */
  lemma DestinationIs(rt: Runtime, input: Input, config: Config, now: nat, files: Files, dirs: set<string>)
    ensures var destination := Destination(rt, input, config, now, files, dirs);
            if config.renameToDate && input.pubtime != "" then
              (if rt.dateDir(input.pubtime).Some?
               then destination == Some(PlaceIn(rt, input.filepath, rt.dateDir(input.pubtime).value, now, files, dirs))
               else destination == None)
            else if config.renameToTopic && input.topic != "" then
              destination == Some(PlaceIn(rt, input.filepath, FormatTopicDir(input.topic), now, files, dirs))
            else destination == None
  {
  }

  /** Both names are taken in the directory. */
  predicate BothTaken(rt: Runtime, input: Input, config: Config, now: nat, files: Files, dirs: set<string>)
  {
    RenameDir(rt, input, config).Some? &&
    var dir := RenameDir(rt, input, config).value;
    var target, other := Target(rt, input.filepath, dir), Disambiguated(rt, input.filepath, dir, now);
    (target in files || target in dirs) && (other in files || other in dirs)
  }

  predicate ByDirectory(input: Input, config: Config)
  {
    (config.renameToDate && input.pubtime != "") || (config.renameToTopic && input.topic != "")
  }

  method HandleRename(disk: Disk, rt: Runtime, input: Input, config: Config, now: nat) returns (r: RenameOutcome)
    requires disk.Valid()
    modifies disk
    ensures disk.Valid()
    ensures r.Threw? ==> disk.files == old(disk.files) && disk.bucket == old(disk.bucket) && ByDirectory(input, config)
    ensures r.Renamed? && r.failed ==> disk.bucket == old(disk.bucket)
    ensures r.Renamed? && r.failed && ByDirectory(input, config) ==>
            disk.files == old(disk.files) - {input.filepath} && BothTaken(rt, input, config, now, old(disk.files), disk.dirs)
    ensures r.Renamed? && r.failed && !ByDirectory(input, config) ==> config.renameToS3 && disk.files == old(disk.files)
    ensures r.Renamed? && ByDirectory(input, config) ==> (r.renamed <==> !r.failed) && disk.bucket == old(disk.bucket)
    ensures r.Renamed? && r.renamed && ByDirectory(input, config) ==>
            && MovedTo(old(disk.files), disk.files, input.filepath, r.filepath) && r.filepath !in old(disk.files)
            && Destination(rt, input, config, now, old(disk.files), disk.dirs) == Some(r.filepath)
    ensures r.Renamed? && !r.failed && !ByDirectory(input, config) && !config.renameToS3 ==>
            disk.files == old(disk.files) && disk.bucket == old(disk.bucket) && r.filepath == input.filepath
    ensures r.Renamed? && !r.failed && !ByDirectory(input, config) && config.renameToS3 ==>
            && input.filepath in old(disk.files) && r.filepath == input.filepath
            && disk.bucket == old(disk.bucket)[rt.basename(input.filepath) := old(disk.files)[input.filepath]]
            && LeftOrRemoved(old(disk.files), disk.files, input.filepath)
  {
    if config.renameToDate && input.pubtime != "" {
      var date := rt.dateDir(input.pubtime);
      if date.None? { return Threw; }
      var dateDir := rt.join(rt.dirname(input.filepath), date.value);
      var made := disk.MkdirRecursive(dateDir);
      if !made { return Threw; }
      r := RenameIntoDir(disk, rt, input.filepath, dateDir, now);
    } else if config.renameToTopic && input.topic != "" {
      var topicDir := rt.join(rt.dirname(input.filepath), FormatTopicDir(input.topic));
      var made := disk.MkdirRecursive(topicDir);
      if !made { return Threw; }
      r := RenameIntoDir(disk, rt, input.filepath, topicDir, now);
    } else if config.renameToS3 {
      var uploaded := disk.UploadToS3(rt.basename(input.filepath), input.filepath);
      if !uploaded { return Renamed(false, true, input.filepath); }
      var _ := disk.Unlink(input.filepath);
      r := Renamed(true, false, input.filepath);
    } else {
      r := Renamed(false, false, input.filepath);
    }
  }

  /** buildLocalHrefAndUri, as the HASH_OK result it is spread into. */
  function AcceptedResult(rt: Runtime, config: Config, filepath: string, length: nat): Result
  {
    if config.renameToS3 then
      var name := rt.basename(filepath);
      Done(HashOk, NoDetail, length, PublicAddress(config, name), name, None)
    else
      Done(HashOk, NoDetail, length, PublicAddress(config, filepath), filepath, Some(rt.relative(config.ariaDownload, filepath)))
  }

  /** The file's content is as announced, or nothing was announced to check it against. */
  ghost predicate Trusted(rt: Runtime, input: Input, content: Bytes)
  {
    input.integrity.None? || input.hash == Number(0) ||
    (rt.supported(input.integrity.value) && input.hash == Digest(rt.digest(content, input.integrity.value)))
  }

  /** Outside S3, the bytes of the input after HASH_OK: at the returned uri, which is the old path with nothing
      changed, or a path the file was moved to. */
  ghost predicate Kept(before: Files, after: Files, input: string, uri: string)
  {
    (uri == input && after == before) || MovedTo(before, after, input, uri)
  }

  /** The input was moved to its destination and is announced by the bare name it has there. */
  ghost predicate MovedAsName(rt: Runtime, before: Files, after: Files, input: string, destination: Option<string>, uri: string)
  {
    destination.Some? && MovedTo(before, after, input, destination.value) && uri == rt.basename(destination.value)
  }

  /** The address under the download URL, when there is one: the object's name for S3, else worker and path. */
  function PublicAddress(config: Config, uri: string): Option<string>
  {
    if config.downloadUrlBase == "" then None
    else Some(config.downloadUrlBase + "/" + (if config.renameToS3 then uri else config.worker + uri))
  }

  lemma Between(base: string, a: string, b: string, tail: string)
    ensures base + (a + tail) == base + (b + tail) <==> a == b
  {
    var x, y := base + (a + tail), base + (b + tail);
    assert x[|base|..] == a + tail && y[|base|..] == b + tail;
    assert (a + tail)[..|a|] == a && (b + tail)[..|b|] == b;
    assert x == y ==> |a| == |b|;
  }

  /** Two workers with one base announce one path differently exactly without S3. */
  lemma WorkersApartIff(config: Config, worker: string, uri: string)
    requires config.downloadUrlBase != "" && worker != config.worker
    ensures PublicAddress(config, uri) != PublicAddress(config.(worker := worker), uri) <==> !config.renameToS3
  {
    Between(config.downloadUrlBase + "/", config.worker, worker, uri);
  }

  /** The common end of both accepting branches. */
  method Relocate(disk: Disk, rt: Runtime, input: Input, config: Config, now: nat, length: nat) returns (r: Result)
    requires disk.Valid() && input.filepath in disk.files
    modifies disk
    ensures disk.Valid()
    ensures r.RenameIoError? ==> disk.files == old(disk.files) && disk.bucket == old(disk.bucket)
    ensures !r.HashReadError? && (r.Done? ==> r.outcome != HashNok && r.detail == NoDetail && r.length == length)
    ensures r.Done? && r.outcome == Fail ==>
            && disk.bucket == old(disk.bucket)
            && (if ByDirectory(input, config)
                then disk.files == old(disk.files) - {input.filepath} && BothTaken(rt, input, config, now, old(disk.files), disk.dirs)
                else config.renameToS3 && disk.files == old(disk.files))
    ensures r.Done? && r.outcome == HashOk && ByDirectory(input, config) ==>
            && Destination(rt, input, config, now, old(disk.files), disk.dirs).Some?
            && var p := Destination(rt, input, config, now, old(disk.files), disk.dirs).value;
               MovedTo(old(disk.files), disk.files, input.filepath, p) && (!config.renameToS3 ==> r.uri == p)
    ensures r.Done? && r.outcome == HashOk && !ByDirectory(input, config) && !config.renameToS3 ==> r.uri == input.filepath
    ensures r.Done? && r.outcome == HashOk ==> (r.localhref.None? <==> config.downloadUrlBase == "")
    ensures r.Done? && r.outcome == HashOk && config.downloadUrlBase != "" && !config.renameToS3 ==>
            r.localhref == Some(config.downloadUrlBase + "/" + (config.worker + r.uri))
    ensures r.Done? && r.outcome == HashOk && config.downloadUrlBase != "" && config.renameToS3 ==>
            r.localhref == Some(config.downloadUrlBase + "/" + r.uri)
    ensures r.Done? && r.outcome == HashOk && !ByDirectory(input, config) ==>
            LeftOrRemoved(old(disk.files), disk.files, input.filepath)
    ensures r.Done? && r.outcome == HashOk && !config.renameToS3 ==>
            && Kept(old(disk.files), disk.files, input.filepath, r.uri) && disk.bucket == old(disk.bucket)
            && r.localPath == Some(rt.relative(config.ariaDownload, r.uri))
            && (r.uri != input.filepath ==> ByDirectory(input, config))
    ensures r.Done? && r.outcome == HashOk && config.renameToS3 && !ByDirectory(input, config) ==>
            && r.uri == rt.basename(input.filepath) && r.localPath == None
            && disk.bucket == old(disk.bucket)[r.uri := old(disk.files)[input.filepath]]
    ensures r.Done? && r.outcome == HashOk && config.renameToS3 && ByDirectory(input, config) ==>
            && disk.bucket == old(disk.bucket) && r.localPath == None
            && MovedAsName(rt, old(disk.files), disk.files, input.filepath, Destination(rt, input, config, now, old(disk.files), disk.dirs), r.uri)
  {
    var result := HandleRename(disk, rt, input, config, now);
    if result.Threw? { return RenameIoError; }
    if result.failed { return Done(Fail, NoDetail, length, None, "", None); }
    r := AcceptedResult(rt, config, result.filepath, length);
  }

  method RunHash(disk: Disk, rt: Runtime, input: Input, config: Config, now: nat) returns (r: Result)
    requires disk.Valid() && input.filepath in disk.files
    modifies disk
    ensures disk.Valid()
    // no other file is touched, and at most one new path appears, holding the input's bytes
    ensures OthersIntact(old(disk.files), disk.files, input.filepath)
    ensures forall p :: p in disk.files && p !in old(disk.files) ==>
              MovedTo(old(disk.files), disk.files, input.filepath, p) && r.Done? && r.outcome == HashOk
    // an exception leaves every file as it was
    ensures !r.Done? ==> disk.files == old(disk.files) && disk.bucket == old(disk.bucket)
    // with a supported method, the verdict is HASH_NOK exactly when something was announced and the digest is another
    ensures r.Done? && input.integrity.Some? && rt.supported(input.integrity.value) ==>
            (r.outcome == HashNok <==>
             input.hash != Number(0) && input.hash != Digest(rt.digest(old(disk.files)[input.filepath], input.integrity.value)))
    ensures r.Done? && input.integrity.None? ==> r.outcome != HashNok
    // HASH_OK: the content is trusted, and it is where the result says
    ensures r.Done? && r.outcome == HashOk ==> Trusted(rt, input, old(disk.files)[input.filepath])
    ensures r.Done? && r.outcome == HashOk && !config.renameToS3 ==>
            && Kept(old(disk.files), disk.files, input.filepath, r.uri) && disk.bucket == old(disk.bucket)
            && r.localPath == Some(rt.relative(config.ariaDownload, r.uri))
            && (r.uri != input.filepath ==> ByDirectory(input, config))
    ensures r.Done? && r.outcome == HashOk && config.renameToS3 && !ByDirectory(input, config) ==>
            && r.uri == rt.basename(input.filepath) && r.localPath == None
            && disk.bucket == old(disk.bucket)[r.uri := old(disk.files)[input.filepath]]
            && LeftOrRemoved(old(disk.files), disk.files, input.filepath)
    // S3 and a directory together: the file is moved, nothing is uploaded, and the uri is a bare name all the same
    ensures r.Done? && r.outcome == HashOk && config.renameToS3 && ByDirectory(input, config) ==>
            && disk.bucket == old(disk.bucket) && r.localPath == None
            && MovedAsName(rt, old(disk.files), disk.files, input.filepath, Destination(rt, input, config, now, old(disk.files), disk.dirs), r.uri)
    ensures r.Done? && r.outcome == HashOk && !config.renameToS3 ==>
            Some(r.uri) == (if ByDirectory(input, config) then Destination(rt, input, config, now, old(disk.files), disk.dirs) else Some(input.filepath))
    ensures r.Done? && r.outcome == HashOk ==> (r.localhref.None? <==> config.downloadUrlBase == "")
    ensures r.Done? && r.outcome == HashOk && config.downloadUrlBase != "" && !config.renameToS3 ==>
            r.localhref == Some(config.downloadUrlBase + "/" + (config.worker + r.uri))
    ensures r.Done? && r.outcome == HashOk && config.downloadUrlBase != "" && config.renameToS3 ==>
            r.localhref == Some(config.downloadUrlBase + "/" + r.uri)
    ensures r.Done? ==> r.length == 0 || r.length == |old(disk.files)[input.filepath]|
    // anything else: nothing new, and only the input may be gone
    ensures r.Done? && r.outcome != HashOk ==>
            LeftOrRemoved(old(disk.files), disk.files, input.filepath) && disk.bucket == old(disk.bucket)
    // FAIL: both names were taken and the file is gone, or the upload failed and it is still there
    ensures r.Done? && r.outcome == Fail ==>
            if ByDirectory(input, config)
            then disk.files == old(disk.files) - {input.filepath} && BothTaken(rt, input, config, now, old(disk.files), disk.dirs)
            else config.renameToS3 && disk.files == old(disk.files)
    ensures r.Done? && r.detail == DigestMismatch ==>
            && r.outcome == HashNok && input.integrity.Some? && rt.supported(input.integrity.value)
            && !Trusted(rt, input, old(disk.files)[input.filepath])
    ensures r.Done? && r.detail == UnsupportedMethod ==>
            r.outcome == HashNok && input.integrity.Some? && !rt.supported(input.integrity.value) && disk.files == old(disk.files)
    ensures r.Done? && r.outcome == HashNok ==> r.detail != NoDetail
    ensures r.Done? && r.outcome == Fail ==> Trusted(rt, input, old(disk.files)[input.filepath])
  {
    var length := disk.StatSize(input.filepath);
    if input.integrity.None? {
      r := Relocate(disk, rt, input, config, now, length);
      return;
    }
    if !rt.supported(input.integrity.value) {
      return Done(HashNok, UnsupportedMethod, length, None, "", None);
    }
    var digest := disk.HashFileBase64(rt, input.filepath, input.integrity.value);
    if digest.None? { return HashReadError; }
    if Digest(digest.value) == input.hash || input.hash == Number(0) {
      r := Relocate(disk, rt, input, config, now, length);
      return;
    }
    var _ := disk.Unlink(input.filepath);
    r := Done(HashNok, DigestMismatch, length, None, "", None);
  }
}
