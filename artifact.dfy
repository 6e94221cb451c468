/** Locating, downloading and pinning the language-server binary: `getIdeExePath` and
    `retrieveArtifact`. The host (file system, extension global state, network) is an explicit
    state: the files and directories that exist, the `redscript-ide.version` record, and a log of
    the external actions taken, in order. The release query and the download arrive as outcomes. */
module Artifact {
  import opened Wrappers
  import opened Platform
  import opened Release

  /** The mode `writeFile` creates a file with (0o666; the process umask is not modelled). */
  const CreateMode: nat := 438
  /** The mode set by `chmod(path, 0o755)`. */
  const ExecutableMode: nat := 493

  datatype FileEntry = FileEntry(contents: seq<bv8>, mode: nat)

  /** The external actions `retrieveArtifact` can take, as they would appear in a trace. */
  datatype Effect =
    | QueryRelease
    | Download(url: string)
    | MakeDirectory(path: string)
    | WriteFile(path: string)
    | Chmod(path: string, mode: nat)
    | RecordVersion(tag: string)

  datatype HostState = HostState(
    files: map<string, FileEntry>,
    dirs: set<string>,
    record: Option<string>,     // `globalState.get("redscript-ide.version")`
    effects: seq<Effect>)

  /** Everything `retrieveArtifact` learns from outside: the global storage directory, the
      target, the outcome of the release request and the outcome of the download. */
  datatype Environment = Environment(
    root: string,
    platform: string,
    arch: string,
    response: Result<Response, string>,
    download: Result<seq<bv8>, string>)

  datatype RetrieveError =
    | Unsupported(cause: PlatformError)   // thrown by `getExeName` via `getIdeExePath`
    | NoUsableArtifact                    // "Could not download redscript-ide from Github"
    | DownloadFailed(reason: string)

  /** `getIdeExePath`'s result. */
  datatype CacheEntry = CacheEntry(path: string, present: bool)

  /** The directory of one cached version: `<root>/artifacts/redscript-ide-<version>`. */
  function ArtifactDir(root: string, version: string): string
  {
    root + "/artifacts/redscript-ide-" + version
  }

  function ArtifactPath(root: string, version: string, exeName: string): string
  {
    ArtifactDir(root, version) + "/" + exeName
  }

  /** `fs.promises.access` with the default mode: the path names a file or a directory. */
  predicate Exists(s: HostState, path: string)
  {
    path in s.files || path in s.dirs
  }

  /** `getIdeExePath`: the cache path of a version and whether something is there. */
  function IdeExePath(s: HostState, root: string, version: string, platform: string, arch: string)
    : (r: Result<CacheEntry, PlatformError>)
    ensures r.Ok? <==> IsSupported(platform, arch)
    ensures r.Err? ==> r == Err(ExeName(platform, arch).error)
    ensures r.Ok? ==> r.value.path == ArtifactPath(root, version, ExeName(platform, arch).value)
    ensures r.Ok? ==> (r.value.present <==> Exists(s, r.value.path))
  {
    match ExeName(platform, arch)
    case Err(e) => Err(e)
    case Ok(exeName) =>
      var path := ArtifactPath(root, version, exeName);
      Ok(CacheEntry(path, Exists(s, path)))
  }

  /** The cache layout keys on the version: for one storage root and one asset name, two
      versions share a path only if they are equal. */
  lemma ArtifactPathInjective(root: string, v1: string, v2: string, exeName: string)
    requires ArtifactPath(root, v1, exeName) == ArtifactPath(root, v2, exeName)
    ensures v1 == v2
  {
    var prefix := root + "/artifacts/redscript-ide-";
    var p1, p2 := ArtifactPath(root, v1, exeName), ArtifactPath(root, v2, exeName);
    assert p1 == prefix + v1 + "/" + exeName;
    assert p2 == prefix + v2 + "/" + exeName;
    assert |v1| == |v2|;
    assert v1 == p1[|prefix|..|prefix| + |v1|];
    assert v2 == p2[|prefix|..|prefix| + |v2|];
  }

  /** Every directory `mkdir(dir, { recursive: true })` ensures exists: the directory and each
      of its proper prefixes that ends just before a `/`. */
  function DirPrefixes(dir: string): (r: set<string>)
    ensures dir in r
  {
    {dir} + set i | 0 < i < |dir| && dir[i] == '/' :: dir[..i]
  }

  /** Creating the directory of a cached version creates the storage root and its `artifacts`
      directory too, and nothing that is not an ancestor of that directory. */
  lemma {:induction false} ArtifactDirAncestors(root: string, version: string)
    requires root != ""
    ensures var dir := ArtifactDir(root, version);
            && root in DirPrefixes(dir)
            && root + "/artifacts" in DirPrefixes(dir)
            && dir in DirPrefixes(dir)
            && forall d :: d in DirPrefixes(dir) ==> |d| <= |dir| && d == dir[..|d|]
  {
    var dir := ArtifactDir(root, version);
    assert dir == root + "/artifacts" + "/redscript-ide-" + version;
    assert dir[|root|] == '/' && dir[..|root|] == root;
    var k := |root + "/artifacts"|;
    assert dir[k] == '/' && dir[..k] == root + "/artifacts";
  }

  /** The fallback candidate of line 74: a recorded version, unless it is missing or empty
      (both are falsy in JavaScript). */
  function RecordedVersion(record: Option<string>): Option<string>
  {
    if record.Some? && record.value != "" then record else None
  }

  /** Lines 90-94: the install steps once the bytes of the release have arrived. */
  function Install(s: HostState, root: string, info: ReleaseInfo, exeName: string, bytes: seq<bv8>): (r: HostState)
    // the release's bytes sit at its cache path, executable
    ensures ArtifactPath(root, info.tagName, exeName) in r.files
    ensures r.files[ArtifactPath(root, info.tagName, exeName)] == FileEntry(bytes, ExecutableMode)
    // every other file is kept, and no directory disappears
    ensures forall p :: p in s.files && p != ArtifactPath(root, info.tagName, exeName) ==> p in r.files && r.files[p] == s.files[p]
    ensures s.dirs <= r.dirs && ArtifactDir(root, info.tagName) in r.dirs
    // the tag is recorded, and the four steps are appended to the log
    ensures r.record == Some(info.tagName)
    ensures r.effects == s.effects + [MakeDirectory(ArtifactDir(root, info.tagName)),
                                      WriteFile(ArtifactPath(root, info.tagName, exeName)),
                                      Chmod(ArtifactPath(root, info.tagName, exeName), ExecutableMode),
                                      RecordVersion(info.tagName)]
    // no other file appears, and the only new directories are those `mkdir` creates
    ensures r.files.Keys == s.files.Keys + {ArtifactPath(root, info.tagName, exeName)}
    ensures r.dirs == s.dirs + DirPrefixes(ArtifactDir(root, info.tagName))
  {
    var dir := ArtifactDir(root, info.tagName);
    var path := ArtifactPath(root, info.tagName, exeName);
    HostState(
      s.files[path := FileEntry(bytes, ExecutableMode)],
      s.dirs + DirPrefixes(dir),
      Some(info.tagName),
      s.effects + [MakeDirectory(dir), WriteFile(path), Chmod(path, ExecutableMode), RecordVersion(info.tagName)])
  }

  /** `retrieveArtifact`: fall back to the recorded version, fail, or use the latest release,
      downloading and installing it first when its path is absent. Every failure of
      `getLatestRelease` counts as "latest unavailable". */
  function Retrieve(s: HostState, env: Environment): (out: (Result<string, RetrieveError>, HostState))
    // a returned path always names something that exists afterwards
    ensures out.0.Ok? ==> Exists(out.1, out.0.value)
    // a failure leaves files, directories and the version record as they were
    ensures out.0.Err? ==> out.1.files == s.files && out.1.dirs == s.dirs && out.1.record == s.record
    // an unsupported target never yields a path
    ensures !IsSupported(env.platform, env.arch) ==> out.0.Err?
  {
    var current := RecordedVersion(s.record);
    if current.Some? && !IsSupported(env.platform, env.arch) then
      (Err(Unsupported(ExeName(env.platform, env.arch).error)), s)
    else
      var queried := s.(effects := s.effects + [QueryRelease]);
      match LatestRelease(env.response, env.platform, env.arch)
      case Err(_) => Fallback(queried, env, current)
      case Ok(latest) => UseLatest(queried, env, latest)
  }

  /** Lines 80-84: the release is unavailable; use the recorded version if it is cached. */
  function Fallback(s: HostState, env: Environment, current: Option<string>)
    : (out: (Result<string, RetrieveError>, HostState))
    requires current.Some? ==> IsSupported(env.platform, env.arch)
    // nothing changes; the recorded version's path is returned exactly when it is cached
    ensures out.1 == s
    ensures out.0.Ok? <==> current.Some? && Exists(s, ArtifactPath(env.root, current.value, ExeName(env.platform, env.arch).value))
    ensures out.0.Ok? ==> current.Some? && out.0.value == ArtifactPath(env.root, current.value, ExeName(env.platform, env.arch).value)
    ensures out.0.Err? ==> out.0.error == NoUsableArtifact
  {
    if current.Some? && IdeExePath(s, env.root, current.value, env.platform, env.arch).value.present then
      (Ok(IdeExePath(s, env.root, current.value, env.platform, env.arch).value.path), s)
    else
      (Err(NoUsableArtifact), s)
  }

  /** Lines 86-100: the release is known; install it unless its path is present. */
  function UseLatest(s: HostState, env: Environment, latest: ReleaseInfo)
    : (out: (Result<string, RetrieveError>, HostState))
    requires IsSupported(env.platform, env.arch)
    // a success returns the latest release's cache path, which then exists
    ensures out.0.Ok? ==> out.0.value == ArtifactPath(env.root, latest.tagName, ExeName(env.platform, env.arch).value)
    ensures out.0.Ok? ==> Exists(out.1, out.0.value)
    // the only failure is the download's, and it only logs the attempt
    ensures out.0.Err? <==> !Exists(s, ArtifactPath(env.root, latest.tagName, ExeName(env.platform, env.arch).value)) && env.download.Err?
    ensures out.0.Err? ==> out.0.error == DownloadFailed(env.download.error) && out.1 == s.(effects := s.effects + [Download(latest.url)])
    // the record changes only to the latest tag
    ensures out.1.record == s.record || out.1.record == Some(latest.tagName)
  {
    var exeName := ExeName(env.platform, env.arch).value;
    var desired := IdeExePath(s, env.root, latest.tagName, env.platform, env.arch).value;
    if desired.present then
      (Ok(desired.path), s)
    else match env.download
      case Err(reason) =>
        (Err(DownloadFailed(reason)), s.(effects := s.effects + [Download(latest.url)]))
      case Ok(bytes) =>
        (Ok(desired.path), Install(s.(effects := s.effects + [Download(latest.url)]), env.root, latest, exeName, bytes))
  }

  /** The query failed for whatever reason and the recorded version is cached: that path is
      returned, with no download, no write and no change to the record. */
  lemma RetrieveFallsBack(s: HostState, env: Environment, version: string)
    requires LatestRelease(env.response, env.platform, env.arch).Err?
    requires s.record == Some(version) && version != ""
    requires IsSupported(env.platform, env.arch)
    requires Exists(s, ArtifactPath(env.root, version, ExeName(env.platform, env.arch).value))
    ensures Retrieve(s, env).0 == Ok(ArtifactPath(env.root, version, ExeName(env.platform, env.arch).value))
    ensures Retrieve(s, env).1 == s.(effects := s.effects + [QueryRelease])
  {
  }

  /** The query failed and there is nothing to fall back on (no record, an empty record, or
      nothing at its path): the call fails and changes nothing but the log of the query. */
  lemma RetrieveFailsWithoutFallback(s: HostState, env: Environment)
    requires LatestRelease(env.response, env.platform, env.arch).Err?
    requires IsSupported(env.platform, env.arch) || RecordedVersion(s.record).None?
    requires RecordedVersion(s.record).Some? ==>
               !Exists(s, ArtifactPath(env.root, s.record.value, ExeName(env.platform, env.arch).value))
    ensures Retrieve(s, env) == (Err(NoUsableArtifact), s.(effects := s.effects + [QueryRelease]))
  {
  }

  /** A target `getExeName` rejects: with a recorded version the path probe of line 74 throws
      before any request; without one the request is made, its failure is swallowed, and the
      call fails for want of a fallback. Either way nothing is written. */
  lemma RetrieveUnsupportedTarget(s: HostState, env: Environment)
    requires !IsSupported(env.platform, env.arch)
    ensures RecordedVersion(s.record).Some? ==>
              Retrieve(s, env) == (Err(Unsupported(ExeName(env.platform, env.arch).error)), s)
    ensures RecordedVersion(s.record).None? ==>
              Retrieve(s, env) == (Err(NoUsableArtifact), s.(effects := s.effects + [QueryRelease]))
  {
  }

  /** The latest release is already cached: its path is returned with no download, and the
      record is left alone even when it names another version. */
  lemma RetrieveSkipsExisting(s: HostState, env: Environment)
    requires LatestRelease(env.response, env.platform, env.arch).Ok?
    requires Exists(s, ArtifactPath(env.root, LatestRelease(env.response, env.platform, env.arch).value.tagName,
                                    ExeName(env.platform, env.arch).value))
    ensures Retrieve(s, env).0 == Ok(ArtifactPath(env.root, LatestRelease(env.response, env.platform, env.arch).value.tagName,
                                                  ExeName(env.platform, env.arch).value))
    ensures Retrieve(s, env).1 == s.(effects := s.effects + [QueryRelease])
  {
  }

  /** The latest release is not cached and its download succeeds: download, create the parent
      directories, write the bytes at the cache path, make it executable, and only then record
      the tag, in that order; the cache path is returned. */
  lemma RetrieveInstalls(s: HostState, env: Environment)
    requires LatestRelease(env.response, env.platform, env.arch).Ok?
    requires !Exists(s, ArtifactPath(env.root, LatestRelease(env.response, env.platform, env.arch).value.tagName,
                                     ExeName(env.platform, env.arch).value))
    requires env.download.Ok?
    ensures var info := LatestRelease(env.response, env.platform, env.arch).value;
            var dir := ArtifactDir(env.root, info.tagName);
            var path := ArtifactPath(env.root, info.tagName, ExeName(env.platform, env.arch).value);
            Retrieve(s, env)
              == (Ok(path),
                  HostState(s.files[path := FileEntry(env.download.value, ExecutableMode)],
                            s.dirs + DirPrefixes(dir),
                            Some(info.tagName),
                            s.effects + [QueryRelease, Download(info.url), MakeDirectory(dir), WriteFile(path),
                                         Chmod(path, ExecutableMode), RecordVersion(info.tagName)]))
  {
    var info := LatestRelease(env.response, env.platform, env.arch).value;
    var queried := s.(effects := s.effects + [QueryRelease]);
    assert Retrieve(s, env) == UseLatest(queried, env, info);
    UseLatestInstalls(queried, env, info);
    var dir := ArtifactDir(env.root, info.tagName);
    var path := ArtifactPath(env.root, info.tagName, ExeName(env.platform, env.arch).value);
    assert queried.effects + [Download(info.url), MakeDirectory(dir), WriteFile(path), Chmod(path, ExecutableMode),
                              RecordVersion(info.tagName)]
        == s.effects + [QueryRelease, Download(info.url), MakeDirectory(dir), WriteFile(path),
                        Chmod(path, ExecutableMode), RecordVersion(info.tagName)];
  }

  lemma UseLatestInstalls(s: HostState, env: Environment, info: ReleaseInfo)
    requires IsSupported(env.platform, env.arch)
    requires !Exists(s, ArtifactPath(env.root, info.tagName, ExeName(env.platform, env.arch).value))
    requires env.download.Ok?
    ensures var dir := ArtifactDir(env.root, info.tagName);
            var path := ArtifactPath(env.root, info.tagName, ExeName(env.platform, env.arch).value);
            UseLatest(s, env, info)
              == (Ok(path),
                  HostState(s.files[path := FileEntry(env.download.value, ExecutableMode)],
                            s.dirs + DirPrefixes(dir),
                            Some(info.tagName),
                            s.effects + [Download(info.url), MakeDirectory(dir), WriteFile(path),
                                         Chmod(path, ExecutableMode), RecordVersion(info.tagName)]))
  {
    var dir := ArtifactDir(env.root, info.tagName);
    var path := ArtifactPath(env.root, info.tagName, ExeName(env.platform, env.arch).value);
    assert s.effects + [Download(info.url)] + [MakeDirectory(dir), WriteFile(path), Chmod(path, ExecutableMode),
                                               RecordVersion(info.tagName)]
        == s.effects + [Download(info.url), MakeDirectory(dir), WriteFile(path),
                        Chmod(path, ExecutableMode), RecordVersion(info.tagName)];
  }

  /** The latest release is not cached and its download fails: the call fails after the
      attempt, with files, directories and the record unchanged. */
  lemma RetrieveDownloadFails(s: HostState, env: Environment)
    requires LatestRelease(env.response, env.platform, env.arch).Ok?
    requires !Exists(s, ArtifactPath(env.root, LatestRelease(env.response, env.platform, env.arch).value.tagName,
                                     ExeName(env.platform, env.arch).value))
    requires env.download.Err?
    ensures Retrieve(s, env)
         == (Err(DownloadFailed(env.download.error)),
             s.(effects := s.effects + [QueryRelease, Download(LatestRelease(env.response, env.platform, env.arch).value.url)]))
  {
    var url := LatestRelease(env.response, env.platform, env.arch).value.url;
    assert s.effects + [QueryRelease] + [Download(url)] == s.effects + [QueryRelease, Download(url)];
  }

  /** What any call keeps: existing files are never changed or removed, the log only grows,
      and the record changes only together with the install of the path returned. */
  lemma RetrieveMonotone(s: HostState, env: Environment)
    ensures var (r, t) := Retrieve(s, env);
            && (forall p :: p in s.files ==> p in t.files && t.files[p] == s.files[p])
            && s.dirs <= t.dirs
            && |t.effects| >= |s.effects| && t.effects[..|s.effects|] == s.effects
            && (t.record != s.record ==>
                  && r.Ok? && env.download.Ok?
                  && t.files[r.value] == FileEntry(env.download.value, ExecutableMode)
                  && t.record == Some(LatestRelease(env.response, env.platform, env.arch).value.tagName))
  {
  }

  /** An empty recorded version is falsy at line 74: the call behaves exactly as with no record,
      apart from the record itself, which it keeps unless it installs. */
  lemma RetrieveEmptyRecordIsNoRecord(s: HostState, env: Environment)
    ensures var (r1, t1) := Retrieve(s.(record := Some("")), env);
            var (r0, t0) := Retrieve(s.(record := None), env);
            && r1 == r0
            && t1.files == t0.files && t1.dirs == t0.dirs && t1.effects == t0.effects
            && (t1.record == t0.record || (t1.record == Some("") && t0.record == None))
  {
    assert RecordedVersion(Some("")) == RecordedVersion(None);
  }

  /** Running `retrieveArtifact` again against the same environment after a success returns the
      same path and downloads, writes and records nothing. */
  lemma SecondRunDownloadsNothing(s: HostState, env: Environment)
    requires Retrieve(s, env).0.Ok?
    ensures var (r1, s1) := Retrieve(s, env);
            var (r2, s2) := Retrieve(s1, env);
            && r2 == r1
            && s2 == s1.(effects := s1.effects + [QueryRelease])
  {
  }

  /** First start on a Linux x64 machine with an empty cache: the asset of release `v0.1.1` is
      written to `<root>/artifacts/redscript-ide-v0.1.1/redscript-ide-x86_64-unknown-linux-gnu`,
      made executable, and `v0.1.1` is recorded. */
  lemma FreshInstallScenario(root: string, url: string, bytes: seq<bv8>)
    ensures var exe := "redscript-ide-x86_64-unknown-linux-gnu";
            var path := root + "/artifacts/redscript-ide-v0.1.1/" + exe;
            var body := ReleaseBody("v0.1.1", [Asset(exe, url)]);
            var env := Environment(root, "linux", "x64", Ok(Response(OkStatus, Some(body))), Ok(bytes));
            var (r, t) := Retrieve(HostState(map[], {}, None, []), env);
            && r == Ok(path)
            && t.files == map[path := FileEntry(bytes, ExecutableMode)]
            && t.record == Some("v0.1.1")
  {
    var exe := "redscript-ide-x86_64-unknown-linux-gnu";
    ExeNameTargets("linux", "x64");
    var body := ReleaseBody("v0.1.1", [Asset(exe, url)]);
    assert FindAsset(body.assets, exe) == Some(0);
    var env := Environment(root, "linux", "x64", Ok(Response(OkStatus, Some(body))), Ok(bytes));
    assert LatestRelease(env.response, "linux", "x64") == Ok(ReleaseInfo("v0.1.1", url));
    var middle := "/artifacts/redscript-ide-";
    SameLetters(middle + "v0.1.1" + "/", "/artifacts/redscript-ide-v0.1.1/");
    assert ArtifactPath(root, "v0.1.1", exe) == root + (middle + "v0.1.1" + "/") + exe;
  }

  /** The extension host as `retrieveArtifact` sees it: the file system under global storage,
      the `redscript-ide.version` entry of `context.globalState`, and the log of actions. */
  class Host {
    var files: map<string, FileEntry>
    var dirs: set<string>
    var versionRecord: Option<string>
    var effects: seq<Effect>

    function State(): HostState
      reads this
    {
      HostState(files, dirs, versionRecord, effects)
    }

    constructor (files0: map<string, FileEntry>, dirs0: set<string>, record0: Option<string>)
      ensures State() == HostState(files0, dirs0, record0, [])
    {
      files, dirs, versionRecord, effects := files0, dirs0, record0, [];
    }

    /** `getIdeExePath`: build the cache path and probe it. */
    method GetIdeExePath(root: string, version: string, platform: string, arch: string)
      returns (r: Result<CacheEntry, PlatformError>)
      ensures r == IdeExePath(State(), root, version, platform, arch)
    {
      var exeName := ExeName(platform, arch);
      if exeName.Err? {
        return Err(exeName.error);
      }
      var path := ArtifactPath(root, version, exeName.value);
      var present := path in files || path in dirs;
      return Ok(CacheEntry(path, present));
    }

    /** `getLatestRelease`: one request to the release endpoint. */
    method GetLatestRelease(response: Result<Response, string>, platform: string, arch: string)
      returns (r: Result<ReleaseInfo, ReleaseError>)
      modifies this
      ensures r == LatestRelease(response, platform, arch)
      ensures State() == old(State()).(effects := old(effects) + [QueryRelease])
    {
      effects := effects + [QueryRelease];
      r := LatestRelease(response, platform, arch);
    }

    /** `downloadFile`: one request for the asset, whose outcome is given. */
    method DownloadFile(url: string, outcome: Result<seq<bv8>, string>) returns (r: Result<seq<bv8>, string>)
      modifies this
      ensures r == outcome
      ensures State() == old(State()).(effects := old(effects) + [Download(url)])
    {
      effects := effects + [Download(url)];
      r := outcome;
    }

    /** `fs.promises.mkdir(dir, { recursive: true })`. */
    method MakeDirectories(dir: string)
      modifies this
      ensures State() == old(State()).(dirs := old(dirs) + DirPrefixes(dir),
                                       effects := old(effects) + [MakeDirectory(dir)])
    {
      dirs := dirs + DirPrefixes(dir);
      effects := effects + [MakeDirectory(dir)];
    }

    /** `fs.promises.writeFile(path, contents)` on a path that does not exist yet (line 91 only
        runs after line 87 found it absent): the file is created with mode 0o666. */
    method WriteBytes(path: string, contents: seq<bv8>)
      requires path !in files
      modifies this
      ensures State() == old(State()).(files := old(files)[path := FileEntry(contents, CreateMode)],
                                       effects := old(effects) + [WriteFile(path)])
    {
      files := files[path := FileEntry(contents, CreateMode)];
      effects := effects + [WriteFile(path)];
    }

    /** `fs.promises.chmod(path, mode)` on a file that was just written. */
    method ChangeMode(path: string, mode: nat)
      requires path in files
      modifies this
      ensures State() == old(State()).(files := old(files)[path := old(files)[path].(mode := mode)],
                                       effects := old(effects) + [Chmod(path, mode)])
    {
      files := files[path := files[path].(mode := mode)];
      effects := effects + [Chmod(path, mode)];
    }

    /** `context.globalState.update("redscript-ide.version", tag)`. */
    method UpdateVersion(tag: string)
      modifies this
      ensures State() == old(State()).(record := Some(tag), effects := old(effects) + [RecordVersion(tag)])
    {
      versionRecord := Some(tag);
      effects := effects + [RecordVersion(tag)];
    }

    /** `retrieveArtifact`, step by step; its result and the new host state are those of `Retrieve`. */
    method RetrieveArtifact(env: Environment) returns (r: Result<string, RetrieveError>)
      modifies this
      ensures (r, State()) == Retrieve(old(State()), env)
    {
      ghost var s0 := State();
      var currentVersion := RecordedVersion(versionRecord);
      var currentArtifact: Option<CacheEntry> := None;
      if currentVersion.Some? {
        var entry := GetIdeExePath(env.root, currentVersion.value, env.platform, env.arch);
        if entry.Err? {
          return Err(Unsupported(entry.error));
        }
        currentArtifact := Some(entry.value);
      }
      var latest := GetLatestRelease(env.response, env.platform, env.arch);
      ghost var queried := State();
      assert queried == s0.(effects := s0.effects + [QueryRelease]);

      if latest.Err? && currentArtifact.Some? && currentArtifact.value.present {
        assert Retrieve(s0, env) == Fallback(queried, env, currentVersion);
        return Ok(currentArtifact.value.path);
      } else if latest.Err? {
        assert Retrieve(s0, env) == Fallback(queried, env, currentVersion);
        return Err(NoUsableArtifact);
      }
      assert Retrieve(s0, env) == UseLatest(queried, env, latest.value);
      r := UseLatestRelease(env, latest.value);
    }

    /** Lines 86-100 of `retrieveArtifact`: probe the latest release's path and, when it is
        absent, download it and install it. */
    method UseLatestRelease(env: Environment, latest: ReleaseInfo) returns (r: Result<string, RetrieveError>)
      requires IsSupported(env.platform, env.arch)
      modifies this
      ensures (r, State()) == UseLatest(old(State()), env, latest)
    {
      var desired := GetIdeExePath(env.root, latest.tagName, env.platform, env.arch);
      var desiredArtifact := desired.value;
      if !desiredArtifact.present {
        var contents := DownloadFile(latest.url, env.download);
        if contents.Err? {
          return Err(DownloadFailed(contents.error));
        }
        InstallArtifact(env.root, latest, ExeName(env.platform, env.arch).value, contents.value);
      }
      return Ok(desiredArtifact.path);
    }

    /** Lines 90-94: create the directories, write the bytes, make the file executable, and
        record the tag, in that order. */
    method InstallArtifact(root: string, latest: ReleaseInfo, exeName: string, contents: seq<bv8>)
      requires ArtifactPath(root, latest.tagName, exeName) !in files
      modifies this
      ensures State() == Install(old(State()), root, latest, exeName, contents)
    {
      var path := ArtifactPath(root, latest.tagName, exeName);
      MakeDirectories(ArtifactDir(root, latest.tagName));
      WriteBytes(path, contents);
      ChangeMode(path, ExecutableMode);
      UpdateVersion(latest.tagName);
      assert effects == old(effects) + [MakeDirectory(ArtifactDir(root, latest.tagName)), WriteFile(path),
                                        Chmod(path, ExecutableMode), RecordVersion(latest.tagName)];
    }
  }
}
