# redscript-ide-vscode: the language-server fetcher and the debug-port scanner, in Dafny

The VS Code extension for redscript does two things of substance besides editor glue:

* it keeps a local copy of the `redscript-ide` language-server binary in step with the latest
  GitHub release, pinning the installed version in the extension's global state and falling back
  to the pinned copy when the release cannot be queried (`retrieveArtifact` and its helpers);
* it discovers running game instances with a debug server by listing `<gameDir>/bin/x64` for
  marker files named like `dap.<port>.debug` (`getDebugPorts`).

This project models both and proves what they promise.

* `Platform` (platform.dfy): `getExeName`, the asset name for an `os.platform()` / `os.arch()`
  pair, including its two errors.
* `Release` (release.dfy): the selection part of `getLatestRelease`. It takes the outcome of the
  request, the status, the parsed body and the first asset whose name equals the asset name.
* `Artifact` (artifact.dfy): the cache layout of `getIdeExePath` and the update/fallback policy of
  `retrieveArtifact`. `Retrieve` is the policy as a function over an explicit host state: files,
  directories, the `redscript-ide.version` record and a log of external actions in order. The
  class `Host` holds that state in fields and runs the same steps one call at a time.
  `Host.RetrieveArtifact` is proved to return what `Retrieve` returns and to leave the state it
  describes. `Host.UseLatestRelease` is proved against `UseLatest` (lines 86-100), and
  `Host.InstallArtifact` against `Install` (lines 90-94). Each step method (probe, query, download,
  `mkdir`, write, `chmod`, record) states its own one-step update.
* `PortPattern` (port_pattern.dfy): the file-name match of line 221. The source passes the string
  literal `"dap\.([0-9]+)\.debug"`, in which `\.` is an ordinary `.`. The expression the engine
  compiles is therefore `/dap.([0-9]+).debug/`. It is unanchored and has no `u` flag, so each `.`
  matches one UTF-16 code unit other than a line terminator. Names are modelled as sequences of
  Unicode scalar values. A character outside the Basic Multilingual Plane is two code units: where
  a `.` stands, the engine takes its first unit and then fails on the second. The model therefore
  lets `.` match only characters of one code unit (`DotMatches`). It takes the leftmost start, and
  the greedy digit run gives back digits while the rest fails to match. So `dap.8435.debug` yields
  8435, `dap_8435_debug` also matches, `dap.123debug` yields 12, and `dap😀7.debug` yields nothing.
* `DebugPorts` (debug_ports.dfy): the loop of `getDebugPorts`, as a method with a loop invariant,
  proved against the function `Endpoints`.

External effects are parameters. The release request arrives as an outcome: an error, or a
status with an optional parsed body. So does the download: an error, or the bytes. The file system
is a map of files and a set of directories. For the scan it is a map from directory to its listing
and a map from path to modification time.

Behaviour of the code worth noting:

* An unsupported platform or architecture does not always stop before any network activity.
  When a version is recorded, the path probe at line 74 throws first. When none is recorded, the
  release request is made, the error from `getExeName` inside `getLatestRelease` is swallowed with
  every other query failure, and the call ends with "Could not download redscript-ide from Github"
  (`NoUsableArtifact`).
* A release without an asset for this platform is not fatal on its own. Like every other query
  failure, it leads to the fallback to the recorded version.
* An empty or falsy recorded version (`""`) counts as no record.
* An existing but empty directory yields no endpoints rather than an error. Only a directory that
  `opendir` cannot open is an error.
* Endpoints come back in enumeration order. The one consumer that selects automatically takes the
  first, not the most recently modified one.

## Model

| member | source | states |
|---|---|---|
| `Platform.ExeName` | src/extension.ts:136-164 | Succeeds exactly on supported targets. `win32` gives `redscript-ide.exe` whatever the architecture. An unknown platform is `UnsupportedPlatform` even with a valid architecture. Darwin or Linux with another architecture is `UnsupportedArchitecture`, never a default. |
| `Platform.ExeNameTargets` | src/extension.ts:141-163 | On the four non-Windows targets the name is exactly `redscript-ide-{x86_64,aarch64}-{apple-darwin,unknown-linux-gnu}`, letter for letter. |
| `Platform.ExeNamesDistinct` | src/extension.ts:136-164 | Two supported targets share an asset name only if both are Windows or they are the same pair, so the four non-Windows names are pairwise distinct. |
| `Release.FindAsset` | src/extension.ts:129 | `Array.find` by name: the index found holds an asset of that name and no earlier one has it; none is found exactly when no asset has the name. |
| `Release.LatestRelease` | src/extension.ts:117-134 | A rejected request and a status other than 200 are errors. A result exists exactly when the status is 200, the body parsed, the target is supported and some asset has the asset name. The result is `tag_name` with the `browser_download_url` of the first such asset. |
| `Release.LaterAssetsIgnored` | src/extension.ts:129 | Assets after the first match never change the result. |
| `Release.FindAssetPrefix` | src/extension.ts:129 | Appending assets after a list that already holds the name does not move the match. |
| `Artifact.Exists` | src/extension.ts:113 | `fs.promises.access` with the default mode succeeds when a file or a directory is at the path. |
| `Artifact.IdeExePath` | src/extension.ts:111-115 | The path is `<root>/artifacts/redscript-ide-<version>/<exeName>`, and `exists` holds exactly when a file or directory is there. The only error is `getExeName`'s. |
| `Artifact.ArtifactPathInjective` | src/extension.ts:112 | For one root and one asset name, two versions share a cache path only if they are equal. |
| `Artifact.ArtifactDirAncestors` | src/extension.ts:90 | `DirPrefixes` is the set of directories a recursive `mkdir` creates: the directory and its `/`-delimited prefixes. Creating a version's directory also creates the storage root and its `artifacts` directory, and only ancestors of that directory. |
| `Artifact.RecordedVersion` | src/extension.ts:73-74 | The fallback candidate: the recorded version, unless it is unset or the empty string, both falsy in JavaScript. |
| `Artifact.RetrieveEmptyRecordIsNoRecord` | src/extension.ts:73-84 | An empty recorded version behaves as no record: the same result, files, directories and log. The record stays `""` where the other stays unset, or both get the same new tag. |
| `Artifact.Install` | src/extension.ts:90-94 | The release's bytes sit at its cache path with mode 0o755, and every other file is kept unchanged. No other file appears. The new directories are exactly those a recursive `mkdir` of the version directory creates. The tag is recorded, and exactly `mkdir`, write, `chmod 0o755`, record are appended to the log, in that order. |
| `Artifact.Fallback` | src/extension.ts:80-84 | Nothing changes. The recorded version's path is returned exactly when a version is recorded and its path exists. Otherwise the call fails with `NoUsableArtifact`. |
| `Artifact.UseLatest` | src/extension.ts:86-100 | A success returns the latest release's cache path, which then exists. The call fails exactly when that path is absent and the download fails. The failure only logs the attempt. The record changes only to the latest tag. |
| `Artifact.Retrieve` | src/extension.ts:70-101 | A returned path names something that exists afterwards. A failure leaves files, directories and the version record unchanged. An unsupported target never yields a path. |
| `Artifact.RetrieveFallsBack` | src/extension.ts:73-81 | The query fails for any reason and the recorded version is cached: that path is returned, with no download, write or record change. |
| `Artifact.RetrieveFailsWithoutFallback` | src/extension.ts:82-84 | The query fails with no usable record: `NoUsableArtifact`, and nothing changes but the logged query. |
| `Artifact.RetrieveUnsupportedTarget` | src/extension.ts:74-84 | Unsupported target: with a record, the error comes before any request and nothing changes; without one, the request is made and the call fails with `NoUsableArtifact`. |
| `Artifact.RetrieveSkipsExisting` | src/extension.ts:86-100 | The latest release is already cached: its path is returned with no download, and the record is untouched even when it names another version. |
| `Artifact.RetrieveInstalls` | src/extension.ts:86-100 | The latest release is absent and the download succeeds. The steps run in order: download, create directories, write the bytes at exactly the cache path, `chmod 0o755`, then record the tag. The path is returned. |
| `Artifact.UseLatestInstalls` | src/extension.ts:86-95 | Lines 86-95 alone: the same install sequence, starting from the state after the query. |
| `Artifact.RetrieveDownloadFails` | src/extension.ts:86-89 | A failed download ends the call with `DownloadFailed`; files, directories and record are unchanged. |
| `Artifact.RetrieveMonotone` | src/extension.ts:70-101 | Existing files are never changed or removed and directories never vanish. The log only grows. The record changes only together with installing the returned path with the downloaded bytes. |
| `Artifact.SecondRunDownloadsNothing` | src/extension.ts:86-87 | After a success, a second run against the same environment returns the same path and downloads, writes and records nothing. |
| `Artifact.FreshInstallScenario` | src/extension.ts:86-100 | Empty cache, Linux x64, release `v0.1.1`: the asset is written executable at `<root>/artifacts/redscript-ide-v0.1.1/redscript-ide-x86_64-unknown-linux-gnu` and `v0.1.1` is recorded. |
| `Artifact.Host.GetIdeExePath` | src/extension.ts:111-115 | Builds the path and probes the current file system, as `IdeExePath`. |
| `Artifact.Host.GetLatestRelease` | src/extension.ts:117-134 | Logs one query and returns `LatestRelease`'s result, changing nothing else. |
| `Artifact.Host.DownloadFile` | src/extension.ts:103-109 | Logs one download of the URL and returns its outcome. |
| `Artifact.Host.MakeDirectories` | src/extension.ts:90 | Adds the directory and its ancestors; nothing else changes. |
| `Artifact.Host.WriteBytes` | src/extension.ts:91 | On a path with no file yet, as line 87 guarantees, it creates the file with the bytes and mode 0o666; nothing else changes. |
| `Artifact.Host.ChangeMode` | src/extension.ts:92 | Sets the mode of the file just written, keeping its bytes. |
| `Artifact.Host.UpdateVersion` | src/extension.ts:94 | Sets the version record. |
| `Artifact.Host.RetrieveArtifact` | src/extension.ts:70-101 | Its result and the host's new state are exactly those of `Retrieve` on the old state. |
| `Artifact.Host.UseLatestRelease` | src/extension.ts:86-100 | Probes, downloads and installs as lines 86-100 do, proved to give the result and new state of `UseLatest`. |
| `Artifact.Host.InstallArtifact` | src/extension.ts:90-94 | Create directories, write, make executable, record: the new state is exactly the installed one. |
| `PortPattern.DotMatches` | src/extension.ts:221 | A `.` without the `u` flag matches one UTF-16 code unit other than `\n`, `\r`, U+2028 and U+2029. A character above U+FFFF is two code units, and no match can continue after its first unit. |
| `PortPattern.MatchesAt` | src/extension.ts:221 | The expression matches at a start index with a capture of exactly `k` digits: `dap`, a `.` character, `k` ASCII digits, a `.` character, `debug`. |
| `PortPattern.IsReportedMatch` | src/extension.ts:221 | The match `String.prototype.match` reports: the leftmost start, and at that start the longest capture. |
| `PortPattern.DigitRun` | src/extension.ts:221 | `[0-9]+` reads the maximal run of digits: every character in it is a digit, and the next one is not. |
| `PortPattern.Backtrack` | src/extension.ts:221 | Giving back one digit at a time finds the longest capture not longer than the run that lets the rest match, or shows that none does. |
| `PortPattern.CaptureWithinRun` | src/extension.ts:221 | No capture is longer than the run of digits that `[0-9]+` can consume. |
| `PortPattern.MatchFrom` | src/extension.ts:221 | One attempt at a start index finds the longest capture there, or shows that the expression cannot match there. |
| `PortPattern.Search` | src/extension.ts:221 | The scan returns the leftmost start that matches, with its longest capture, or shows that nothing matches. |
| `PortPattern.ParsePort` | src/extension.ts:221-225 | A port exists exactly when the expression matches somewhere. It is the decimal value of the capture of the match the engine reports. |
| `PortPattern.ReportedMatchUnique` | src/extension.ts:221 | The reported match, leftmost then longest, is unique. |
| `PortPattern.ParsePortShaped` | src/extension.ts:221-225 | `dap`, a character `.` matches, digits, a non-digit that `.` matches, then `debug`, yields the digits' value. So `dap_8435_debug` is accepted too. |
| `PortPattern.ParsePortSkipsAstral` | src/extension.ts:221 | `dap😀7.debug` yields no port: the surrogate pair breaks the match at the first `.`. |
| `PortPattern.DecimalValue` | src/extension.ts:225 | `parseInt` of a string of ASCII digits is its base-10 value, most significant digit first. |
| `PortPattern.DecimalString` | src/extension.ts:225 | The canonical spelling of a port is a non-empty string of digits. |
| `PortPattern.DecimalRoundTrip` | src/extension.ts:225 | `parseInt` reads back the canonical decimal spelling. |
| `PortPattern.ParsePortCanonical` | src/extension.ts:221-225 | Every marker name `dap.<port>.debug` yields its port. |
| `PortPattern.ParsePortBacktracks` | src/extension.ts:221 | `dap.123debug` matches with port 12. |
| `PortPattern.ShortNamesNeverMatch` | src/extension.ts:221-222 | A name shorter than 11 characters is skipped. |
| `DebugPorts.ModifiedTime` | src/extension.ts:224 | The entry's `mtimeMs`, or 0 when `stat` fails. |
| `DebugPorts.Endpoints` | src/extension.ts:220-227 | What the loop collects: one endpoint per matching entry in enumeration order, so at most one per entry. |
| `DebugPorts.EndpointsAppend` | src/extension.ts:220-227 | Collecting over two listings in turn is collecting over the joined listing. |
| `DebugPorts.EndpointsSound` | src/extension.ts:220-227 | Every endpoint comes from a matching entry, with its port and its `stat` time, or 0 when `stat` failed. |
| `DebugPorts.EndpointsComplete` | src/extension.ts:220-227 | Every matching entry contributes its endpoint. |
| `DebugPorts.EndpointsFirst` | src/extension.ts:220-229 | The first endpoint is that of the first matching entry in enumeration order. |
| `DebugPorts.GetDebugPorts` | src/extension.ts:210-230 | An unset or empty `gameDir` yields `[]`. A directory that cannot be opened is an error. Otherwise the result is one endpoint per matching entry, in enumeration order. |
| `DebugPorts.TwoInstances` | src/extension.ts:220-227 | `dap.8435.debug`, `dap.9001.debug`, `notes.txt` give exactly ports 8435 and 9001 with their times. |
| `DebugPorts.EndpointsOfThree` | src/extension.ts:220-227 | Two matching entries and one that does not match give the two endpoints, in order. |

## Left out

- Extension lifecycle and user interface (`activate`, `deactivate`, the language client, the output channel and its messages, the quick pick, `openExternal`): host glue with no decisions in it.
- `resolveDebugConfiguration` and the debug adapter factory: editor glue. The former fills in `config` asynchronously after returning it, so its effect is a race with the host.
- The HTTP layer (`xhr`, redirects, error-message text) and `JSON.parse`: foreign code. The request and the download are given as outcomes, and a body without a usable `tag_name` and `assets` is one `MalformedBody` case.
- Failures of `mkdir`, `writeFile` and `chmod`: these calls are taken to succeed. The install is modelled as the sequence the source awaits, and a rejection part-way through it is not modelled.
- The process umask, and the platform behaviour of `chmod` on Windows: a written file gets mode 0o666 until `chmod` sets 0o755.
- `path.join` normalisation and the Windows backslash separator: paths are concatenations with `/`.
- `globalState.update` is not awaited in the source. The model applies it at once, after `chmod`. Two activations running concurrently are not modelled.
- `mtimeMs` and `new Date(...)` are floating point, and `parseInt` loses precision beyond 2^53: times are integers and ports are natural numbers of any size.
