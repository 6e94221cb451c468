/** The asset name of the language-server binary for the running operating system and CPU
    architecture, as `getExeName` computes it from `os.platform()` and `os.arch()`. */
module Platform {
  import opened Wrappers

  /** The two errors `getExeName` throws, carrying the offending value. */
  datatype PlatformError =
    | UnsupportedPlatform(platform: string)
    | UnsupportedArchitecture(arch: string)

  const WindowsExeName: string := "redscript-ide.exe"

  /** The target-triple platform part for a non-Windows `os.platform()` value. */
  function PlatformToken(platform: string): Option<string>
  {
    if platform == "darwin" then Some("apple-darwin")
    else if platform == "linux" then Some("unknown-linux-gnu")
    else None
  }

  /** The target-triple architecture part for an `os.arch()` value. */
  function ArchToken(arch: string): Option<string>
  {
    if arch == "x64" then Some("x86_64")
    else if arch == "arm64" then Some("aarch64")
    else None
  }

  predicate IsSupported(platform: string, arch: string)
  {
    platform == "win32" || (platform in {"darwin", "linux"} && arch in {"x64", "arm64"})
  }

  /** `getExeName`: the platform is examined before the architecture, and Windows never looks
      at the architecture at all. */
  function ExeName(platform: string, arch: string): (r: Result<string, PlatformError>)
    ensures r.Ok? <==> IsSupported(platform, arch)
    ensures platform == "win32" ==> r == Ok("redscript-ide.exe")
    ensures platform !in {"win32", "darwin", "linux"} ==> r == Err(UnsupportedPlatform(platform))
    ensures platform in {"darwin", "linux"} && arch !in {"x64", "arm64"} ==>
              r == Err(UnsupportedArchitecture(arch))
  {
    if platform == "win32" then
      Ok(WindowsExeName)
    else
      match PlatformToken(platform)
      case None => Err(UnsupportedPlatform(platform))
      case Some(p) =>
        match ArchToken(arch)
        case None => Err(UnsupportedArchitecture(arch))
        case Some(a) => Ok("redscript-ide-" + a + "-" + p)
  }

  /** The published asset names of the four non-Windows targets, as a table (empty elsewhere). */
  function ReleaseAssetName(platform: string, arch: string): string
  {
    match (platform, arch)
    case ("darwin", "x64") => "redscript-ide-x86_64-apple-darwin"
    case ("darwin", "arm64") => "redscript-ide-aarch64-apple-darwin"
    case ("linux", "x64") => "redscript-ide-x86_64-unknown-linux-gnu"
    case ("linux", "arm64") => "redscript-ide-aarch64-unknown-linux-gnu"
    case _ => ""
  }

  /** On every non-Windows target the computed name is the one in the table, letter for letter. */
  lemma ExeNameTargets(platform: string, arch: string)
    requires platform in {"darwin", "linux"} && arch in {"x64", "arm64"}
    ensures ExeName(platform, arch) == Ok(ReleaseAssetName(platform, arch))
  {
    DarwinNamesSpelled();
    LinuxNamesSpelled();
  }

  lemma DarwinNamesSpelled()
    ensures "redscript-ide-" + "x86_64" + "-" + "apple-darwin" == "redscript-ide-x86_64-apple-darwin"
    ensures "redscript-ide-" + "aarch64" + "-" + "apple-darwin" == "redscript-ide-aarch64-apple-darwin"
  {
    SameLetters("redscript-ide-" + "x86_64" + "-" + "apple-darwin", "redscript-ide-x86_64-apple-darwin");
    SameLetters("redscript-ide-" + "aarch64" + "-" + "apple-darwin", "redscript-ide-aarch64-apple-darwin");
  }

  lemma LinuxNamesSpelled()
    ensures "redscript-ide-" + "x86_64" + "-" + "unknown-linux-gnu" == "redscript-ide-x86_64-unknown-linux-gnu"
    ensures "redscript-ide-" + "aarch64" + "-" + "unknown-linux-gnu" == "redscript-ide-aarch64-unknown-linux-gnu"
  {
    SameLetters("redscript-ide-" + "x86_64" + "-" + "unknown-linux-gnu", "redscript-ide-x86_64-unknown-linux-gnu");
    SameLetters("redscript-ide-" + "aarch64" + "-" + "unknown-linux-gnu", "redscript-ide-aarch64-unknown-linux-gnu");
  }

  lemma SameLetters(s: string, t: string)
    requires |s| == |t| && forall i :: 0 <= i < |s| ==> s[i] == t[i]
    ensures s == t
  {
  }

  /** Every supported target gets its own asset, except that all Windows targets share one:
      two supported targets have the same asset name only if both are Windows or they are the
      same (platform, architecture) pair. */
  lemma {:induction false} ExeNamesDistinct(p1: string, a1: string, p2: string, a2: string)
    requires IsSupported(p1, a1) && IsSupported(p2, a2)
    requires ExeName(p1, a1) == ExeName(p2, a2)
    ensures p1 == p2
    ensures p1 != "win32" ==> a1 == a2
  {
    var n1, n2 := ExeName(p1, a1).value, ExeName(p2, a2).value;
    if p1 != "win32" && p2 != "win32" {
      // the character after "redscript-ide-" tells the architecture apart, and the length the platform
      assert n1[14] == n2[14];
      assert |n1| == |n2|;
    }
  }
}
