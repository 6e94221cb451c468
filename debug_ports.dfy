/** `getDebugPorts`: list `<gameDir>/bin/x64` and collect a (port, modification time) pair for
    every entry whose name the pattern of `PortPattern` matches, in enumeration order. */
module DebugPorts {
  import opened Wrappers
  import opened PortPattern

  /** One running game instance: its debug port and when its marker file was last modified
      (milliseconds; 0 when `stat` failed). */
  datatype Endpoint = Endpoint(port: nat, time: int)

  /** `fs.promises.opendir` rejected: the directory does not exist or cannot be read. */
  datatype ScanError = OpenDirFailed(path: string)

  /** The file system as `getDebugPorts` sees it: the names each readable directory lists, in
      enumeration order, and the modification time of each path `stat` succeeds on. */
  datatype FileSystem = FileSystem(listings: map<string, seq<string>>, mtimes: map<string, int>)

  function BinPath(gameDir: string): string
  {
    gameDir + "/bin/x64"
  }

  /** Line 224: the entry's `mtimeMs`, or 0 when `stat` fails. */
  function ModifiedTime(fs: FileSystem, path: string): int
  {
    if path in fs.mtimes then fs.mtimes[path] else 0
  }

  /** The endpoint a matching entry yields. */
  function EntryEndpoint(fs: FileSystem, binPath: string, name: string): Endpoint
    requires ParsePort(name).Some?
  {
    Endpoint(ParsePort(name).value, ModifiedTime(fs, binPath + "/" + name))
  }

  /** What the loop of lines 220-227 collects from a sequence of entry names. */
  function Endpoints(fs: FileSystem, binPath: string, names: seq<string>): (r: seq<Endpoint>)
    // at most one endpoint per entry
    ensures |r| <= |names|
  {
    if names == [] then []
    else if ParsePort(names[0]).Some? then [EntryEndpoint(fs, binPath, names[0])] + Endpoints(fs, binPath, names[1..])
    else Endpoints(fs, binPath, names[1..])
  }

  lemma {:induction false} EndpointsAppend(fs: FileSystem, binPath: string, a: seq<string>, b: seq<string>)
    ensures Endpoints(fs, binPath, a + b) == Endpoints(fs, binPath, a) + Endpoints(fs, binPath, b)
  {
    if a == [] {
      assert a + b == b;
    } else {
      assert (a + b)[0] == a[0];
      assert (a + b)[1..] == a[1..] + b;
      EndpointsAppend(fs, binPath, a[1..], b);
    }
  }

  /** Every endpoint comes from an entry whose name matches, with that entry's port and time. */
  lemma {:induction false} EndpointsSound(fs: FileSystem, binPath: string, names: seq<string>, e: Endpoint)
    requires e in Endpoints(fs, binPath, names)
    ensures exists i :: 0 <= i < |names| && ParsePort(names[i]).Some? && e == EntryEndpoint(fs, binPath, names[i])
  {
    if ParsePort(names[0]).Some? && e == EntryEndpoint(fs, binPath, names[0]) {
    } else {
      EndpointsSound(fs, binPath, names[1..], e);
      var i :| 0 <= i < |names[1..]| && ParsePort(names[1..][i]).Some? && e == EntryEndpoint(fs, binPath, names[1..][i]);
      assert names[1..][i] == names[i + 1];
    }
  }

  /** Every entry whose name matches contributes its endpoint. */
  lemma {:induction false} EndpointsComplete(fs: FileSystem, binPath: string, names: seq<string>, i: nat)
    requires i < |names| && ParsePort(names[i]).Some?
    ensures EntryEndpoint(fs, binPath, names[i]) in Endpoints(fs, binPath, names)
  {
    if i > 0 {
      assert names[1..][i - 1] == names[i];
      EndpointsComplete(fs, binPath, names[1..], i - 1);
    }
  }

  /** Order is enumeration order: the first endpoint, the one an automatic selection takes, is
      that of the first matching entry, not the most recently modified one. */
  lemma {:induction false} EndpointsFirst(fs: FileSystem, binPath: string, names: seq<string>, i: nat)
    requires i < |names| && ParsePort(names[i]).Some?
    requires forall j :: 0 <= j < i ==> ParsePort(names[j]).None?
    ensures Endpoints(fs, binPath, names) != []
    ensures Endpoints(fs, binPath, names)[0] == EntryEndpoint(fs, binPath, names[i])
  {
    if i > 0 {
      assert forall j :: 0 <= j < i - 1 ==> names[1..][j] == names[j + 1];
      EndpointsFirst(fs, binPath, names[1..], i - 1);
    }
  }

  /** The loop of `getDebugPorts`; an unset or empty `gameDir` yields no endpoints, and an
      unreadable directory is an error. */
  method GetDebugPorts(gameDir: Option<string>, fs: FileSystem) returns (r: Result<seq<Endpoint>, ScanError>)
    ensures gameDir.None? || gameDir == Some("") ==> r == Ok([])
    ensures gameDir.Some? && gameDir.value != "" && BinPath(gameDir.value) !in fs.listings ==>
              r == Err(OpenDirFailed(BinPath(gameDir.value)))
    ensures gameDir.Some? && gameDir.value != "" && BinPath(gameDir.value) in fs.listings ==>
              r == Ok(Endpoints(fs, BinPath(gameDir.value), fs.listings[BinPath(gameDir.value)]))
  {
    if gameDir.None? || gameDir.value == "" {
      return Ok([]);
    }
    var binPath := BinPath(gameDir.value);
    if binPath !in fs.listings {
      return Err(OpenDirFailed(binPath));
    }
    var entries := fs.listings[binPath];
    var found: seq<Endpoint> := [];
    var i := 0;
    while i < |entries|
      invariant i <= |entries|
      invariant found == Endpoints(fs, binPath, entries[..i])
    {
      var port := ParsePort(entries[i]);
      if port.Some? {
        var time := ModifiedTime(fs, binPath + "/" + entries[i]);
        found := found + [Endpoint(port.value, time)];
      }
      assert entries[..i + 1] == entries[..i] + [entries[i]];
      EndpointsAppend(fs, binPath, entries[..i], [entries[i]]);
      i := i + 1;
    }
    assert entries[..i] == entries;
    return Ok(found);
  }

  /** Two marker files and an unrelated one: exactly the two ports, in listing order, each with
      its file's time. */
  lemma TwoInstances(gameDir: string, t1: int, t2: int)
    ensures var bin := BinPath(gameDir);
            var names := [MarkerFileName(8435), MarkerFileName(9001), "notes.txt"];
            var fs := FileSystem(map[bin := names], map[bin + "/" + names[0] := t1, bin + "/" + names[1] := t2]);
            Endpoints(fs, bin, names) == [Endpoint(8435, t1), Endpoint(9001, t2)]
  {
    var bin := BinPath(gameDir);
    var names := [MarkerFileName(8435), MarkerFileName(9001), "notes.txt"];
    var p1, p2 := bin + "/" + names[0], bin + "/" + names[1];
    var fs := FileSystem(map[bin := names], map[p1 := t1, p2 := t2]);
    ParsePortCanonical(8435);
    ParsePortCanonical(9001);
    ShortNamesNeverMatch("notes.txt");
    assert names[0] != names[1];
    assert p1[..|bin| + 1] == p2[..|bin| + 1];
    assert p1 != p2;
    EndpointsOfThree(fs, bin, names[0], names[1], names[2]);
  }

  lemma EndpointsOfThree(fs: FileSystem, bin: string, a: string, b: string, c: string)
    requires ParsePort(a).Some? && ParsePort(b).Some? && ParsePort(c).None?
    ensures Endpoints(fs, bin, [a, b, c]) == [EntryEndpoint(fs, bin, a), EntryEndpoint(fs, bin, b)]
  {
    assert [c][1..] == [];
    assert Endpoints(fs, bin, [c]) == [];
    assert [b, c][1..] == [c];
    assert Endpoints(fs, bin, [b, c]) == [EntryEndpoint(fs, bin, b)];
    assert [a, b, c][1..] == [b, c];
  }
}
