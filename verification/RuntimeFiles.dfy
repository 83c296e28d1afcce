/**
 The five managed file slots of an installation, their backup before an upgrade and their
 restoration (host_agent/server.py, _copy_file, _replace_directory, _deploy_runtime and
 _restore_runtime). A directory slot holds its whole tree as one content value.
 */
module RuntimeFiles {
  import opened Basics

  type Path = string
  type Content = string
  type Files = map<Path, Content>

  /** A runtime backup: what each slot held, None for a slot that did not exist. */
  type Snapshot = seq<Option<Content>>

  const SLOTS: nat := 5
  const FILE_SLOTS: nat := 3

  datatype Config = Config(projectDir: Path, composeFile: Path, hostAgentComposeFile: Path,
                           runtimeDir: Path, agentInstallDir: Path)

  /** Where a backup reads the slots. */
  function BackedUp(config: Config): (paths: seq<Path>)
    ensures |paths| == SLOTS
  {
    [config.projectDir + "/compose.web.yml", config.projectDir + "/compose.host-agent.yml",
     config.projectDir + "/VERSION", config.runtimeDir, config.agentInstallDir]
  }

  /** Where a deployment and a restoration write the slots. */
  function Managed(config: Config): (paths: seq<Path>)
    ensures |paths| == SLOTS
  {
    [config.composeFile, config.hostAgentComposeFile,
     config.projectDir + "/VERSION", config.runtimeDir, config.agentInstallDir]
  }

  ghost predicate Distinct(paths: seq<Path>) {
    forall i, j :: 0 <= i < j < |paths| ==> paths[i] != paths[j]
  }

  /** The configuration the installer writes: compose files at their project paths, no two slots alike. */
  ghost predicate Installed(config: Config) {
    BackedUp(config) == Managed(config) && Distinct(Managed(config))
  }

  function Get(files: Files, path: Path): Option<Content> {
    if path in files then Some(files[path]) else None
  }

  function Put(files: Files, path: Path, content: Option<Content>): (r: Files)
    ensures Get(r, path) == content
    ensures forall p :: p != path ==> Get(r, p) == Get(files, p)
  {
    if content.Some? then files[path := content.value] else files - {path}
  }

  function Snap(files: Files, paths: seq<Path>): (snapshot: Snapshot)
    ensures |snapshot| == |paths|
    ensures forall i :: 0 <= i < |paths| ==> snapshot[i] == Get(files, paths[i])
  {
    seq(|paths|, i requires 0 <= i < |paths| => Get(files, paths[i]))
  }

  /**
   Where a sequence of slot writes raises, if anywhere. Replacing a file is atomic; replacing a
   directory removes the old tree first, so a failure leaves that slot as some `left`.
   */
  datatype Fault = Sound | Breaks(step: nat, left: Option<Content>)

  /** Removing a directory ignores errors, so only the other slot writes can raise. */
  predicate RaisesAt(fault: Fault, i: nat, content: Option<Content>) {
    fault.Breaks? && fault.step == i && (i < FILE_SLOTS || content.Some?)
  }

  /** Write `contents` into `paths` from slot i on; the flag says whether no write raised. */
  function WriteFrom(files: Files, paths: seq<Path>, contents: Snapshot, fault: Fault, i: nat): (Files, bool)
    requires |contents| == |paths| && i <= |paths|
    decreases |paths| - i
  {
    if i == |paths| then (files, true)
    else if RaisesAt(fault, i, contents[i]) then
      (if i < FILE_SLOTS then files else Put(files, paths[i], fault.left), false)
    else WriteFrom(Put(files, paths[i], contents[i]), paths, contents, fault, i + 1)
  }

  function WriteAll(files: Files, paths: seq<Path>, contents: Snapshot, fault: Fault): (Files, bool)
    requires |contents| == |paths|
  {
    WriteFrom(files, paths, contents, fault, 0)
  }

  lemma SameFiles(a: Files, b: Files)
    requires forall p :: Get(a, p) == Get(b, p)
    ensures a == b
  {
    forall p ensures p in a <==> p in b
      ensures p in a ==> a[p] == b[p]
    {
      assert Get(a, p) == Get(b, p);
    }
    assert a.Keys == b.Keys;
  }

  /** Writes touch no path outside the slots, whether or not one raises. */
  lemma {:induction false} WriteFrame(files: Files, paths: seq<Path>, contents: Snapshot, fault: Fault, i: nat, p: Path)
    requires |contents| == |paths| && i <= |paths|
    requires forall j :: i <= j < |paths| ==> paths[j] != p
    ensures Get(WriteFrom(files, paths, contents, fault, i).0, p) == Get(files, p)
    decreases |paths| - i
  {
    if i < |paths| && !RaisesAt(fault, i, contents[i]) {
      WriteFrame(Put(files, paths[i], contents[i]), paths, contents, fault, i + 1, p);
    }
  }

  /** When no write raises, every slot holds what was to be written. */
  lemma {:induction false} WriteFills(files: Files, paths: seq<Path>, contents: Snapshot, fault: Fault, i: nat, k: nat)
    requires |contents| == |paths| && i <= k < |paths|
    requires Distinct(paths)
    requires WriteFrom(files, paths, contents, fault, i).1
    ensures Get(WriteFrom(files, paths, contents, fault, i).0, paths[k]) == contents[k]
    decreases |paths| - i
  {
    var next := Put(files, paths[i], contents[i]);
    if i < k {
      WriteFills(next, paths, contents, fault, i + 1, k);
    } else {
      WriteFrame(next, paths, contents, fault, i + 1, paths[k]);
    }
  }

  lemma {:induction false} SoundWrites(files: Files, paths: seq<Path>, contents: Snapshot, i: nat)
    requires |contents| == |paths| && i <= |paths|
    ensures WriteFrom(files, paths, contents, Sound, i).1
    decreases |paths| - i
  {
    if i < |paths| {
      SoundWrites(Put(files, paths[i], contents[i]), paths, contents, i + 1);
    }
  }

  /**
   Restoring is absolute: from ANY state `now` that differs from `before` only in the slots,
   writing back the snapshot of `before` gives exactly `before`, absent slots included.
   */
  lemma RestoreIsAbsolute(before: Files, now: Files, paths: seq<Path>, fault: Fault)
    requires Distinct(paths)
    requires forall p :: p !in paths ==> Get(now, p) == Get(before, p)
    requires WriteAll(now, paths, Snap(before, paths), fault).1
    ensures WriteAll(now, paths, Snap(before, paths), fault).0 == before
  {
    var restored := WriteAll(now, paths, Snap(before, paths), fault).0;
    forall p ensures Get(restored, p) == Get(before, p) {
      if p in paths {
        var k :| 0 <= k < |paths| && paths[k] == p;
        WriteFills(now, paths, Snap(before, paths), fault, 0, k);
      } else {
        WriteFrame(now, paths, Snap(before, paths), fault, 0, p);
      }
    }
    SameFiles(restored, before);
  }

  /** Deploying a bundle, however it goes, then restoring the backup taken before it. */
  function DeployThenRestore(config: Config, files: Files, bundle: Snapshot, fault: Fault): Files
    requires |bundle| == SLOTS
  {
    var deployed := WriteAll(files, Managed(config), bundle, fault).0;
    WriteAll(deployed, Managed(config), Snap(files, BackedUp(config)), Sound).0
  }

  /**
   The backup reads the compose files at their project paths, the restoration writes them at the
   configured paths. The round trip holds for all contents exactly when those paths coincide.
   */
  lemma RoundTripIffPathsCoincide(config: Config)
    requires Distinct(Managed(config))
    ensures (forall files: Files, bundle: Snapshot, fault: Fault ::
               |bundle| == SLOTS ==> DeployThenRestore(config, files, bundle, fault) == files)
       <==> BackedUp(config) == Managed(config)
  {
    if BackedUp(config) == Managed(config) {
      forall files: Files, bundle: Snapshot, fault: Fault | |bundle| == SLOTS
        ensures DeployThenRestore(config, files, bundle, fault) == files
      {
        InstalledRoundTrip(config, files, bundle, fault);
      }
    } else {
      var k :| 0 <= k < SLOTS && BackedUp(config)[k] != Managed(config)[k];
      DivergentPathLosesFile(config, k);
      assert DeployThenRestore(config, map[Managed(config)[k] := ""], seq(SLOTS, _ => Some("")), Sound)
          != map[Managed(config)[k] := ""];
    }
  }

  lemma InstalledRoundTrip(config: Config, files: Files, bundle: Snapshot, fault: Fault)
    requires Installed(config) && |bundle| == SLOTS
    ensures DeployThenRestore(config, files, bundle, fault) == files
  {
    var paths := Managed(config);
    var deployed := WriteAll(files, paths, bundle, fault).0;
    forall p | p !in paths ensures Get(deployed, p) == Get(files, p) {
      WriteFrame(files, paths, bundle, fault, 0, p);
    }
    SoundWrites(deployed, paths, Snap(files, paths), 0);
    RestoreIsAbsolute(files, deployed, paths, Sound);
  }

  /** A compose file kept elsewhere is deleted by the restoration. */
  lemma DivergentPathLosesFile(config: Config, k: nat)
    requires Distinct(Managed(config))
    requires k < SLOTS && BackedUp(config)[k] != Managed(config)[k]
    ensures Get(DeployThenRestore(config, map[Managed(config)[k] := ""], seq(SLOTS, _ => Some("")), Sound),
                Managed(config)[k]) == None
  {
    var files: Files := map[Managed(config)[k] := ""];
    var deployed := WriteAll(files, Managed(config), seq(SLOTS, _ => Some("")), Sound).0;
    var snapshot := Snap(files, BackedUp(config));
    SoundWrites(deployed, Managed(config), snapshot, 0);
    WriteFills(deployed, Managed(config), snapshot, Sound, 0, k);
  }
}
