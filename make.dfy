/**
 * The two source-build strategies: `./configure && make && make install`
 * and the bare-`make` build with its verification step and manual-install
 * fallback, together with the Autotools classifier for `configure` scripts.
 *
 * The working directory is the build root. Commands are issued through
 * `SourceBuild.Spawn`, which records them in a trace; the install directory
 * is an abstract tree that a command may replace (as the world says) and
 * that the manual-install fallback updates in place.
 */
module Make {
  import opened Text
  import opened Errors
  import opened Oracle

  // ---------------------------------------------------------------------
  // Autotools classifier
  // ---------------------------------------------------------------------

  const AutoconfMarkers: seq<string> :=
    ["Generated by GNU Autoconf", "generated by autoconf", "config.status:"]

  /** The loop over the markers with its early return: some marker of
      `markers` occurs in `content`. */
  function AnyMarkerIn(content: string, markers: seq<string>): (found: bool)
    ensures found <==> exists k :: 0 <= k < |markers| && Contains(content, markers[k])
  {
    if markers == [] then false
    else if Contains(content, markers[0]) then true
    else
      var found := AnyMarkerIn(content, markers[1..]);
      assert forall k :: 1 <= k < |markers| ==> markers[k] == markers[1..][k - 1];
      found
  }

  /** `is_gnu_autotools_configure`: the script can be read and contains one
      of the Autoconf markers; a script that cannot be opened or read is
      classified as not Autotools, never as an error. */
  function IsGnuAutotoolsConfigure(w: World, script: string): (r: bool)
    ensures r <==> script in w.readable
                   && exists m :: m in AutoconfMarkers && Contains(w.readable[script], m)
  {
    match w.Read(script)
    case None => false
    case Some(content) =>
      var found := AnyMarkerIn(content, AutoconfMarkers);
      assert found <==> exists m :: m in AutoconfMarkers && Contains(content, m) by {
        if found {
          var k :| 0 <= k < |AutoconfMarkers| && Contains(content, AutoconfMarkers[k]);
          assert AutoconfMarkers[k] in AutoconfMarkers;
        }
      }
      found
  }

  /** A marker is found wherever it stands in the script, however far past
      the first 4096 bytes: the classifier declares that size for the part
      it reads, but the read itself takes the whole file. */
  lemma MarkerFoundAnywhere(w: World, script: string, before: string, marker: string, after: string)
    requires marker in AutoconfMarkers
    requires w.Read(script) == Some(before + marker + after)
    ensures IsGnuAutotoolsConfigure(w, script)
  {
    var content := before + marker + after;
    assert content[|before|..|before| + |marker|] == marker;
    assert OccursAt(content, marker, |before|);
  }

  // ---------------------------------------------------------------------
  // Paths and command lines
  // ---------------------------------------------------------------------

  /** An install directory, by its normalised components (each a plain name
      or ".."), e.g. /opt/homebrew/Cellar/doggo/1.0.5. */
  datatype InstallPath = InstallPath(absolute: bool, components: seq<string>)

  /** `Path::display`. */
  function Display(dir: InstallPath): (s: string)
    ensures dir.absolute ==> |s| > 0 && s[0] == '/'
  {
    (if dir.absolute then "/" else "")
      + (if dir.components == [] then "" else Join(dir.components, '/'))
  }

  /** The file name of the install directory's parent, or "" when there is
      none (`parent().and_then(file_name)...unwrap_or("")`). */
  function PackageName(dir: InstallPath): (name: string)
    ensures name != "" ==> |dir.components| >= 2 && name == dir.components[|dir.components| - 2]
    ensures name != ".."
  {
    var n := |dir.components|;
    if n >= 2 && dir.components[n - 2] != ".." then dir.components[n - 2] else ""
  }

  /** The displayed path, cut at '/', gives back the components (after an
      empty piece for the leading '/' of an absolute path). */
  lemma DisplaySplitsIntoComponents(dir: InstallPath)
    requires |dir.components| >= 1
    requires forall k :: 0 <= k < |dir.components| ==> '/' !in dir.components[k]
    ensures Split(Display(dir), '/') == (if dir.absolute then [""] else []) + dir.components
  {
    var joined := Join(dir.components, '/');
    JoinThenSplit(dir.components, '/');
    if dir.absolute {
      assert Display(dir) == "" + ['/'] + joined;
      SplitAtFirstSeparator("", joined, '/');
    } else {
      assert Display(dir) == joined;
    }
  }

  /** The package name of a Cellar-style install directory. */
  lemma PackageNameOfCellarPath(prefix: seq<string>, name: string, version: string)
    requires name != ".."
    ensures PackageName(InstallPath(true, prefix + [name, version])) == name
  {
  }

  const ConfigureScript := "./configure"
  const ConfigLog := "config.log"
  const ConfigLogTailLines := 50
  const ConfigLogHeader := "--- Last 50 lines of config.log ---"
  const ConfigLogFooter := "--- End config.log ---"
  const PrefixFlag := "--prefix="
  const AutotoolsFlags := ["--disable-dependency-tracking", "--disable-silent-rules"]

  /** The arguments of `./configure`. */
  function ConfigureArgs(dir: InstallPath, autotools: bool): (args: seq<string>)
    ensures |args| >= 1 && args[0] == PrefixFlag + Display(dir)
    ensures args[1..] == if autotools then AutotoolsFlags else []
  {
    [PrefixFlag + Display(dir)] + (if autotools then AutotoolsFlags else [])
  }

  /** The configure invocation starts with `--prefix=<install dir>` and
      carries the two Autotools flags exactly when the script was classified
      as Autotools. */
  lemma ConfigureArgsShape(dir: InstallPath, autotools: bool)
    ensures var args := ConfigureArgs(dir, autotools);
            && args[0] == "--prefix=" + Display(dir)
            && ("--disable-dependency-tracking" in args <==> autotools)
            && ("--disable-silent-rules" in args <==> autotools)
            && |args| == if autotools then 3 else 1
  {
    var args := ConfigureArgs(dir, autotools);
    assert args[0][2] == 'p';
  }

  function ConfigureCmd(w: World, dir: InstallPath): Cmd {
    Cmd(ConfigureScript, ConfigureArgs(dir, IsGnuAutotoolsConfigure(w, ConfigureScript)))
  }

  function MakeCmd(make: string): Cmd {
    Cmd(make, [])
  }

  function MakeInstallCmd(make: string): Cmd {
    Cmd(make, ["install"])
  }

  function MakeInstallPrefixCmd(make: string, dir: InstallPath): Cmd {
    Cmd(make, ["install", "PREFIX=" + Display(dir)])
  }

  /** `make` from the build environment's PATH, else from the process's
      PATH, else a `BuildEnvError`. */
  function FindMake(w: World): (r: Result<string>)
    ensures r.Ok? <==> "make" in w.envPath || "make" in w.systemPath
    ensures "make" in w.envPath ==> r == Ok(w.envPath["make"])
    ensures "make" !in w.envPath && "make" in w.systemPath ==> r == Ok(w.systemPath["make"])
    ensures r.Err? ==> r.error == BuildEnvError(MakeNotFound)
  {
    if "make" in w.envPath then Ok(w.envPath["make"])
    else if "make" in w.systemPath then Ok(w.systemPath["make"])
    else Err(BuildEnvError(MakeNotFound))
  }

  // ---------------------------------------------------------------------
  // config.log tail
  // ---------------------------------------------------------------------

  /** The lines of `config.log` shown after a failed configure:
      `content.lines().rev().take(50)` collected, then printed back to
      front. */
  method ConfigLogTail(content: string) returns (shown: seq<string>)
    ensures shown == LastN(Lines(content), ConfigLogTailLines)
    ensures |shown| <= ConfigLogTailLines
  {
    var all := Lines(content);
    var collected := Take(Reverse(all), ConfigLogTailLines);
    shown := [];
    var i := |collected|;
    while i > 0
      invariant 0 <= i <= |collected|
      invariant shown == Reverse(collected[i..])
    {
      i := i - 1;
      assert collected[i..] == [collected[i]] + collected[i + 1..];
      shown := shown + [collected[i]];
    }
    assert collected[0..] == collected;
    ReverseTakeReverse(all, ConfigLogTailLines);
  }

  /** What a failed configure prints about `config.log`: nothing when the
      file does not exist; otherwise a header, the last 50 lines when the
      file can be read, and a footer. */
  function ConfigLogSection(w: World): (shown: seq<string>)
    ensures shown == [] <==> !w.Exists(ConfigLog)
    ensures shown != [] ==> && 2 <= |shown| <= ConfigLogTailLines + 2
                            && shown[0] == ConfigLogHeader
                            && shown[|shown| - 1] == ConfigLogFooter
  {
    if !w.Exists(ConfigLog) then []
    else
      [ConfigLogHeader]
        + (match w.Read(ConfigLog)
           case Some(content) => LastN(Lines(content), ConfigLogTailLines)
           case None => [])
        + [ConfigLogFooter]
  }

  /** The shown part of the log is its end, in the original order: at most
      50 lines, each a line of the file. */
  lemma ConfigLogSectionIsTail(w: World)
    requires w.Exists(ConfigLog) && w.Read(ConfigLog).Some?
    ensures var lines := Lines(w.Read(ConfigLog).value);
            var section := ConfigLogSection(w);
            var shown := section[1..|section| - 1];
            && |shown| == (if |lines| < 50 then |lines| else 50)
            && shown == lines[|lines| - |shown|..]
  {
  }

  // ---------------------------------------------------------------------
  // Install directory
  // ---------------------------------------------------------------------

  const Bin := "bin"
  const ExecutableMode: nat := 0x1ED  // 0o755, rwxr-xr-x

  /** `<install>/bin` is a directory with at least one entry. */
  predicate BinPopulated(install: map<string, Node>): (populated: bool)
    ensures populated <==> Bin in install && install[Bin].Dir? && exists e :: e in install[Bin].entries
  {
    Bin in install && install[Bin].Dir? && |install[Bin].entries| > 0
  }

  /** The install directory after the manual fallback: `bin` created when
      missing, and `bin/<name>` a file with mode 0o755. */
  function ManuallyInstalled(install: map<string, Node>, name: string): (after: map<string, Node>)
    ensures BinPopulated(after)
    ensures name in after[Bin].entries && after[Bin].entries[name] == File(ExecutableMode)
    // bin keeps what it held and gains nothing but <name>
    ensures Bin in install && install[Bin].Dir? ==> forall e :: e in install[Bin].entries ==> e in after[Bin].entries
    ensures forall e :: e in after[Bin].entries && e != name ==>
              && Bin in install && install[Bin].Dir? && e in install[Bin].entries
              && after[Bin].entries[e] == install[Bin].entries[e]
    ensures !BinPopulated(install) ==> after[Bin].entries == map[name := File(ExecutableMode)]
    ensures forall k :: k in install && k != Bin ==> k in after && after[k] == install[k]
    ensures after.Keys == install.Keys + {Bin}
  {
    var entries := if Bin in install && install[Bin].Dir? then install[Bin].entries else map[];
    install[Bin := Dir(entries[name := File(ExecutableMode)])]
  }

  // ---------------------------------------------------------------------
  // The strategies as specifications
  // ---------------------------------------------------------------------

  /** The result of a build, as the caller sees it. `DoneWithWarning` is the
      success after which the bare-`make` build warns that nothing was
      installed into `bin`. */
  datatype Outcome = Done | DoneWithWarning | Failed(error: Error)

  /** Everything one build does: its outcome, the command lines it issued in
      order, the install directory it leaves, and the lines it prints about
      `config.log`. */
  datatype BuildRun = BuildRun(outcome: Outcome, issued: seq<Cmd>, install: map<string, Node>, shown: seq<string>)

  /** The failure a step's result stands for, if any. */
  function StepFailure(step: Step, res: CmdResult): Option<Error> {
    match res
    case SpawnFailed => Some(CommandExecError(step))
    case Exited(code, _) => if code != 0 then Some(Generic(StepFailed(step, code))) else None
  }

  /** The install directory after the commands ran one after another,
      each leaving what the world says it leaves. */
  function AfterAll(w: World, cmds: seq<Cmd>, install: map<string, Node>): (after: map<string, Node>)
    // commands that write nothing leave the directory as it was
    ensures (forall k :: 0 <= k < |cmds| ==> cmds[k] !in w.writes) ==> after == install
  {
    if cmds == [] then install else AfterAll(w, cmds[1..], w.InstallAfter(cmds[0], install))
  }

  /** `configure_and_make` as a function of the world and the initial
      install directory. */
  function ConfigureAndMakeRun(w: World, dir: InstallPath, install: map<string, Node>): (run: BuildRun)
    ensures |run.issued| <= 3 && run.outcome != DoneWithWarning
    ensures run.issued == [] ==> run.install == install
    ensures run.shown != [] ==> run.outcome.Failed? && run.outcome.error.Generic?
  {
    if !w.Exists(ConfigureScript) then
      BuildRun(Failed(BuildEnvError(ConfigureMissing)), [], install, [])
    else
      var configure := ConfigureCmd(w, dir);
      var install1 := w.InstallAfter(configure, install);
      var res := w.Run(configure);
      if res.SpawnFailed? then BuildRun(Failed(CommandExecError(Configure)), [configure], install1, [])
      else if res.code != 0 then
        BuildRun(Failed(Generic(StepFailed(Configure, res.code))), [configure], install1, ConfigLogSection(w))
      else match FindMake(w)
        case Err(e) => BuildRun(Failed(e), [configure], install1, [])
        case Ok(make) =>
          var install2 := w.InstallAfter(MakeCmd(make), install1);
          match StepFailure(Make, w.Run(MakeCmd(make)))
          case Some(e) => BuildRun(Failed(e), [configure, MakeCmd(make)], install2, [])
          case None =>
            var install3 := w.InstallAfter(MakeInstallCmd(make), install2);
            var issued := [configure, MakeCmd(make), MakeInstallCmd(make)];
            match StepFailure(MakeInstall, w.Run(MakeInstallCmd(make)))
            case Some(e) => BuildRun(Failed(e), issued, install3, [])
            case None => BuildRun(Done, issued, install3, [])
  }

  /** The verification after the lenient `make install` of the bare-`make`
      build: the outcome and the install directory left, given the install
      status and the install directory after `make install`. */
  function VerifyInstall(w: World, dir: InstallPath, status: int, install: map<string, Node>): (r: (Outcome, map<string, Node>))
    // a plain success always leaves a populated bin
    ensures r.0 == Done ==> BinPopulated(r.1)
    // the directory is changed only by the manual copy, and then only in bin
    ensures r.1 == install || (!BinPopulated(install) && r.1 == ManuallyInstalled(install, PackageName(dir)))
    ensures r.1 != install ==> r.0 == Done && PackageName(dir) != "" && w.IsFile("./" + PackageName(dir))
    // a warning only when make install reported success
    ensures r.0 == DoneWithWarning ==> status == 0 && r.1 == install
    // failing with nothing installed only when make install reported failure
    ensures r.0 == Failed(Generic(InstallFailedNoArtifacts(status))) ==> status != 0 && r.1 == install
  {
    if BinPopulated(install) then (Done, install)
    else
      var name := PackageName(dir);
      if name != "" && w.IsFile("./" + name) then
        if Bin in install && install[Bin].File? then (Failed(Io(BinDirNotCreatable)), install)
        else (Done, ManuallyInstalled(install, name))
      else if status != 0 then (Failed(Generic(InstallFailedNoArtifacts(status))), install)
      else (DoneWithWarning, install)
  }

  /** `simple_make` as a function of the world and the initial install
      directory. */
  function SimpleMakeRun(w: World, dir: InstallPath, install: map<string, Node>): (run: BuildRun)
    ensures |run.issued| <= 2 && run.shown == []
    ensures run.outcome == DoneWithWarning ==> |run.issued| == 2 && w.Run(run.issued[1]).Succeeded()
  {
    match FindMake(w)
    case Err(e) => BuildRun(Failed(e), [], install, [])
    case Ok(make) =>
      var install1 := w.InstallAfter(MakeCmd(make), install);
      match StepFailure(Make, w.Run(MakeCmd(make)))
      case Some(e) => BuildRun(Failed(e), [MakeCmd(make)], install1, [])
      case None =>
        var installCmd := MakeInstallPrefixCmd(make, dir);
        var install2 := w.InstallAfter(installCmd, install1);
        var issued := [MakeCmd(make), installCmd];
        match w.Run(installCmd)
        case SpawnFailed => BuildRun(Failed(CommandExecError(MakeInstall)), issued, install2, [])
        case Exited(status, _) =>
          var v := VerifyInstall(w, dir, status, install2);
          BuildRun(v.0, issued, v.1, [])
  }

  // ---------------------------------------------------------------------
  // Properties of the strategies
  // ---------------------------------------------------------------------

  /** Without `./configure` the configure build fails with
      `BuildEnvError` before issuing any command. */
  lemma ConfigureMissingIssuesNothing(w: World, dir: InstallPath, install: map<string, Node>)
    requires !w.Exists(ConfigureScript)
    ensures var run := ConfigureAndMakeRun(w, dir, install);
            run.outcome == Failed(BuildEnvError(ConfigureMissing)) && run.issued == [] && run.install == install
  {
  }

  /** configure, make and make install are issued in that order; each step
      is issued only when every earlier one exited 0; the build succeeds
      exactly when all three did, and a step that exits non-zero is the
      `Generic` failure of that step. */
  lemma ConfigureAndMakeStepOrder(w: World, dir: InstallPath, install: map<string, Node>, make: string)
    requires w.Exists(ConfigureScript) && FindMake(w) == Ok(make)
    ensures var run := ConfigureAndMakeRun(w, dir, install);
            var steps := [ConfigureCmd(w, dir), MakeCmd(make), MakeInstallCmd(make)];
            && 1 <= |run.issued| <= 3
            && run.issued == steps[..|run.issued|]
            && (forall k :: 0 <= k < |run.issued| - 1 ==> w.Run(run.issued[k]).Succeeded())
            && (run.outcome == Done <==> |run.issued| == 3 && w.Run(steps[2]).Succeeded())
            && (run.outcome != Done ==> run.outcome == Failed(StepFailure([Configure, Make, MakeInstall][|run.issued| - 1],
                                                                         w.Run(run.issued[|run.issued| - 1])).value))
  {
    var configure := ConfigureCmd(w, dir);
    var run := ConfigureAndMakeRun(w, dir, install);
    if !w.Run(configure).Succeeded() {
      assert run.issued == [configure];
    } else if !w.Run(MakeCmd(make)).Succeeded() {
      assert run.issued == [configure, MakeCmd(make)];
    } else {
      assert run.issued == [configure, MakeCmd(make), MakeInstallCmd(make)];
    }
  }

  /** The configure build has no fallback: the install directory it
      leaves is exactly what its issued commands leave, in order. */
  lemma ConfigureAndMakeInstallIsCommands(w: World, dir: InstallPath, install: map<string, Node>)
    ensures var run := ConfigureAndMakeRun(w, dir, install);
            run.install == AfterAll(w, run.issued, install)
  {
    var run := ConfigureAndMakeRun(w, dir, install);
    if run.issued != [] {
      var c := run.issued[0];
      var i1 := w.InstallAfter(c, install);
      if |run.issued| == 1 {
        assert AfterAll(w, run.issued, install) == AfterAll(w, [], i1);
      } else if |run.issued| == 2 {
        var i2 := w.InstallAfter(run.issued[1], i1);
        assert AfterAll(w, run.issued, install) == AfterAll(w, run.issued[1..], i1) == AfterAll(w, [], i2);
      } else {
        var i2 := w.InstallAfter(run.issued[1], i1);
        var i3 := w.InstallAfter(run.issued[2], i2);
        assert run.issued[1..][1..] == run.issued[2..];
        assert run.issued[2..][1..] == [];
        assert AfterAll(w, run.issued, install) == AfterAll(w, run.issued[1..], i1)
               == AfterAll(w, run.issued[2..], i2) == AfterAll(w, [], i3);
      }
    }
  }

  /** A configure that cannot be started ends the build with
      `CommandExecError` at once, whether or not `make` exists, and prints
      nothing about `config.log`. */
  lemma ConfigureSpawnFailure(w: World, dir: InstallPath, install: map<string, Node>)
    requires w.Exists(ConfigureScript) && w.Run(ConfigureCmd(w, dir)).SpawnFailed?
    ensures var run := ConfigureAndMakeRun(w, dir, install);
            && run.outcome == Failed(CommandExecError(Configure))
            && run.issued == [ConfigureCmd(w, dir)]
            && run.install == install
            && run.shown == []
  {
  }

  /** When `make` cannot be found after a successful configure, only
      configure was issued and the build fails with `BuildEnvError`. */
  lemma ConfigureAndMakeWithoutMake(w: World, dir: InstallPath, install: map<string, Node>)
    requires w.Exists(ConfigureScript) && w.Run(ConfigureCmd(w, dir)).Succeeded()
    requires FindMake(w).Err?
    ensures var run := ConfigureAndMakeRun(w, dir, install);
            run.outcome == Failed(BuildEnvError(MakeNotFound)) && run.issued == [ConfigureCmd(w, dir)]
  {
  }

  /** `config.log` is shown only after configure itself exited non-zero. */
  lemma ConfigLogShownOnlyOnConfigureFailure(w: World, dir: InstallPath, install: map<string, Node>)
    ensures var run := ConfigureAndMakeRun(w, dir, install);
            run.shown != [] ==>
              && run.issued == [ConfigureCmd(w, dir)]
              && w.Run(ConfigureCmd(w, dir)).Exited? && w.Run(ConfigureCmd(w, dir)).code != 0
              && run.shown == ConfigLogSection(w)
  {
  }

  /** A configure that exits non-zero shows the end of `config.log` and
      ends the build with its `Generic` failure before `make` is looked
      for. */
  lemma ConfigLogShownOnConfigureFailure(w: World, dir: InstallPath, install: map<string, Node>)
    requires w.Exists(ConfigureScript)
    requires w.Run(ConfigureCmd(w, dir)).Exited? && w.Run(ConfigureCmd(w, dir)).code != 0
    ensures var run := ConfigureAndMakeRun(w, dir, install);
            && run.shown == ConfigLogSection(w)
            && run.issued == [ConfigureCmd(w, dir)]
            && run.outcome == Failed(Generic(StepFailed(Configure, w.Run(ConfigureCmd(w, dir)).code)))
  {
  }

  /** A `config.log` that exists but cannot be read shows only the header
      and the footer. */
  lemma ConfigLogUnreadable(w: World)
    requires w.Exists(ConfigLog) && w.Read(ConfigLog).None?
    ensures ConfigLogSection(w) == [ConfigLogHeader, ConfigLogFooter]
  {
  }

  /** The bare-`make` build without a `make` issues nothing and leaves
      the install directory as it was. */
  lemma SimpleMakeWithoutMake(w: World, dir: InstallPath, install: map<string, Node>)
    requires FindMake(w).Err?
    ensures var run := SimpleMakeRun(w, dir, install);
            run.outcome == Failed(BuildEnvError(MakeNotFound)) && run.issued == [] && run.install == install
  {
  }

  /** A failing `make` ends the bare-`make` build with its `Generic`
      failure; `make install PREFIX=<dir>` is never issued. */
  lemma SimpleMakeStopsOnMakeFailure(w: World, dir: InstallPath, install: map<string, Node>, make: string)
    requires FindMake(w) == Ok(make)
    requires w.Run(MakeCmd(make)).Exited? && w.Run(MakeCmd(make)).code != 0
    ensures var run := SimpleMakeRun(w, dir, install);
            && run.outcome == Failed(Generic(StepFailed(Make, w.Run(MakeCmd(make)).code)))
            && run.issued == [MakeCmd(make)]
            && MakeInstallPrefixCmd(make, dir) !in run.issued
            && run.install == w.InstallAfter(MakeCmd(make), install)
  {
  }

  /** A `make` or a `make install PREFIX=<dir>` that cannot be started
      ends the bare-`make` build with `CommandExecError` of that step at
      once: no verification of `bin` and no manual copy. */
  lemma SimpleMakeSpawnFailures(w: World, dir: InstallPath, install: map<string, Node>, make: string)
    requires FindMake(w) == Ok(make)
    ensures var run := SimpleMakeRun(w, dir, install);
            && (w.Run(MakeCmd(make)).SpawnFailed? ==>
                  && run.outcome == Failed(CommandExecError(Make))
                  && run.issued == [MakeCmd(make)]
                  && run.install == install)
            && (w.Run(MakeCmd(make)).Succeeded() && w.Run(MakeInstallPrefixCmd(make, dir)).SpawnFailed? ==>
                  && run.outcome == Failed(CommandExecError(MakeInstall))
                  && run.issued == [MakeCmd(make), MakeInstallPrefixCmd(make, dir)]
                  && run.install == w.InstallAfter(MakeCmd(make), install))
  {
  }

  /** The bare-`make` build changes the install directory only through
      its issued commands, and the manual copy into `bin` happens only
      after both `make` and `make install PREFIX=<dir>` ran and only on a
      plain success. */
  lemma SimpleMakeInstallIsCommandsOrCopy(w: World, dir: InstallPath, install: map<string, Node>)
    ensures var run := SimpleMakeRun(w, dir, install);
            var after := AfterAll(w, run.issued, install);
            || run.install == after
            || (&& |run.issued| == 2 && run.outcome == Done && !BinPopulated(after)
                && run.install == ManuallyInstalled(after, PackageName(dir)))
  {
    var run := SimpleMakeRun(w, dir, install);
    if run.issued != [] {
      var i1 := w.InstallAfter(run.issued[0], install);
      if |run.issued| == 1 {
        assert AfterAll(w, run.issued, install) == AfterAll(w, [], i1);
      } else {
        var i2 := w.InstallAfter(run.issued[1], i1);
        assert run.issued[1..][1..] == [];
        assert AfterAll(w, run.issued, install) == AfterAll(w, run.issued[1..], i1) == AfterAll(w, [], i2);
      }
    }
  }

  /** The decision after the lenient `make install`, by the install status,
      whether `bin` is populated and whether the named artifact exists. */
  lemma SimpleMakeOutcomeTable(w: World, dir: InstallPath, install: map<string, Node>, make: string)
    requires FindMake(w) == Ok(make)
    requires w.Run(MakeCmd(make)).Succeeded()
    requires w.Run(MakeInstallPrefixCmd(make, dir)).Exited?
    ensures var run := SimpleMakeRun(w, dir, install);
            var status := w.Run(MakeInstallPrefixCmd(make, dir)).code;
            var after := w.InstallAfter(MakeInstallPrefixCmd(make, dir), w.InstallAfter(MakeCmd(make), install));
            var name := PackageName(dir);
            var artifact := name != "" && w.IsFile("./" + name);
            && run.issued == [MakeCmd(make), MakeInstallPrefixCmd(make, dir)]
            && (BinPopulated(after) ==> run.outcome == Done && run.install == after)
            && (!BinPopulated(after) && artifact && !(Bin in after && after[Bin].File?) ==>
                  run.outcome == Done && run.install == ManuallyInstalled(after, name))
            && (!BinPopulated(after) && artifact && Bin in after && after[Bin].File? ==>
                  run.outcome == Failed(Io(BinDirNotCreatable)) && run.install == after)
            && (!BinPopulated(after) && !artifact && status != 0 ==>
                  run.outcome == Failed(Generic(InstallFailedNoArtifacts(status))) && run.install == after)
            && (!BinPopulated(after) && !artifact && status == 0 ==>
                  run.outcome == DoneWithWarning && run.install == after)
  {
  }

  /** After a plain success of the bare-`make` build, `<install>/bin` is
      populated; when the manual fallback ran, it holds `<name>` with mode
      0o755. */
  lemma SimpleMakeSuccessPopulatesBin(w: World, dir: InstallPath, install: map<string, Node>)
    ensures var run := SimpleMakeRun(w, dir, install);
            run.outcome == Done ==> BinPopulated(run.install)
  {
  }

  // ---------------------------------------------------------------------
  // The strategies as they run
  // ---------------------------------------------------------------------

  /** One build in the working directory: the world it observes, the
      commands it has issued, the install directory and what it printed
      about `config.log`. */
  class SourceBuild {
    const world: World
    var trace: seq<Cmd>
    var install: map<string, Node>
    var stderr: seq<string>

    constructor (world: World, install: map<string, Node>)
      ensures this.world == world && this.install == install
      ensures trace == [] && stderr == []
    {
      this.world := world;
      this.install := install;
      trace := [];
      stderr := [];
    }

    /** Runs one command line: it joins the trace, and the install
        directory becomes what the command leaves behind. */
    method Spawn(c: Cmd) returns (res: CmdResult)
      modifies this
      ensures res == world.Run(c)
      ensures trace == old(trace) + [c]
      ensures install == world.InstallAfter(c, old(install))
      ensures stderr == old(stderr)
    {
      res := world.Run(c);
      trace := trace + [c];
      install := world.InstallAfter(c, install);
    }

    /** Prints the end of `config.log` after a failed configure. */
    method ShowConfigLog()
      modifies this
      ensures stderr == old(stderr) + ConfigLogSection(world)
      ensures trace == old(trace) && install == old(install)
    {
      if world.Exists(ConfigLog) {
        var tail := [];
        var content := world.Read(ConfigLog);
        if content.Some? {
          tail := ConfigLogTail(content.value);
        }
        stderr := stderr + ([ConfigLogHeader] + tail + [ConfigLogFooter]);
      }
    }

    /** `configure_and_make`. */
    method ConfigureAndMake(dir: InstallPath) returns (r: Outcome)
      modifies this
      ensures var run := ConfigureAndMakeRun(world, dir, old(install));
              && r == run.outcome
              && trace == old(trace) + run.issued
              && install == run.install
              && stderr == old(stderr) + run.shown
    {
      if !world.Exists(ConfigureScript) {
        return Failed(BuildEnvError(ConfigureMissing));
      }
      var isAutotools := IsGnuAutotoolsConfigure(world, ConfigureScript);
      var args := [PrefixFlag + Display(dir)];
      if isAutotools {
        args := args + AutotoolsFlags;
      }
      assert args == ConfigureArgs(dir, isAutotools);
      var output := Spawn(Cmd(ConfigureScript, args));
      if output.SpawnFailed? {
        return Failed(CommandExecError(Configure));
      }
      if output.code != 0 {
        ShowConfigLog();
        return Failed(Generic(StepFailed(Configure, output.code)));
      }

      var make := FindMake(world);
      if make.Err? {
        return Failed(make.error);
      }
      var outputMake := Spawn(MakeCmd(make.value));
      if outputMake.SpawnFailed? {
        return Failed(CommandExecError(Make));
      }
      if outputMake.code != 0 {
        return Failed(Generic(StepFailed(Make, outputMake.code)));
      }

      var outputInstall := Spawn(MakeInstallCmd(make.value));
      if outputInstall.SpawnFailed? {
        return Failed(CommandExecError(MakeInstall));
      }
      if outputInstall.code != 0 {
        return Failed(Generic(StepFailed(MakeInstall, outputInstall.code)));
      }
      return Done;
    }

    /** The manual fallback: create `<install>/bin` when missing, copy the
        build-root file `<name>` into it and set its mode to 0o755. Fails
        with `Io` when `bin` exists and is not a directory. */
    method InstallManually(name: string) returns (err: Option<Error>)
      modifies this
      ensures err.Some? <==> Bin in old(install) && old(install)[Bin].File?
      ensures err.Some? ==> err.value == Io(BinDirNotCreatable) && install == old(install)
      ensures err.None? ==> install == ManuallyInstalled(old(install), name)
      ensures trace == old(trace) && stderr == old(stderr)
    {
      // fs::create_dir_all(bin)
      if Bin in install && install[Bin].File? {
        return Some(Io(BinDirNotCreatable));
      }
      if Bin !in install {
        install := install[Bin := Dir(map[])];
      }
      var entries := install[Bin].entries;
      assert entries == if Bin in old(install) && old(install)[Bin].Dir? then old(install)[Bin].entries else map[];
      // fs::copy(./<name>, bin/<name>) keeps the source's permission bits
      install := install[Bin := Dir(entries[name := File(world.Mode("./" + name))])];
      // set_mode(0o755)
      var copied := install[Bin].entries;
      assert copied[name := File(ExecutableMode)] == entries[name := File(ExecutableMode)];
      install := install[Bin := Dir(copied[name := File(ExecutableMode)])];
      assert install == old(install)[Bin := Dir(entries[name := File(ExecutableMode)])];
      return None;
    }

    /** `simple_make`. */
    method SimpleMake(dir: InstallPath) returns (r: Outcome)
      modifies this
      ensures var run := SimpleMakeRun(world, dir, old(install));
              && r == run.outcome
              && trace == old(trace) + run.issued
              && install == run.install
              && stderr == old(stderr)
    {
      var make := FindMake(world);
      if make.Err? {
        return Failed(make.error);
      }
      var outputMake := Spawn(MakeCmd(make.value));
      if outputMake.SpawnFailed? {
        return Failed(CommandExecError(Make));
      }
      if outputMake.code != 0 {
        return Failed(Generic(StepFailed(Make, outputMake.code)));
      }

      var args := ["install"];
      args := args + ["PREFIX=" + Display(dir)];
      assert Cmd(make.value, args) == MakeInstallPrefixCmd(make.value, dir);
      var outputInstall := Spawn(Cmd(make.value, args));
      if outputInstall.SpawnFailed? {
        return Failed(CommandExecError(MakeInstall));
      }
      var makeInstallSucceeded := outputInstall.code == 0;

      var binPopulated := BinPopulated(install);
      if !binPopulated {
        var name := PackageName(dir);
        var foundAndInstalledManually := false;
        if name != "" && world.IsFile("./" + name) {
          var err := InstallManually(name);
          if err.Some? {
            return Failed(err.value);
          }
          foundAndInstalledManually := true;
        }
        if !makeInstallSucceeded && !foundAndInstalledManually {
          return Failed(Generic(InstallFailedNoArtifacts(outputInstall.code)));
        } else if !foundAndInstalledManually {
          return DoneWithWarning;
        }
      }
      return Done;
    }
  }
}
