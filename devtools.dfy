/**
 * Toolchain and platform probing: which compiler to use, where the macOS SDK
 * lives, the macOS version in "major.minor" form, and the `-arch` flag for
 * the target. Each probe is a chain of early-return decisions over the
 * answers of the world; the compile-time platform and architecture of the
 * original are explicit parameters here.
 */
module DevTools {
  import opened Text
  import opened Errors
  import opened Oracle

  datatype Platform = MacOS | OtherOS

  datatype Arch = X86_64 | Aarch64 | OtherArch(name: string)

  // ---------------------------------------------------------------------
  // Compiler resolution
  // ---------------------------------------------------------------------

  /** The environment variable that overrides a compiler: "CC" for "cc",
      "CXX" for "c++" and "cxx", none ("") for every other name. */
  function OverrideVariable(name: string): (v: string)
    ensures v == "CC" <==> name == "cc"
    ensures v == "CXX" <==> name == "c++" || name == "cxx"
    ensures v == "" <==> name != "cc" && name != "c++" && name != "cxx"
  {
    match name
    case "cc" => "CC"
    case "c++" => "CXX"
    case "cxx" => "CXX"
    case _ => ""
  }

  /** Step 1: the override variable is set and names a regular file. */
  function FromOverride(w: World, name: string): (found: Option<string>)
    ensures found.Some? ==> w.IsFile(found.value)
  {
    var v := OverrideVariable(name);
    if v != "" && v in w.env && w.IsFile(w.env[v]) then Some(w.env[v]) else None
  }

  function XcrunFind(name: string): Cmd {
    Cmd("xcrun", ["--find", name])
  }

  /** Step 2, on macOS only: `xcrun --find <name>` exits 0 and its trimmed
      output is a non-empty path to a regular file. Anything else falls
      through. */
  function FromXcrun(w: World, p: Platform, name: string): (found: Option<string>)
    ensures found.Some? ==> p == MacOS && found.value != "" && w.IsFile(found.value)
    ensures found.Some? ==> w.Run(XcrunFind(name)).Succeeded() && found.value == Trim(w.Run(XcrunFind(name)).stdout)
    ensures p == MacOS && w.Run(XcrunFind(name)).Succeeded()
            && Trim(w.Run(XcrunFind(name)).stdout) != "" && w.IsFile(Trim(w.Run(XcrunFind(name)).stdout))
            ==> found == Some(Trim(w.Run(XcrunFind(name)).stdout))
  {
    if p != MacOS then None
    else match w.Run(XcrunFind(name))
      case Exited(code, out) =>
        var path := Trim(out);
        if code == 0 && path != "" && w.IsFile(path) then Some(path) else None
      case SpawnFailed => None
  }

  /** `find_compiler`: the override, then `xcrun` (macOS), then the process's
      PATH; the first that answers wins. */
  function FindCompiler(w: World, p: Platform, name: string): (r: Result<string>)
    ensures r.Ok? ==> w.IsFile(r.value) || (name in w.systemPath && r.value == w.systemPath[name])
    ensures r.Err? <==> FromOverride(w, name).None? && FromXcrun(w, p, name).None? && name !in w.systemPath
    ensures r.Err? ==> r.error == BuildEnvError(CompilerNotFound(name))
  {
    match FromOverride(w, name)
    case Some(path) => Ok(path)
    case None =>
      match FromXcrun(w, p, name)
      case Some(path) => Ok(path)
      case None =>
        if name in w.systemPath then Ok(w.systemPath[name])
        else Err(BuildEnvError(CompilerNotFound(name)))
  }

  /** An override naming a regular file is returned as it is, whatever
      `xcrun` and the PATH would have said. */
  lemma OverrideBypassesOtherSources(w: World, p: Platform, name: string,
                                     results: map<Cmd, CmdResult>, systemPath: map<string, string>)
    requires OverrideVariable(name) != "" && OverrideVariable(name) in w.env
    requires w.IsFile(w.env[OverrideVariable(name)])
    ensures FindCompiler(w.(results := results, systemPath := systemPath), p, name)
            == Ok(w.env[OverrideVariable(name)])
  {
  }

  /** An override that does not name a regular file counts as unset. */
  lemma OverrideToNonFileFallsThrough(w: World, p: Platform, name: string)
    requires OverrideVariable(name) in w.env && !w.IsFile(w.env[OverrideVariable(name)])
    ensures FindCompiler(w, p, name) == FindCompiler(w.(env := w.env - {OverrideVariable(name)}), p, name)
  {
    var unset := w.(env := w.env - {OverrideVariable(name)});
    assert FromOverride(w, name) == None == FromOverride(unset, name);
    assert FromXcrun(w, p, name) == FromXcrun(unset, p, name);
  }

  /** Names other than "cc", "c++" and "cxx" ignore the environment. */
  lemma OtherNamesIgnoreEnvironment(w: World, p: Platform, name: string, env: map<string, string>)
    requires name != "cc" && name != "c++" && name != "cxx"
    ensures FindCompiler(w, p, name) == FindCompiler(w.(env := env), p, name)
  {
  }

  /** Off macOS no command is consulted: the answer does not depend on what
      any command would print. */
  lemma XcrunOnlyOnMacOS(w: World, name: string, results: map<Cmd, CmdResult>)
    ensures FindCompiler(w, OtherOS, name) == FindCompiler(w.(results := results), OtherOS, name)
  {
  }

  /** On macOS, every way `xcrun` can fail to answer (not started, non-zero
      exit, empty output, not a regular file) leads to the PATH search, just
      as off macOS, and never to an error of its own. */
  lemma XcrunFailureFallsThroughToPath(w: World, name: string)
    requires var res := w.Run(XcrunFind(name));
             || res.SpawnFailed?
             || res.code != 0
             || Trim(res.stdout) == ""
             || !w.IsFile(Trim(res.stdout))
    ensures FindCompiler(w, MacOS, name) == FindCompiler(w, OtherOS, name)
  {
  }

  /** On macOS, with no usable override, a usable `xcrun` answer is the
      result, whatever the PATH search would have found. */
  lemma XcrunAnswerPrecedesPath(w: World, name: string, systemPath: map<string, string>)
    requires FromOverride(w, name).None?
    requires var res := w.Run(XcrunFind(name));
             res.Succeeded() && Trim(res.stdout) != "" && w.IsFile(Trim(res.stdout))
    ensures FindCompiler(w.(systemPath := systemPath), MacOS, name) == Ok(Trim(w.Run(XcrunFind(name)).stdout))
  {
  }

  /** When neither the override nor `xcrun` answers, the PATH hit is the
      result. */
  lemma PathIsLastResort(w: World, p: Platform, name: string)
    requires FromOverride(w, name).None? && FromXcrun(w, p, name).None?
    requires name in w.systemPath
    ensures FindCompiler(w, p, name) == Ok(w.systemPath[name])
  {
  }

  /** When the PATH search only finds regular files, a resolved compiler is
      always a regular file. */
  lemma ResolvedCompilerIsFile(w: World, p: Platform, name: string)
    requires w.SearchesFindFiles()
    ensures FindCompiler(w, p, name).Ok? ==> w.IsFile(FindCompiler(w, p, name).value)
  {
  }

  // ---------------------------------------------------------------------
  // SDK path
  // ---------------------------------------------------------------------

  const XcrunShowSdkPath := Cmd("xcrun", ["--show-sdk-path"])

  /** `find_sdk_path`: "/" off macOS; on macOS the trimmed output of
      `xcrun --show-sdk-path`, which must be a present path other than ""
      and "/". */
  function FindSdkPath(w: World, p: Platform): (r: Result<string>)
    ensures p == OtherOS ==> r == Ok("/")
    ensures p == MacOS && r.Ok? ==>
              && w.Run(XcrunShowSdkPath).Succeeded()
              && r.value == Trim(w.Run(XcrunShowSdkPath).stdout)
              && r.value != "" && r.value != "/" && w.Exists(r.value)
    ensures r.Err? ==> p == MacOS && r.error.BuildEnvError?
    ensures p == MacOS && w.Run(XcrunShowSdkPath).Succeeded()
            && Trim(w.Run(XcrunShowSdkPath).stdout) !in {"", "/"} && w.Exists(Trim(w.Run(XcrunShowSdkPath).stdout))
            ==> r == Ok(Trim(w.Run(XcrunShowSdkPath).stdout))
  {
    if p != MacOS then Ok("/")
    else match w.Run(XcrunShowSdkPath)
      case SpawnFailed => Err(BuildEnvError(SdkLocatorSpawnFailed))
      case Exited(code, out) =>
        if code != 0 then Err(BuildEnvError(SdkLocatorFailed))
        else
          var path := Trim(out);
          if path == "" || path == "/" then Err(BuildEnvError(SdkPathEmptyOrRoot))
          else if !w.Exists(path) then Err(BuildEnvError(SdkPathMissing(path)))
          else Ok(path)
  }

  /** On macOS each way of not getting a usable SDK path is an error. */
  lemma SdkPathFailures(w: World)
    ensures var res := w.Run(XcrunShowSdkPath);
            && (res.SpawnFailed? ==> FindSdkPath(w, MacOS) == Err(BuildEnvError(SdkLocatorSpawnFailed)))
            && (res.Exited? && res.code != 0 ==> FindSdkPath(w, MacOS) == Err(BuildEnvError(SdkLocatorFailed)))
            && (res.Succeeded() && Trim(res.stdout) in {"", "/"} ==>
                  FindSdkPath(w, MacOS) == Err(BuildEnvError(SdkPathEmptyOrRoot)))
            && (res.Succeeded() && Trim(res.stdout) !in {"", "/"} && !w.Exists(Trim(res.stdout)) ==>
                  FindSdkPath(w, MacOS) == Err(BuildEnvError(SdkPathMissing(Trim(res.stdout)))))
  {
  }

  // ---------------------------------------------------------------------
  // macOS version
  // ---------------------------------------------------------------------

  const SwVersProductVersion := Cmd("sw_vers", ["-productVersion"])

  /** "major.minor" of a dotted version: the first two '.'-separated pieces
      joined by '.', or the whole text when it has no '.'. */
  function ShortVersion(full: string): (short: string)
    ensures short == full || '.' in short
  {
    var parts := Split(full, '.');
    if |parts| >= 2 then
      var short := parts[0] + "." + parts[1];
      assert short[|parts[0]|] == '.';
      short
    else full
  }

  /** The short version is the start of the full version. */
  lemma ShortVersionIsPrefix(full: string)
    ensures ShortVersion(full) <= full
  {
    var parts := Split(full, '.');
    SplitThenJoin(full, '.');
    if |parts| >= 2 {
      JoinStartsWithFirstTwo(parts, '.');
    }
  }

  /** With at least one '.', the short version has exactly the first two
      pieces of the full one; without a '.', it is the full text. */
  lemma ShortVersionKeepsTwoPieces(full: string)
    ensures '.' in full ==> |Split(full, '.')| >= 2 && Split(ShortVersion(full), '.') == Split(full, '.')[..2]
    ensures '.' !in full ==> ShortVersion(full) == full
  {
    var parts := Split(full, '.');
    SeparatorIffSeveralPieces(full, '.');
    if '.' in full {
      JoinThenSplit(parts[..2], '.');
      assert Join(parts[..2], '.') == parts[0] + "." + Join(parts[..2][1..], '.');
    } else {
      SplitWithoutSeparator(full, '.');
    }
  }

  /** Shortening an already short version changes nothing. */
  lemma ShortVersionIdempotent(full: string)
    ensures ShortVersion(ShortVersion(full)) == ShortVersion(full)
  {
    ShortVersionKeepsTwoPieces(full);
    if '.' in full {
      var short := ShortVersion(full);
      var parts := Split(full, '.');
      assert short == parts[0] + "." + parts[1];
      assert Split(short, '.') == parts[..2];
    }
  }

  /** `get_macos_version`: "0.0" off macOS; on macOS the short form of the
      trimmed output of `sw_vers -productVersion`, or an error when it
      cannot be started or exits non-zero. */
  function GetMacosVersion(w: World, p: Platform): (r: Result<string>)
    ensures p == OtherOS ==> r == Ok("0.0")
    ensures p == MacOS ==>
              (r.Ok? <==> w.Run(SwVersProductVersion).Succeeded())
    ensures p == MacOS && r.Ok? ==> r.value == ShortVersion(Trim(w.Run(SwVersProductVersion).stdout))
    ensures r.Err? ==> r.error in {BuildEnvError(VersionQuerySpawnFailed), BuildEnvError(VersionQueryFailed)}
  {
    if p != MacOS then Ok("0.0")
    else match w.Run(SwVersProductVersion)
      case SpawnFailed => Err(BuildEnvError(VersionQuerySpawnFailed))
      case Exited(code, out) =>
        if code == 0 then Ok(ShortVersion(Trim(out))) else Err(BuildEnvError(VersionQueryFailed))
  }

  /** The version reported on macOS is a prefix of what `sw_vers` printed
      (after trimming) and is already in short form. */
  lemma MacosVersionIsShortPrefix(w: World)
    requires w.Run(SwVersProductVersion).Succeeded()
    ensures GetMacosVersion(w, MacOS).Ok?
    ensures var v := GetMacosVersion(w, MacOS).value;
            v <= Trim(w.Run(SwVersProductVersion).stdout) && ShortVersion(v) == v
  {
    var full := Trim(w.Run(SwVersProductVersion).stdout);
    ShortVersionIsPrefix(full);
    ShortVersionIdempotent(full);
  }

  // ---------------------------------------------------------------------
  // Architecture flag
  // ---------------------------------------------------------------------

  /** `get_arch_flag`: never fails; "-arch x86_64" or "-arch arm64" for the
      two known architectures on macOS, empty otherwise. */
  function ArchFlag(p: Platform, arch: Arch): (flag: string)
    ensures flag != "" <==> p == MacOS && !arch.OtherArch?
    ensures flag in {"", "-arch x86_64", "-arch arm64"}
    ensures flag == "-arch arm64" <==> p == MacOS && arch == Aarch64
  {
    if p != MacOS then ""
    else match arch
      case X86_64 => "-arch x86_64"
      case Aarch64 => "-arch arm64"
      case OtherArch(_) => ""
  }
}
