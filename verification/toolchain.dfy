/** Per-target preparation in the build loop of the contribs builder script
    (contribs/contribs_builder.py, lines 273-386): directory and archive
    names, the Qt configure-module command, the `QT_HOST_PATH` environment
    override, and the CMake command, generator and shared/static switches. */
module Toolchain {
  import opened Wrappers
  import opened Targets
  import TextUtil

  /** The values `"ON"` / `"OFF"` passed for BUILD_SHARED_LIBS / BUILD_STATIC_LIBS. */
  datatype Switch = On | Off

  /** The four parts of the CMake selection. */
  datatype CMakeConfig = CMakeConfig(command: seq<string>, generator: string, buildShared: Switch, buildStatic: Switch)

  /** Script settings that stay fixed for the whole loop: the contribs
      directory (the working directory), `QT_DIRECTORY`, `QT_VERSION` and
      `ANDROID_NDK_ROOT`. The last is the same environment variable the
      target resolution reads as `HostFacts.ndkRoot`; the scenarios below
      require the two to agree. */
  datatype Settings = Settings(contribsDir: string, qtDirectory: string, qtVersion: string, ndkRoot: string)

  /** Everything the loop prepares for one target before building. */
  datatype TargetPlan = TargetPlan(
    buildDir: string,
    envDir: string,
    configureModule: string,
    qtHostPath: Option<string>,
    cmake: CMakeConfig)

  const DefaultVersion: string := "6.6.3"

  function OsTag(os: TargetOs): string {
    match os
    case Linux => "linux"
    case MacOS => "macOS"
    case Windows => "windows"
    case Android => "android"
    case IOS => "iOS"
  }

  function ArchTag(arch: Arch): string {
    match arch
    case X86_64 => "x86_64"
    case Unified => "unified"
    case Arm64 => "arm64"
    case Armv8 => "armv8"
    case Armv7 => "armv7"
    case X86 => "x86"
    case Simulator => "simulator"
    case I686 => "i686"
  }

  // ---------------------------------------------------------------------------
  // Names

  /** `<os>_<arch>`, the per-target directory component. */
  function TargetKey(t: Target): string {
    OsTag(t.os) + "_" + ArchTag(t.arch)
  }

  /** Line 302: the per-target build directory. */
  function BuildDir(contribsDir: string, t: Target): string {
    contribsDir + "/build/" + TargetKey(t) + "/"
  }

  /** Line 303: the per-target install (env) directory. */
  function EnvDir(contribsDir: string, t: Target): string {
    contribsDir + "/env/" + TargetKey(t) + "/"
  }

  /** The root of one Qt kit: `QT_DIRECTORY/QT_VERSION/<label>/`. */
  function QtKitDir(qtDirectory: string, qtVersion: string, kit: string): string {
    qtDirectory + "/" + qtVersion + "/" + kit + "/"
  }

  /** Lines 304 and 317-323: the kit's `qt-configure-module` script, with the
      `.bat` suffix on a Windows host. */
  function ConfigureModuleCommand(host: HostOs, s: Settings, t: Target): (cmd: string)
    ensures QtKitDir(s.qtDirectory, s.qtVersion, t.qtLabel) + "bin/" <= cmd
    ensures cmd[|QtKitDir(s.qtDirectory, s.qtVersion, t.qtLabel) + "bin/"|..] ==
            (if host == HostWindows then "qt-configure-module.bat" else "qt-configure-module")
  {
    var binDir := QtKitDir(s.qtDirectory, s.qtVersion, t.qtLabel) + "bin/";
    binDir + (if host == HostWindows then "qt-configure-module.bat" else "qt-configure-module")
  }

  /** Only whether the host is Windows matters to the script name: the
      command for a Windows host differs from every other host's (it ends in
      ".bat"), and all the others agree. */
  lemma ConfigureModuleByHost(h1: HostOs, h2: HostOs, s: Settings, t: Target)
    ensures ConfigureModuleCommand(h1, s, t) == ConfigureModuleCommand(h2, s, t) <==>
            (h1 == HostWindows <==> h2 == HostWindows)
    ensures h1 == HostWindows ==> "bat" == ConfigureModuleCommand(h1, s, t)[|ConfigureModuleCommand(h1, s, t)| - 3..]
  {
    var c1, c2 := ConfigureModuleCommand(h1, s, t), ConfigureModuleCommand(h2, s, t);
    if (h1 == HostWindows) != (h2 == HostWindows) {
      assert |c1| != |c2|;
    }
  }

  /** Lines 274-275: the QtMqtt source directory and its archive. */
  function QtMqttDir(qtVersion: string): string {
    "qtmqtt-" + qtVersion
  }

  function QtMqttArchive(qtVersion: string): (name: string)
    ensures name == QtMqttDir(qtVersion) + ".zip"
    ensures name[|"qtmqtt-"|..|name| - |".zip"|] == qtVersion
  {
    "qtmqtt-" + qtVersion + ".zip"
  }

  /** Lines 285-286: the patched QtConnectivity branch directory; the version
      appears with its dots removed. */
  const ConnectivityPrefix: string := "qtconnectivity-blescanfiltering_v1_"

  function QtConnectivityDir(qtVersion: string): (name: string)
    ensures '.' !in name
    ensures ConnectivityPrefix <= name && name[|ConnectivityPrefix|..] == TextUtil.RemoveChar(qtVersion, '.')
  {
    ConnectivityPrefix + TextUtil.RemoveChar(qtVersion, '.')
  }

  function QtConnectivityArchive(qtVersion: string): (name: string)
    ensures name == QtConnectivityDir(qtVersion) + ".zip"
  {
    ConnectivityPrefix + TextUtil.RemoveChar(qtVersion, '.') + ".zip"
  }

  // ---------------------------------------------------------------------------
  // QT_HOST_PATH

  /** The native desktop target of a host, whose Qt kit provides the host tools. */
  function NativeTarget(host: HostOs): Option<Target> {
    match host
    case HostLinux => Some(LinuxDesktop)
    case HostDarwin => Some(MacUnified)
    case _ => None
  }

  /** Lines 318-327: the value this iteration writes to `QT_HOST_PATH`, if
      any. It is written only for an Android or iOS target on a non-Windows
      host, and names the kit of the host's own desktop target. */
  function QtHostPathUpdate(host: HostOs, s: Settings, t: Target): (r: Option<string>)
    ensures r.Some? <==> (host == HostLinux || host == HostDarwin) && (t.os == Android || t.os == IOS)
    ensures r.Some? ==> NativeTarget(host).Some? &&
                        r.value == QtKitDir(s.qtDirectory, s.qtVersion, NativeTarget(host).value.qtLabel)
  {
    if host == HostWindows then None
    else if t.os == Android || t.os == IOS then
      if host == HostLinux then Some(s.qtDirectory + "/" + s.qtVersion + "/gcc_64/")
      else if host == HostDarwin then Some(s.qtDirectory + "/" + s.qtVersion + "/macOS/")
      else None
    else None
  }

  /** `QT_HOST_PATH` lives in the process environment, so a value written for
      one target stays set for every later target of the loop. */
  function QtHostPathAfter(host: HostOs, s: Settings, targets: seq<Target>, env: Option<string>): Option<string>
  {
    if targets == [] then env
    else
      var env' := match QtHostPathUpdate(host, s, targets[0]) case Some(v) => Some(v) case None => env;
      QtHostPathAfter(host, s, targets[1..], env')
  }

  predicate CrossTarget(t: Target) {
    t.os == Android || t.os == IOS
  }

  /** After the loop the variable holds the host kit path exactly when some
      target was a cross target on a Linux or macOS host; otherwise it is
      what it was before the loop. */
  lemma {:induction false} QtHostPathAfterLoop(host: HostOs, s: Settings, targets: seq<Target>, env: Option<string>)
    ensures (host == HostLinux || host == HostDarwin) && (exists i :: 0 <= i < |targets| && CrossTarget(targets[i])) ==>
              QtHostPathAfter(host, s, targets, env) ==
              Some(QtKitDir(s.qtDirectory, s.qtVersion, NativeTarget(host).value.qtLabel))
    ensures !((host == HostLinux || host == HostDarwin) && (exists i :: 0 <= i < |targets| && CrossTarget(targets[i]))) ==>
              QtHostPathAfter(host, s, targets, env) == env
  {
    if targets != [] {
      var env' := match QtHostPathUpdate(host, s, targets[0]) case Some(v) => Some(v) case None => env;
      QtHostPathAfterLoop(host, s, targets[1..], env');
      if exists i :: 0 <= i < |targets| && CrossTarget(targets[i]) {
        var i :| 0 <= i < |targets| && CrossTarget(targets[i]);
        if i > 0 {
          assert CrossTarget(targets[1..][i - 1]);
        }
      }
      if exists i :: 0 <= i < |targets[1..]| && CrossTarget(targets[1..][i]) {
        var i :| 0 <= i < |targets[1..]| && CrossTarget(targets[1..][i]);
        assert CrossTarget(targets[i + 1]);
      }
    }
  }

  // ---------------------------------------------------------------------------
  // CMake command selection

  /** The iOS toolchain platform tag for an architecture, if it has one. */
  function IosPlatform(arch: Arch): Option<string> {
    match arch
    case Unified => Some("OS64COMBINED")
    case Simulator => Some("SIMULATOR64")
    case Armv7 => Some("OS")
    case Armv8 => Some("OS64")
    case _ => None
  }

  function IosCommand(contribsDir: string, arch: Arch): seq<string> {
    match IosPlatform(arch)
    case Some(platform) =>
      ["cmake", "-DCMAKE_TOOLCHAIN_FILE=" + contribsDir + "/tools/ios.toolchain.cmake", "-DPLATFORM=" + platform]
    case None =>
      ["cmake", "-DCMAKE_SYSTEM_NAME=iOS", "-DCMAKE_OSX_DEPLOYMENT_TARGET=11.0"]
  }

  /** The macOS architecture list for an architecture, if it has one. */
  function OsxArchitectures(arch: Arch): Option<string> {
    match arch
    case Unified => Some("x86_64;arm64")
    case X86_64 => Some("x86_64")
    case Arm64 => Some("arm64")
    case _ => None
  }

  /** The Visual Studio `-A` platform for an architecture. */
  function WindowsPlatform(arch: Arch): string {
    match arch
    case Armv7 => "ARM"
    case Armv8 => "ARM64"
    case X86 => "Win32"
    case _ => "x64"
  }

  /** The Android NDK ABI for an architecture. */
  function AndroidAbi(arch: Arch): string {
    match arch
    case X86 => "x86"
    case X86_64 => "x86_64"
    case Armv7 => "armeabi-v7a"
    case _ => "arm64-v8a"
  }

  function AndroidCommand(ndkRoot: string, arch: Arch): seq<string> {
    ["cmake",
     "-DCMAKE_TOOLCHAIN_FILE=" + ndkRoot + "/build/cmake/android.toolchain.cmake",
     "-DANDROID_ABI=" + AndroidAbi(arch),
     "-DANDROID_PLATFORM=android-23"]
  }

  const Defaults := CMakeConfig(["cmake"], "Ninja", On, Off)

  /** Lines 342-365: the macOS-host adjustments. */
  function DarwinHostStep(c: CMakeConfig, contribsDir: string, t: Target): CMakeConfig {
    var c' :=
      if t.os == MacOS then
        match OsxArchitectures(t.arch)
        case Some(list) => c.(command := ["cmake", "-DCMAKE_OSX_ARCHITECTURE=" + list])
        case None => c
      else c;
    if t.os == IOS
    then c'.(generator := "Xcode", buildShared := Off, buildStatic := On, command := IosCommand(contribsDir, t.arch))
    else c'
  }

  /** Lines 329-386, in the script's order: defaults, then the Linux-host,
      macOS-host and Windows-host adjustments, then the Android command, which
      is assigned last and so overrides any host-based command. */
  function SelectCMake(host: HostOs, msvcGenerator: string, s: Settings, t: Target): (c: CMakeConfig)
    // only a macOS host building for iOS builds static libraries
    ensures c.buildStatic == On <==> host == HostDarwin && t.os == IOS
    ensures c.buildShared == On <==> c.buildStatic == Off
    // generator: the MSVC generator on Windows, Xcode for iOS on macOS, else Ninja
    ensures host == HostWindows ==> c.generator == msvcGenerator
    ensures host != HostWindows ==> c.generator == (if host == HostDarwin && t.os == IOS then "Xcode" else "Ninja")
    // the Android command wins on every host
    ensures t.os == Android ==> c.command == AndroidCommand(s.ndkRoot, t.arch)
    ensures host == HostWindows && t.os != Android ==> c.command == ["cmake", "-A", WindowsPlatform(t.arch)]
    ensures host == HostDarwin && t.os == IOS ==> c.command == IosCommand(s.contribsDir, t.arch)
    ensures |c.command| >= 1
  {
    var c0 := Defaults;
    var c1 :=
      if host == HostLinux && t.os == Windows
      then c0.(command := if t.arch == I686 then ["i686-w64-mingw32-cmake"] else ["x86_64-w64-mingw32-cmake"])
      else c0;
    var c2 := if host == HostDarwin then DarwinHostStep(c1, s.contribsDir, t) else c1;
    var c3 :=
      if host == HostWindows
      then c2.(generator := msvcGenerator, command := ["cmake", "-A", WindowsPlatform(t.arch)])
      else c2;
    if t.os == Android then c3.(command := AndroidCommand(s.ndkRoot, t.arch)) else c3
  }

  /** Reference reading of the CMake selection as one decision table, most
      specific rule first. */
  function CMakeTable(host: HostOs, msvcGenerator: string, s: Settings, t: Target): CMakeConfig {
    var iosOnMac := host == HostDarwin && t.os == IOS;
    var command :=
      if t.os == Android then AndroidCommand(s.ndkRoot, t.arch)
      else if host == HostWindows then ["cmake", "-A", WindowsPlatform(t.arch)]
      else if iosOnMac then IosCommand(s.contribsDir, t.arch)
      else if host == HostDarwin && t.os == MacOS && OsxArchitectures(t.arch).Some? then
        ["cmake", "-DCMAKE_OSX_ARCHITECTURE=" + OsxArchitectures(t.arch).value]
      else if host == HostLinux && t.os == Windows then
        [if t.arch == I686 then "i686-w64-mingw32-cmake" else "x86_64-w64-mingw32-cmake"]
      else ["cmake"];
    var generator := if host == HostWindows then msvcGenerator else if iosOnMac then "Xcode" else "Ninja";
    CMakeConfig(command, generator, if iosOnMac then Off else On, if iosOnMac then On else Off)
  }

  lemma SelectCMakeIsTable(host: HostOs, msvcGenerator: string, s: Settings, t: Target)
    ensures SelectCMake(host, msvcGenerator, s, t) == CMakeTable(host, msvcGenerator, s, t)
  {
  }

  /** Lines 298-386 for one target. */
  function PlanTarget(host: HostOs, msvcGenerator: string, s: Settings, t: Target): (p: TargetPlan)
    // the build tree and the install tree never coincide
    ensures p.buildDir != p.envDir
    // the host-tools override only ever comes with a cross target on a non-Windows host
    ensures p.qtHostPath.Some? ==> CrossTarget(t) && host != HostWindows
  {
    var b, e := BuildDir(s.contribsDir, t), EnvDir(s.contribsDir, t);
    assert b[|s.contribsDir| + 1] == 'b' && e[|s.contribsDir| + 1] == 'e';
    TargetPlan(
      BuildDir(s.contribsDir, t),
      EnvDir(s.contribsDir, t),
      ConfigureModuleCommand(host, s, t),
      QtHostPathUpdate(host, s, t),
      SelectCMake(host, msvcGenerator, s, t))
  }

  // ---------------------------------------------------------------------------
  // Properties

  /** Index of the first `c` in `w`, or `|w|` when there is none. */
  function FirstIndex(w: string, c: char): (k: nat)
    ensures k <= |w|
  {
    if w == [] || w[0] == c then 0 else 1 + FirstIndex(w[1..], c)
  }

  lemma {:induction false} FirstIndexAfter(x: string, y: string, sep: char)
    requires sep !in x
    ensures FirstIndex(x + [sep] + y, sep) == |x|
  {
    if x != [] {
      assert (x + [sep] + y)[1..] == x[1..] + [sep] + y;
      FirstIndexAfter(x[1..], y, sep);
    }
  }

  /** Splitting at the first occurrence of a separator that the left parts do
      not contain recovers both parts. */
  lemma SplitAtSeparator(x1: string, y1: string, x2: string, y2: string, sep: char)
    requires sep !in x1 && sep !in x2
    requires x1 + [sep] + y1 == x2 + [sep] + y2
    ensures x1 == x2 && y1 == y2
  {
    var w := x1 + [sep] + y1;
    FirstIndexAfter(x1, y1, sep);
    FirstIndexAfter(x2, y2, sep);
    assert x1 == w[..|x1|] && y1 == w[|x1| + 1..];
  }

  /** The `<os>_<arch>` key determines the OS and the architecture. */
  lemma TargetKeyInjective(t1: Target, t2: Target)
    ensures TargetKey(t1) == TargetKey(t2) <==> t1.os == t2.os && t1.arch == t2.arch
  {
    if TargetKey(t1) == TargetKey(t2) {
      assert TargetKey(t1) == OsTag(t1.os) + ['_'] + ArchTag(t1.arch);
      assert TargetKey(t2) == OsTag(t2.os) + ['_'] + ArchTag(t2.arch);
      SplitAtSeparator(OsTag(t1.os), ArchTag(t1.arch), OsTag(t2.os), ArchTag(t2.arch), '_');
    }
  }

  /** A path `prefix + key + "/"` determines the key. */
  lemma StripPrefixSuffix(prefix: string, k1: string, k2: string)
    requires prefix + k1 + "/" == prefix + k2 + "/"
    ensures k1 == k2
  {
    assert k1 == (prefix + k1 + "/")[|prefix|..|prefix| + |k1|];
    assert k2 == (prefix + k2 + "/")[|prefix|..|prefix| + |k2|];
  }

  /** Build and env directories are keyed by (OS, architecture): two targets
      share one exactly when they agree on both, so the two MSVC targets share
      a directory and no other pair does. */
  lemma BuildDirKeyedByOsArch(contribsDir: string, t1: Target, t2: Target)
    ensures BuildDir(contribsDir, t1) == BuildDir(contribsDir, t2) <==> t1.os == t2.os && t1.arch == t2.arch
    ensures EnvDir(contribsDir, t1) == EnvDir(contribsDir, t2) <==> t1.os == t2.os && t1.arch == t2.arch
  {
    TargetKeyInjective(t1, t2);
    if BuildDir(contribsDir, t1) == BuildDir(contribsDir, t2) {
      StripPrefixSuffix(contribsDir + "/build/", TargetKey(t1), TargetKey(t2));
    }
    if EnvDir(contribsDir, t1) == EnvDir(contribsDir, t2) {
      StripPrefixSuffix(contribsDir + "/env/", TargetKey(t1), TargetKey(t2));
    }
  }

  lemma DefaultVersionWithoutDots()
    ensures TextUtil.RemoveChar(DefaultVersion, '.') == "663"
  {
    var v := DefaultVersion;
    assert v[1..] == ".6.3" && v[2..] == "6.3" && v[3..] == ".3" && v[4..] == "3" && v[5..] == "";
  }

  /** With the default Qt version the patched QtConnectivity archive is
      `qtconnectivity-blescanfiltering_v1_663.zip`. */
  lemma DefaultConnectivityArchive()
    ensures QtConnectivityArchive(DefaultVersion) == "qtconnectivity-blescanfiltering_v1_663.zip"
    ensures QtMqttArchive(DefaultVersion) == "qtmqtt-6.6.3.zip"
  {
    DefaultVersionWithoutDots();
  }

  /** The plan for the Linux desktop target on a Linux host, whatever the
      generator: plain `cmake`, Ninja, shared libraries, no `QT_HOST_PATH`,
      and the `build/linux_x86_64/` directory. */
  lemma LinuxDesktopPlan(g: string, s: Settings)
    ensures PlanTarget(HostLinux, g, s, LinuxDesktop).cmake == Defaults
    ensures PlanTarget(HostLinux, g, s, LinuxDesktop).qtHostPath == None
    ensures PlanTarget(HostLinux, g, s, LinuxDesktop).buildDir == s.contribsDir + "/build/linux_x86_64/"
  {
    var p := PlanTarget(HostLinux, g, s, LinuxDesktop);
    assert p.cmake == SelectCMake(HostLinux, g, s, LinuxDesktop);
    assert p.qtHostPath == QtHostPathUpdate(HostLinux, s, LinuxDesktop);
    LinuxDesktopBuildDir(s.contribsDir);
  }

  lemma LinuxDesktopBuildDir(contribsDir: string)
    ensures BuildDir(contribsDir, LinuxDesktop) == contribsDir + "/build/linux_x86_64/"
  {
    assert TargetKey(LinuxDesktop) == "linux_x86_64";
  }

  /** The Windows target on a Linux host: `msvc2019` or `msvc2022` given
      there is cross-built with the x86_64 MinGW CMake wrapper and Ninja,
      whatever the generator the name set. */
  lemma WindowsTargetOnLinux(g: string, s: Settings)
    ensures SelectCMake(HostLinux, g, s, WindowsMsvc) == CMakeConfig(["x86_64-w64-mingw32-cmake"], "Ninja", On, Off)
  {
  }

  /** `--targets linux` on a Linux host: one target, built with plain `cmake`,
      Ninja, shared libraries, and no `QT_HOST_PATH`. */
  lemma LinuxScenario(host: HostFacts, s: Settings)
    requires host.os == HostLinux && s.ndkRoot == host.ndkRoot
    ensures Resolve(["linux"], host).targets == [LinuxDesktop]
    ensures PlanTarget(HostLinux, Resolve(["linux"], host).msvcGenerator, s, LinuxDesktop).cmake == Defaults
    ensures PlanTarget(HostLinux, Resolve(["linux"], host).msvcGenerator, s, LinuxDesktop).qtHostPath == None
    ensures PlanTarget(HostLinux, Resolve(["linux"], host).msvcGenerator, s, LinuxDesktop).buildDir ==
            s.contribsDir + "/build/linux_x86_64/"
  {
    LinuxExample(host);
    LinuxDesktopPlan(Resolve(["linux"], host).msvcGenerator, s);
  }

  /** `--targets ios_armv8` on a macOS host: Xcode, the `OS64` platform tag,
      static libraries only, and `QT_HOST_PATH` at the macOS kit. */
  lemma IosArmv8Scenario(host: HostFacts, s: Settings)
    requires host.os == HostDarwin && s.ndkRoot == host.ndkRoot
    ensures Resolve(["ios_armv8"], host).targets == [IosArmv8]
    ensures var c := SelectCMake(HostDarwin, Resolve(["ios_armv8"], host).msvcGenerator, s, IosArmv8);
            c.generator == "Xcode" && c.buildShared == Off && c.buildStatic == On &&
            c.command == ["cmake", "-DCMAKE_TOOLCHAIN_FILE=" + s.contribsDir + "/tools/ios.toolchain.cmake", "-DPLATFORM=OS64"]
    ensures QtHostPathUpdate(HostDarwin, s, IosArmv8) == Some(s.qtDirectory + "/" + s.qtVersion + "/macOS/")
  {
    IosArmv8Example(host);
    assert "-DPLATFORM=" + "OS64" == "-DPLATFORM=OS64";
  }
}
