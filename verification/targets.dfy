/** Build-target resolution of the contribs builder script
    (contribs/contribs_builder.py, the TARGETS section). A target is an
    (operating system, architecture, Qt label) triple. Explicitly requested
    names are looked up in a fixed catalogue, walked in catalogue order; when
    that yields nothing, targets are chosen from the host facts. */
module Targets {
  import opened Wrappers
  import TextUtil

  /** `platform.system()` of the machine running the script. */
  datatype HostOs = HostLinux | HostDarwin | HostWindows | HostOther

  /** The OS tag of a target (`"linux"`, `"macOS"`, `"windows"`, `"android"`, `"iOS"`). */
  datatype TargetOs = Linux | MacOS | Windows | Android | IOS

  /** The architecture tag of a target. `I686` is only ever tested by the CMake
      selection; no catalogue entry produces it. */
  datatype Arch = X86_64 | Unified | Arm64 | Armv8 | Armv7 | X86 | Simulator | I686

  datatype Target = Target(os: TargetOs, arch: Arch, qtLabel: string)

  /** One line of the explicit-target `if` chain: the name tested, the triple
      appended, and the MSVC generator the line assigns, if any. */
  datatype CatalogueEntry = CatalogueEntry(name: string, target: Target, generator: Option<string>)

  /** What the TARGETS section leaves behind: the target list and `MSVC_GEN_VER`. */
  datatype Selection = Selection(targets: seq<Target>, msvcGenerator: string)

  /** The host facts the section reads: `platform.system()`, the
      `VisualStudioVersion` environment variable and `ANDROID_NDK_ROOT`. */
  datatype HostFacts = HostFacts(os: HostOs, visualStudioVersion: string, ndkRoot: string)

  const Vs2019: string := "Visual Studio 16 2019"
  const Vs2022: string := "Visual Studio 17 2022"

  const LinuxDesktop := Target(Linux, X86_64, "gcc_64")
  const MacUnified := Target(MacOS, Unified, "macOS")
  const MacX86_64 := Target(MacOS, X86_64, "macOS")
  const MacArm64 := Target(MacOS, Arm64, "macOS")
  const WindowsMsvc := Target(Windows, X86_64, "msvc2019_64")
  const AndroidArmv8 := Target(Android, Armv8, "android_arm64_v8a")
  const AndroidArmv7 := Target(Android, Armv7, "android_armv7")
  const AndroidX86_64 := Target(Android, X86_64, "android_x86_64")
  const AndroidX86 := Target(Android, X86, "android_x86")
  const IosUnified := Target(IOS, Unified, "iOS")
  const IosSimulator := Target(IOS, Simulator, "iOS")
  const IosArmv7 := Target(IOS, Armv7, "iOS")
  const IosArmv8 := Target(IOS, Armv8, "iOS")

  /** The desktop lines of the chain; the two MSVC lines are the only ones that
      set a generator, and they append the same triple. */
  const DesktopEntries: seq<CatalogueEntry> := [
    CatalogueEntry("linux", LinuxDesktop, None),
    CatalogueEntry("macos", MacUnified, None),
    CatalogueEntry("macos_x86_64", MacX86_64, None),
    CatalogueEntry("macos_arm64", MacArm64, None),
    CatalogueEntry("msvc2019", WindowsMsvc, Some(Vs2019)),
    CatalogueEntry("msvc2022", WindowsMsvc, Some(Vs2022))
  ]

  const MobileEntries: seq<CatalogueEntry> := [
    CatalogueEntry("android_armv8", AndroidArmv8, None),
    CatalogueEntry("android_armv7", AndroidArmv7, None),
    CatalogueEntry("android_x86_64", AndroidX86_64, None),
    CatalogueEntry("android_x86", AndroidX86, None),
    CatalogueEntry("ios", IosUnified, None),
    CatalogueEntry("ios_simulator", IosSimulator, None),
    CatalogueEntry("ios_armv7", IosArmv7, None),
    CatalogueEntry("ios_armv8", IosArmv8, None)
  ]

  const Catalogue: seq<CatalogueEntry> := DesktopEntries + MobileEntries

  /** The four Android targets the auto-selection appends when an NDK root is set. */
  const AndroidTargets: seq<Target> := [AndroidArmv8, AndroidArmv7, AndroidX86_64, AndroidX86]

  /** The script's walk down the `if` chain: each line whose name is among the
      selected names appends its triple, and a line with a generator
      overwrites `MSVC_GEN_VER`. */
  function Walk(entries: seq<CatalogueEntry>, selected: seq<string>, acc: Selection): (r: Selection)
    // the walk only appends: what was there stays, and each line adds at most one triple
    ensures |acc.targets| <= |r.targets| <= |acc.targets| + |entries|
    ensures r.targets[..|acc.targets|] == acc.targets
  {
    if entries == [] then acc
    else
      Walk(entries[1..], selected, Step(entries[0], selected, acc))
  }

  /** Reference reading of the target list: the catalogue filtered by the
      selected names and projected on the triples, in catalogue order. */
  function Chosen(entries: seq<CatalogueEntry>, selected: seq<string>): seq<Target>
  {
    if entries == [] then []
    else (if entries[0].name in selected then [entries[0].target] else []) + Chosen(entries[1..], selected)
  }

  /** Reference reading of the generator: the generator of the last selected
      line that carries one, else the value before the walk. */
  function LastWriter(entries: seq<CatalogueEntry>, selected: seq<string>, default: string): string
  {
    if entries == [] then default
    else
      var e := entries[|entries| - 1];
      if e.name in selected && e.generator.Some? then e.generator.value
      else LastWriter(entries[..|entries| - 1], selected, default)
  }

  /** Lines 189-210: the explicit names, if any were given. */
  function ExplicitSelection(selected: seq<string>): Selection
  {
    if |selected| > 0 then Walk(Catalogue, selected, Selection([], "")) else Selection([], "")
  }

  /** Lines 213-236: targets derived from the host facts, keeping the generator
      chosen so far unless the host is Windows. */
  function AutoSelection(host: HostFacts, generator: string): (r: Selection)
    // an NDK root appends exactly the four Android targets, at the end
    ensures host.ndkRoot != "" ==> |r.targets| >= 4 && r.targets[|r.targets| - 4..] == AndroidTargets
    ensures host.ndkRoot == "" ==> forall i :: 0 <= i < |r.targets| ==> r.targets[i].os != Android
    // only a Windows host sets the generator, and then to one of the two MSVC generators
    ensures host.os != HostWindows ==> r.msvcGenerator == generator
    ensures host.os == HostWindows ==> r.msvcGenerator == Vs2019 || r.msvcGenerator == Vs2022
  {
    var hostTargets :=
      match host.os
      case HostLinux => [LinuxDesktop]
      case HostDarwin => [MacUnified, IosUnified]
      case HostWindows => [WindowsMsvc]
      case HostOther => [];
    var generator' :=
      if host.os == HostWindows
      then (if TextUtil.Contains(host.visualStudioVersion, "17.0") then Vs2022 else Vs2019)
      else generator;
    var android := if host.ndkRoot != "" then AndroidTargets else [];
    Selection(hostTargets + android, generator')
  }

  /** The whole TARGETS section: auto-selection runs exactly when the explicit
      pass left the target list empty. */
  function Resolve(selected: seq<string>, host: HostFacts): (r: Selection)
    // a non-empty explicit pass is kept as it is
    ensures |ExplicitSelection(selected).targets| > 0 ==> r == ExplicitSelection(selected)
    // the list ends up empty only on an unknown host without an NDK root
    ensures |r.targets| == 0 <==>
            |ExplicitSelection(selected).targets| == 0 && host.os == HostOther && host.ndkRoot == ""
  {
    var explicit := ExplicitSelection(selected);
    if |explicit.targets| == 0 then AutoSelection(host, explicit.msvcGenerator) else explicit
  }

  /** Some name of the catalogue is among the selected names. */
  predicate Recognises(selected: seq<string>) {
    exists i :: 0 <= i < |Catalogue| && Catalogue[i].name in selected
  }

  // ---------------------------------------------------------------------------
  // The walk against its reference readings

  lemma {:induction false} ChosenAppend(a: seq<CatalogueEntry>, b: seq<CatalogueEntry>, selected: seq<string>)
    ensures Chosen(a + b, selected) == Chosen(a, selected) + Chosen(b, selected)
  {
    if a == [] {
      assert a + b == b;
    } else {
      var ab := a + b;
      assert ab[0] == a[0];
      assert ab[1..] == a[1..] + b;
      ChosenAppend(a[1..], b, selected);
      var x := if a[0].name in selected then [a[0].target] else [];
      assert Chosen(ab, selected) == x + Chosen(a[1..] + b, selected);
      assert Chosen(a, selected) == x + Chosen(a[1..], selected);
    }
  }

  /** A triple is chosen exactly when some selected line of the chain appends it. */
  lemma {:induction false} ChosenMembers(entries: seq<CatalogueEntry>, selected: seq<string>, t: Target)
    ensures t in Chosen(entries, selected) <==>
            exists i :: 0 <= i < |entries| && entries[i].name in selected && entries[i].target == t
  {
    if entries != [] {
      ChosenMembers(entries[1..], selected, t);
      if t in Chosen(entries[1..], selected) {
        var i :| 0 <= i < |entries[1..]| && entries[1..][i].name in selected && entries[1..][i].target == t;
        assert entries[i + 1] == entries[1..][i];
      }
      if exists i :: 0 <= i < |entries| && entries[i].name in selected && entries[i].target == t {
        var i :| 0 <= i < |entries| && entries[i].name in selected && entries[i].target == t;
        if i > 0 {
          assert entries[1..][i - 1] == entries[i];
        }
      }
    }
  }

  /** Only which catalogue names are selected matters: not the user's order,
      not repetitions, not unrecognised names. */
  lemma {:induction false} ChosenIgnoresOrder(entries: seq<CatalogueEntry>, s1: seq<string>, s2: seq<string>)
    requires forall i :: 0 <= i < |entries| ==> (entries[i].name in s1 <==> entries[i].name in s2)
    ensures Chosen(entries, s1) == Chosen(entries, s2)
    ensures forall d :: LastWriter(entries, s1, d) == LastWriter(entries, s2, d)
  {
    if entries != [] {
      assert entries[0].name in s1 <==> entries[0].name in s2;
      ChosenIgnoresOrder(entries[1..], s1, s2);
      ChosenIgnoresOrder(entries[..|entries| - 1], s1, s2);
    }
  }

  lemma {:induction false} ChosenNone(entries: seq<CatalogueEntry>, selected: seq<string>)
    requires forall i :: 0 <= i < |entries| ==> entries[i].name !in selected
    ensures Chosen(entries, selected) == []
  {
    if entries != [] {
      ChosenNone(entries[1..], selected);
    }
  }

  /** Last writer wins: the generator after `a + b` is the generator after `b`
      started from the one after `a`. */
  lemma {:induction false} LastWriterAppend(a: seq<CatalogueEntry>, b: seq<CatalogueEntry>, selected: seq<string>, d: string)
    ensures LastWriter(a + b, selected, d) == LastWriter(b, selected, LastWriter(a, selected, d))
    decreases |b|
  {
    if b == [] {
      assert a + b == a;
    } else {
      var b' := b[..|b| - 1];
      assert (a + b)[..|a + b| - 1] == a + b';
      LastWriterAppend(a, b', selected, d);
    }
  }

  /** Lines that set no generator leave it alone. */
  lemma {:induction false} LastWriterPlain(entries: seq<CatalogueEntry>, selected: seq<string>, d: string)
    requires forall i :: 0 <= i < |entries| ==> entries[i].generator == None
    ensures LastWriter(entries, selected, d) == d
    decreases |entries|
  {
    if entries != [] {
      LastWriterPlain(entries[..|entries| - 1], selected, d);
    }
  }

  /** One step of the walk. */
  function Step(e: CatalogueEntry, selected: seq<string>, acc: Selection): Selection {
    if e.name in selected
    then Selection(acc.targets + [e.target], e.generator.GetOr(acc.msvcGenerator))
    else acc
  }

  /** The script's walk appends exactly the reference selection ... */
  lemma {:induction false} WalkTargets(entries: seq<CatalogueEntry>, selected: seq<string>, acc: Selection)
    ensures Walk(entries, selected, acc).targets == acc.targets + Chosen(entries, selected)
  {
    if entries == [] {
      assert acc.targets + [] == acc.targets;
    } else {
      var e := entries[0];
      var acc' := Step(e, selected, acc);
      assert Walk(entries, selected, acc) == Walk(entries[1..], selected, acc');
      WalkTargets(entries[1..], selected, acc');
      var x := if e.name in selected then [e.target] else [];
      assert acc'.targets == acc.targets + x;
      assert Chosen(entries, selected) == x + Chosen(entries[1..], selected);
      assert (acc.targets + x) + Chosen(entries[1..], selected) == acc.targets + (x + Chosen(entries[1..], selected));
    }
  }

  /** ... and leaves the last writer's generator. */
  lemma {:induction false} WalkGenerator(entries: seq<CatalogueEntry>, selected: seq<string>, acc: Selection)
    ensures Walk(entries, selected, acc).msvcGenerator == LastWriter(entries, selected, acc.msvcGenerator)
  {
    if entries != [] {
      var e := entries[0];
      var acc' := Step(e, selected, acc);
      assert Walk(entries, selected, acc) == Walk(entries[1..], selected, acc');
      WalkGenerator(entries[1..], selected, acc');
      assert [e] + entries[1..] == entries;
      LastWriterAppend([e], entries[1..], selected, acc.msvcGenerator);
      assert [e][..0] == [];
      assert LastWriter([e], selected, acc.msvcGenerator) == acc'.msvcGenerator;
    }
  }

  lemma WalkMatchesReference(entries: seq<CatalogueEntry>, selected: seq<string>, acc: Selection)
    ensures Walk(entries, selected, acc) == Selection(acc.targets + Chosen(entries, selected), LastWriter(entries, selected, acc.msvcGenerator))
  {
    WalkTargets(entries, selected, acc);
    WalkGenerator(entries, selected, acc);
  }

  // ---------------------------------------------------------------------------
  // Properties of the TARGETS section

  /** The two MSVC lines on their own: the later one wins when both are selected. */
  lemma MsvcLines(selected: seq<string>, d: string)
    ensures LastWriter(DesktopEntries[4..], selected, d) ==
            if "msvc2022" in selected then Vs2022
            else if "msvc2019" in selected then Vs2019
            else d
    ensures Chosen(DesktopEntries[4..], selected) ==
            (if "msvc2019" in selected then [WindowsMsvc] else []) +
            (if "msvc2022" in selected then [WindowsMsvc] else [])
  {
    var m := DesktopEntries[4..];
    assert m == [CatalogueEntry("msvc2019", WindowsMsvc, Some(Vs2019)),
                 CatalogueEntry("msvc2022", WindowsMsvc, Some(Vs2022))];
    var first := m[..1];
    assert first == [m[0]] && first[..0] == [];
    assert LastWriter(first, selected, d) == if "msvc2019" in selected then Vs2019 else d;
    assert LastWriter(m, selected, d) ==
           if "msvc2022" in selected then Vs2022 else LastWriter(first, selected, d);
    assert m[1..] == [m[1]] && m[1..][1..] == [];
    assert Chosen(m[1..], selected) == if "msvc2022" in selected then [WindowsMsvc] else [];
  }

  /** The generator after the whole catalogue is the one after the two MSVC lines. */
  lemma CatalogueGenerator(selected: seq<string>, d: string)
    ensures LastWriter(Catalogue, selected, d) == LastWriter(DesktopEntries[4..], selected, d)
  {
    LastWriterAppend(DesktopEntries, MobileEntries, selected, d);
    LastWriterPlain(MobileEntries, selected, LastWriter(DesktopEntries, selected, d));
    LastWriterAppend(DesktopEntries[..4], DesktopEntries[4..], selected, d);
    assert DesktopEntries[..4] + DesktopEntries[4..] == DesktopEntries;
    LastWriterPlain(DesktopEntries[..4], selected, d);
  }

  /** With a recognised explicit name the result is the catalogue-order
      selection and the last-writer generator, whatever the host. */
  lemma ResolveExplicit(selected: seq<string>, host: HostFacts)
    requires Recognises(selected)
    ensures Resolve(selected, host) == Selection(Chosen(Catalogue, selected), LastWriter(Catalogue, selected, ""))
    ensures |Resolve(selected, host).targets| > 0
  {
    var i :| 0 <= i < |Catalogue| && Catalogue[i].name in selected;
    WalkMatchesReference(Catalogue, selected, Selection([], ""));
    ChosenMembers(Catalogue, selected, Catalogue[i].target);
  }

  /** Without a recognised explicit name the result is exactly the
      auto-selection, as if no names had been given: never an empty list
      merely because the names were unknown. */
  lemma ResolveFallsThrough(selected: seq<string>, host: HostFacts)
    requires !Recognises(selected)
    ensures Resolve(selected, host) == AutoSelection(host, "")
    ensures Resolve(selected, host) == Resolve([], host)
  {
    if |selected| > 0 {
      WalkMatchesReference(Catalogue, selected, Selection([], ""));
      ChosenNone(Catalogue, selected);
      CatalogueGenerator(selected, "");
      MsvcLines(selected, "");
      assert Catalogue[4].name !in selected && Catalogue[5].name !in selected;
    }
  }

  /** The explicit pass's generator: `msvc2022` wins over `msvc2019`, and
      neither leaves it empty. */
  lemma ExplicitGenerator(selected: seq<string>, host: HostFacts)
    requires Recognises(selected)
    ensures Resolve(selected, host).msvcGenerator ==
            if "msvc2022" in selected then Vs2022
            else if "msvc2019" in selected then Vs2019
            else ""
  {
    ResolveExplicit(selected, host);
    CatalogueGenerator(selected, "");
    MsvcLines(selected, "");
  }

  /** A triple no line appends is never chosen. */
  lemma {:induction false} ChosenWithout(entries: seq<CatalogueEntry>, selected: seq<string>, t: Target)
    requires forall i :: 0 <= i < |entries| ==> entries[i].target != t
    ensures multiset(Chosen(entries, selected))[t] == 0
  {
    if entries != [] {
      ChosenWithout(entries[1..], selected, t);
      var x := if entries[0].name in selected then [entries[0].target] else [];
      assert multiset(x + Chosen(entries[1..], selected)) == multiset(x) + multiset(Chosen(entries[1..], selected));
    }
  }

  /** The catalogue split around its two MSVC lines. */
  lemma CatalogueAroundMsvc(selected: seq<string>)
    ensures Chosen(Catalogue, selected) ==
            Chosen(DesktopEntries[..4], selected) + Chosen(DesktopEntries[4..], selected) + Chosen(MobileEntries, selected)
  {
    var head, msvc := DesktopEntries[..4], DesktopEntries[4..];
    assert head + msvc == DesktopEntries;
    ChosenAppend(head, msvc, selected);
    ChosenAppend(DesktopEntries, MobileEntries, selected);
  }

  /** Selecting both MSVC names appends the identical Windows triple twice and
      leaves the 2022 generator in place. */
  lemma BothMsvcDuplicate(selected: seq<string>, host: HostFacts)
    requires "msvc2019" in selected && "msvc2022" in selected
    ensures multiset(Resolve(selected, host).targets)[WindowsMsvc] == 2
    ensures Resolve(selected, host).msvcGenerator == Vs2022
  {
    assert Catalogue[4].name in selected;
    ResolveExplicit(selected, host);
    ExplicitGenerator(selected, host);
    CatalogueAroundMsvc(selected);
    MsvcLines(selected, "");
    var head := DesktopEntries[..4];
    assert forall i :: 0 <= i < |head| ==> head[i].target != WindowsMsvc;
    assert forall i :: 0 <= i < |MobileEntries| ==> MobileEntries[i].target != WindowsMsvc;
    ChosenWithout(head, selected, WindowsMsvc);
    ChosenWithout(MobileEntries, selected, WindowsMsvc);
    var c1, c2, c3 := Chosen(head, selected), Chosen(DesktopEntries[4..], selected), Chosen(MobileEntries, selected);
    assert multiset(c1 + c2 + c3) == multiset(c1) + multiset(c2) + multiset(c3);
  }

  /** Auto-selection without an NDK root, host by host. */
  lemma AutoSelectionByHost(selected: seq<string>, host: HostFacts)
    requires !Recognises(selected) && host.ndkRoot == ""
    ensures host.os == HostLinux ==> Resolve(selected, host).targets == [LinuxDesktop]
    ensures host.os == HostDarwin ==> Resolve(selected, host).targets == [MacUnified, IosUnified]
    ensures host.os == HostWindows ==> Resolve(selected, host).targets == [WindowsMsvc]
    ensures host.os == HostOther ==> Resolve(selected, host).targets == []
    ensures host.os == HostWindows ==>
              (Resolve(selected, host).msvcGenerator == Vs2022 <==> TextUtil.Contains(host.visualStudioVersion, "17.0"))
    ensures host.os == HostWindows ==>
              (Resolve(selected, host).msvcGenerator == Vs2019 <==> !TextUtil.Contains(host.visualStudioVersion, "17.0"))
  {
    ResolveFallsThrough(selected, host);
  }

  /** A non-empty NDK root during auto-selection appends exactly the four
      Android targets, in order, after the host's own targets. */
  lemma AutoSelectionAppendsAndroid(selected: seq<string>, host: HostFacts)
    requires !Recognises(selected) && host.ndkRoot != ""
    ensures Resolve(selected, host).targets == Resolve(selected, host.(ndkRoot := "")).targets + AndroidTargets
    ensures Resolve(selected, host).msvcGenerator == Resolve(selected, host.(ndkRoot := "")).msvcGenerator
  {
    ResolveFallsThrough(selected, host);
    ResolveFallsThrough(selected, host.(ndkRoot := ""));
  }

  /** With a recognised explicit name the host facts play no part: in
      particular an NDK root appends no Android target, and an Android target
      appears only if an Android name was selected. */
  lemma ExplicitIgnoresHost(selected: seq<string>, h1: HostFacts, h2: HostFacts)
    requires Recognises(selected)
    ensures Resolve(selected, h1) == Resolve(selected, h2)
    ensures (forall t :: t in Resolve(selected, h1).targets && t.os == Android ==>
               exists i :: 0 <= i < |Catalogue| && Catalogue[i].name in selected && Catalogue[i].target == t)
  {
    ResolveExplicit(selected, h1);
    ResolveExplicit(selected, h2);
    forall t | t in Resolve(selected, h1).targets && t.os == Android
      ensures exists i :: 0 <= i < |Catalogue| && Catalogue[i].name in selected && Catalogue[i].target == t
    {
      ChosenMembers(Catalogue, selected, t);
    }
  }

  /** The selection is never empty on one of the three supported hosts. */
  lemma NeverEmptyOnKnownHost(selected: seq<string>, host: HostFacts)
    requires host.os != HostOther
    ensures |Resolve(selected, host).targets| > 0
  {
    if Recognises(selected) {
      ResolveExplicit(selected, host);
    } else {
      ResolveFallsThrough(selected, host);
    }
  }

  /** No line of the catalogue appends an `i686` target. */
  lemma CatalogueArch(i: nat)
    requires i < |Catalogue|
    ensures Catalogue[i].target.arch != I686
  {
    if i < |DesktopEntries| {
      assert Catalogue[i] == DesktopEntries[i];
    } else {
      assert Catalogue[i] == MobileEntries[i - |DesktopEntries|];
    }
  }

  /** The auto-selection never yields an `i686` target. */
  lemma AutoSelectionArch(host: HostFacts, generator: string)
    ensures forall t :: t in AutoSelection(host, generator).targets ==> t.arch != I686
  {
    var hostTargets :=
      match host.os
      case HostLinux => [LinuxDesktop]
      case HostDarwin => [MacUnified, IosUnified]
      case HostWindows => [WindowsMsvc]
      case HostOther => [];
    var android := if host.ndkRoot != "" then AndroidTargets else [];
    assert AutoSelection(host, generator).targets == hostTargets + android;
    forall t: Target | t in hostTargets + android ensures t.arch != I686 {
      if t !in hostTargets {
        assert t in android;
      }
    }
  }

  /** No resolution yields an `i686` target: the catalogue has none, and
      neither has the auto-selection. */
  lemma NoI686Target(selected: seq<string>, host: HostFacts)
    ensures forall t :: t in Resolve(selected, host).targets ==> t.arch != I686
  {
    if Recognises(selected) {
      var ts := Chosen(Catalogue, selected);
      ResolveExplicit(selected, host);
      forall t | t in ts ensures t.arch != I686 {
        ChosenMembers(Catalogue, selected, t);
        var i :| 0 <= i < |Catalogue| && Catalogue[i].name in selected && Catalogue[i].target == t;
        CatalogueArch(i);
      }
    } else {
      ResolveFallsThrough(selected, host);
      AutoSelectionArch(host, "");
    }
  }

  /** `linux` alone selects the Linux desktop triple. */
  lemma LinuxExample(host: HostFacts)
    ensures Resolve(["linux"], host).targets == [LinuxDesktop]
  {
    var sel := ["linux"];
    assert Catalogue[0].name in sel;
    ResolveExplicit(sel, host);
    var rest := Catalogue[1..];
    assert Catalogue == [Catalogue[0]] + rest;
    ChosenAppend([Catalogue[0]], rest, sel);
    forall i | 0 <= i < |rest| ensures rest[i].name !in sel {
      assert rest[i].name != "linux";
    }
    ChosenNone(rest, sel);
  }

  /** `ios_armv8` alone selects the iOS armv8 triple. */
  lemma IosArmv8Example(host: HostFacts)
    ensures Resolve(["ios_armv8"], host).targets == [IosArmv8]
  {
    var sel := ["ios_armv8"];
    assert Catalogue[13].name in sel;
    ResolveExplicit(sel, host);
    var front := Catalogue[..13];
    assert Catalogue == front + [Catalogue[13]];
    ChosenAppend(front, [Catalogue[13]], sel);
    forall i | 0 <= i < |front| ensures front[i].name !in sel {
      assert front[i].name != "ios_armv8";
    }
    ChosenNone(front, sel);
  }
}
