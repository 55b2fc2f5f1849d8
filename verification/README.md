# Contribs builder targets and BLE advertisement handling, in Dafny

This project models two small cores of the application's repository and
proves properties of them.

**The contribs builder script** (`contribs/contribs_builder.py`) fetches and
builds third-party Qt modules for a matrix of build targets. The model covers:

- how the TARGETS list and the MSVC generator (`MSVC_GEN_VER`) are resolved:
  - from the `--targets` names, walked down the fixed `if` chain;
  - otherwise from the host facts: `platform.system()`, `VisualStudioVersion`
    and `ANDROID_NDK_ROOT`;
- what the build loop prepares for each target:
  - the build and env directories;
  - the `qt-configure-module` command;
  - the `QT_HOST_PATH` environment override, which persists from one
    iteration to the next;
  - the CMake command, generator and shared/static switches;
- the QtMqtt and patched QtConnectivity archive names.

**`DeviceManager::updateBleDevice`** (`src/DeviceManager_advertisement.cpp`)
handles one received Bluetooth LE advertisement:

- it skips beacons;
- it finds the first known device whose address matches: the device UUID on
  Apple builds, the MAC address elsewhere; that device takes the
  advertisement's name and signal strength;
- it builds the decoder input documents, with the byte-swapped manufacturer
  identifier and the service UUID as four hex digits;
- after each successful decode it removes the raw fields and publishes the
  rest over MQTT;
- while listening, it returns early for a disabled, unconnected or
  "ThermoBeacon" device, and otherwise may queue the device for a refresh;
- on a non-Apple build, when it did not return early and no decode of the
  known device succeeded, it runs the same steps again for an unknown device,
  under the advertisement's own address;
- unless it returned early, while scanning it hands the advertisement on to
  the device scanner.

The model is organised by module:

| module | contents |
|---|---|
| `Wrappers` | `Option` |
| `TextUtil` | replacing and removing one character; Python's substring `in` |
| `Hex` | `QByteArray::number(n, 16)`, `rightJustified` and `toHex`, each with a parser for its round trip; `endian_flip_16`, which undoes itself |
| `Targets` | the TARGETS section |
| `Toolchain` | names, `QT_HOST_PATH` and CMake selection in the build loop |
| `Json` | the ArduinoJson object as an ordered list of members |
| `Devices` | the known-device record, the address lookup and the refresh rule |
| `Advertisement` | the handler itself |

Where a second reading exists, lemmas connect the operation with it:
reference definitions for the target walk (`Targets.Chosen`,
`Targets.LastWriter`) and the CMake selection (`Toolchain.CMakeTable`),
parsers for the hex encodings, and injectivity for the decoder inputs and
topics. The handler itself is stated rule by rule: which path runs, what is
published, what the queue and the status become.

The model follows the code as written; in particular:

- Explicit names that match no catalogue line do not produce an empty list.
  The explicit pass leaves TARGETS empty, so auto-selection runs, exactly as
  if no names had been given (`Targets.ResolveFallsThrough`).
- Explicit names are not deduplicated. Selecting both `msvc2019` and
  `msvc2022` appends the identical Windows triple twice, and the 2022
  generator wins (`Targets.BothMsvcDuplicate`).
- There is no error for an unexpected host/target/architecture combination.
  The CMake defaults (or the last matching `else` branch) apply.
- The Linux-to-Windows MinGW target is commented out of the auto-selection.
  Given explicitly on a Linux host, `msvc2019` or `msvc2022` still selects the
  Windows triple, which is then built with `x86_64-w64-mingw32-cmake` and
  Ninja (`Toolchain.WindowsTargetOnLinux`). Only the `i686-w64-mingw32-cmake`
  branch is unreachable: no resolution yields an `i686` target
  (`Targets.NoI686Target`).
- On a Windows host the generator is the MSVC generator for every target,
  Android included. The Android branch replaces only the command.
- `QT_HOST_PATH` is an environment variable. Once written for an Android or
  iOS target, it stays set for every later target of the loop
  (`Toolchain.QtHostPathAfterLoop`).

## Model

| member | source | states |
|---|---|---|
| Targets.Walk | contribs/contribs_builder.py:189-210 | the walk only appends: the targets already there stay as a prefix, and each line of the chain adds at most one triple |
| Targets.AutoSelection | contribs/contribs_builder.py:213-236 | a non-empty NDK root puts exactly the four Android targets at the end, and without one no Android target appears; only a Windows host changes the generator, and then to one of the two MSVC generators |
| Targets.Resolve | contribs/contribs_builder.py:186-236 | a non-empty explicit pass is kept as it is; the list ends up empty exactly when the explicit pass gave nothing, the host is not Linux, macOS or Windows, and there is no NDK root |
| Targets.WalkTargets | contribs/contribs_builder.py:189-210 | walking the `if` chain appends exactly the triples of the catalogue lines whose name was given, in catalogue order, after what was already there |
| Targets.WalkGenerator | contribs/contribs_builder.py:196-201 | after the walk `MSVC_GEN_VER` is the generator of the last selected line that sets one, else its value before the walk |
| Targets.WalkMatchesReference | contribs/contribs_builder.py:189-210 | the whole selection left by the walk equals the reference pair (filtered catalogue, last writer) |
| Targets.ChosenMembers | contribs/contribs_builder.py:192-210 | a triple is selected if and only if some line whose name was given appends it |
| Targets.ChosenIgnoresOrder | contribs/contribs_builder.py:192-210 | two name lists that agree on which catalogue names they contain select the same targets and generator: order, repetition and unknown names play no part |
| Targets.MsvcLines | contribs/contribs_builder.py:196-201 | the two MSVC lines: `msvc2022` overrides `msvc2019`, and each selected one appends the Windows triple |
| Targets.CatalogueGenerator | contribs/contribs_builder.py:192-210 | only the two MSVC lines of the chain can change the generator |
| Targets.ResolveExplicit | contribs/contribs_builder.py:189-213 | with at least one recognised name the result is the catalogue-order selection and its last-writer generator, and it is non-empty |
| Targets.ResolveFallsThrough | contribs/contribs_builder.py:189-236 | with no recognised name the result is the auto-selection with an empty generator, the same as giving no names at all |
| Targets.ExplicitGenerator | contribs/contribs_builder.py:196-201 | after a recognised explicit selection the generator is the 2022 one if `msvc2022` was given, else the 2019 one if `msvc2019` was given, else empty |
| Targets.BothMsvcDuplicate | contribs/contribs_builder.py:196-201 | giving both MSVC names yields the Windows triple exactly twice, and the 2022 generator |
| Targets.AutoSelectionByHost | contribs/contribs_builder.py:213-230 | auto-selection without an NDK root: Linux gives the gcc_64 desktop, macOS gives macOS unified then iOS unified, Windows gives the MSVC target, any other host gives nothing; on Windows the generator is the 2022 one exactly when `VisualStudioVersion` contains "17.0", else the 2019 one |
| Targets.AutoSelectionAppendsAndroid | contribs/contribs_builder.py:232-236 | a non-empty NDK root appends the four Android targets in order (armv8, armv7, x86_64, x86) after the host's targets, and leaves the generator alone |
| Targets.ExplicitIgnoresHost | contribs/contribs_builder.py:189-213 | a recognised explicit selection does not depend on the host facts, and an Android target appears only if an Android name was given |
| Targets.NeverEmptyOnKnownHost | contribs/contribs_builder.py:186-236 | on a Linux, macOS or Windows host the target list is never empty |
| Targets.CatalogueArch | contribs/contribs_builder.py:192-210 | no line of the `if` chain appends an `i686` target |
| Targets.AutoSelectionArch | contribs/contribs_builder.py:213-236 | the auto-selection never yields an `i686` target |
| Targets.NoI686Target | contribs/contribs_builder.py:186-236 | no resolution yields an `i686` target, so the `i686-w64-mingw32-cmake` branch of the CMake selection is never taken |
| Targets.LinuxExample | contribs/contribs_builder.py:192 | `--targets linux` selects exactly the linux/x86_64/gcc_64 triple |
| Targets.IosArmv8Example | contribs/contribs_builder.py:210 | `--targets ios_armv8` selects exactly the iOS/armv8 triple |
| Toolchain.ConfigureModuleCommand | contribs/contribs_builder.py:304-323 | the configure command is the target kit's `bin/` directory followed by `qt-configure-module.bat` on a Windows host and by `qt-configure-module` on any other host |
| Toolchain.ConfigureModuleByHost | contribs/contribs_builder.py:317-323 | two hosts get the same configure command exactly when both or neither are Windows, and the Windows command ends in "bat" |
| Toolchain.QtMqttArchive | contribs/contribs_builder.py:274-275 | the QtMqtt archive is its directory name plus ".zip", and the Qt version can be read back out of it |
| Toolchain.QtConnectivityDir | contribs/contribs_builder.py:286 | the QtConnectivity directory contains no '.', and after the branch prefix holds the version with its dots removed |
| Toolchain.QtConnectivityArchive | contribs/contribs_builder.py:285 | the QtConnectivity archive is its directory name plus ".zip" |
| Toolchain.DefaultConnectivityArchive | contribs/contribs_builder.py:120-286 | with the default version 6.6.3 the archives are `qtconnectivity-blescanfiltering_v1_663.zip` and `qtmqtt-6.6.3.zip` |
| Toolchain.QtHostPathUpdate | contribs/contribs_builder.py:318-327 | `QT_HOST_PATH` is written exactly for an Android or iOS target on a Linux or macOS host, and names the kit of that host's own desktop target |
| Toolchain.QtHostPathAfterLoop | contribs/contribs_builder.py:295-327 | after the loop `QT_HOST_PATH` is the host kit path exactly when some target was an Android or iOS target on a Linux or macOS host; otherwise it keeps its earlier value |
| Toolchain.SelectCMake | contribs/contribs_builder.py:329-386 | static libraries exactly for iOS on macOS, shared exactly when not static; the MSVC generator on Windows, Xcode for iOS on macOS, Ninja otherwise; the Android command overrides every host's command; `-A <platform>` on Windows; the iOS toolchain command on macOS |
| Toolchain.SelectCMakeIsTable | contribs/contribs_builder.py:329-386 | the script's sequence of overriding assignments equals a most-specific-rule-first decision table |
| Toolchain.TargetKeyInjective | contribs/contribs_builder.py:302-303 | the `<os>_<arch>` key determines the OS and the architecture |
| Toolchain.BuildDirKeyedByOsArch | contribs/contribs_builder.py:302-303 | two targets share a build (or env) directory exactly when they agree on OS and architecture |
| Toolchain.PlanTarget | contribs/contribs_builder.py:298-386 | a target's build and env directories never coincide, and `QT_HOST_PATH` is only ever written for an Android or iOS target on a non-Windows host |
| Toolchain.LinuxDesktopPlan | contribs/contribs_builder.py:302-386 | the Linux desktop target on a Linux host, whatever the generator: the CMake defaults (plain `cmake`, Ninja, shared libraries), no `QT_HOST_PATH`, and the build directory `build/linux_x86_64/` |
| Toolchain.LinuxDesktopBuildDir | contribs/contribs_builder.py:302 | the Linux desktop target builds in `<contribs>/build/linux_x86_64/` |
| Toolchain.WindowsTargetOnLinux | contribs/contribs_builder.py:335-340 | the Windows x86_64 target on a Linux host is built with `x86_64-w64-mingw32-cmake`, Ninja and shared libraries |
| Toolchain.LinuxScenario | contribs/contribs_builder.py:295-386 | `--targets linux` on Linux: one target, plain `cmake`, Ninja, shared only, no `QT_HOST_PATH`, build directory `build/linux_x86_64/` |
| Toolchain.IosArmv8Scenario | contribs/contribs_builder.py:342-362 | `--targets ios_armv8` on macOS: Xcode, static only, the `OS64` platform, `QT_HOST_PATH` at the macOS kit |
| TextUtil.ReplaceChar | src/DeviceManager_advertisement.cpp:49 | the result is the input with every `from` replaced by `to`, position by position |
| TextUtil.RemoveChar | src/DeviceManager_advertisement.cpp:65 | the removed character no longer occurs, every other character is kept, and nothing is added |
| TextUtil.RemoveCharCount | contribs/contribs_builder.py:285 | exactly the occurrences of the removed character are dropped |
| TextUtil.RemoveCharAppend | contribs/contribs_builder.py:285 | removal distributes over concatenation, so the kept characters keep their order |
| TextUtil.RemoveCharIdempotent | src/DeviceManager_advertisement.cpp:65 | removing the colons from a MAC that has none left changes nothing |
| TextUtil.OccurrenceFromContains | contribs/contribs_builder.py:225 | when the substring test succeeds, the pattern occurs at some position |
| TextUtil.ContainsFromOccurrence | contribs/contribs_builder.py:225 | an occurrence at any position makes the substring test succeed |
| Hex.EndianFlip16 | src/DeviceManager_advertisement.cpp:82 | the high byte of the result is the low byte of the identifier, and the low byte its high byte |
| Hex.EndianFlip16Involution | src/DeviceManager_advertisement.cpp:82 | swapping the bytes twice gives the identifier back |
| Hex.HexNumber | src/DeviceManager_advertisement.cpp:133 | `QByteArray::number(n, 16)` is a non-empty string of hex digits without a leading zero |
| Hex.HexNumberRoundTrip | src/DeviceManager_advertisement.cpp:133 | reading the hex digits back gives the number |
| Hex.RightJustified | src/DeviceManager_advertisement.cpp:133 | `rightJustified` pads on the left with the fill character up to the width and never truncates |
| Hex.Hex4 | src/DeviceManager_advertisement.cpp:133 | a 16-bit value, padded, is always exactly four hex digits |
| Hex.Hex4Padded | src/DeviceManager_advertisement.cpp:133 | the number has at most four digits of its own, and the padded field is zeros followed by exactly those digits |
| Hex.Hex4RoundTrip | src/DeviceManager_advertisement.cpp:133 | the four padded digits read back as the value: the padding zeros add nothing |
| Hex.ToHex | src/DeviceManager_advertisement.cpp:132 | `toHex` gives two hex digits per byte |
| Hex.ToHexRoundTrip | src/DeviceManager_advertisement.cpp:132 | reading the digit pairs back gives the bytes |
| Hex.AppleBeaconDigitsExample | src/DeviceManager_advertisement.cpp:82 | Apple's identifier 0x004C swaps to 0x4C00 and prints as "4c00"; the payload bytes 02 15 print as "0215" |
| Json.Remove | src/DeviceManager_advertisement.cpp:90 | after `remove(key)` the key is gone and every other member is kept |
| Json.RemoveAll | src/DeviceManager_advertisement.cpp:141-142 | after several removals exactly the members with those keys are gone |
| Json.RemoveAppend | src/DeviceManager_advertisement.cpp:90 | `remove` keeps the remaining members in their order, piece by piece |
| Json.RemoveAbsent | src/DeviceManager_advertisement.cpp:141-142 | removing a key the object does not hold leaves it unchanged |
| Devices.FirstMatch | src/DeviceManager_advertisement.cpp:51-60 | the index found is the first device whose address equals the key; none is found exactly when no device matches |
| Devices.QueueForRefresh | src/DeviceManager_advertisement.cpp:171-190 | the device is appended to the refresh queue exactly when the flat refresh rule holds (listening, enabled, connected, not "ThermoBeacon", needs an update, not errored, not queued, not updating); otherwise the queue is unchanged; no duplicate is ever introduced |
| Advertisement.IsBeacon | src/DeviceManager_advertisement.cpp:49 | an advertisement is a beacon exactly when its name, read position by position with '-' as ':', spells its address |
| Advertisement.ManufacturerField | src/DeviceManager_advertisement.cpp:82 | the field is all hex digits, four for the identifier and two per payload byte; the first four read back as the byte-swapped identifier and the rest as the payload, so the field determines the record |
| Advertisement.ServiceUuidField | src/DeviceManager_advertisement.cpp:133 | the service UUID field is four hex digits that read back as the 16-bit UUID |
| Advertisement.TopicDeterminesMac | src/DeviceManager_advertisement.cpp:103 | under one configuration two topics are equal exactly when their MACs are |
| Advertisement.ManufacturerFieldInjective | src/DeviceManager_advertisement.cpp:82 | equal manufacturer fields come from the same identifier and payload |
| Advertisement.ManufacturerInputInjective | src/DeviceManager_advertisement.cpp:79-83 | for one device and advertisement, two manufacturer decoder inputs are equal exactly when their records are |
| Advertisement.ServiceFieldsInjective | src/DeviceManager_advertisement.cpp:132-133 | equal service data and UUID fields come from the same service record |
| Advertisement.ServiceInputInjective | src/DeviceManager_advertisement.cpp:129-134 | for one device and advertisement, two service decoder inputs are equal exactly when their records are |
| Advertisement.MessagesMembers | src/DeviceManager_advertisement.cpp:103-105 | a message is sent on the topic exactly for the bodies given |
| Advertisement.MessagesAppend | src/DeviceManager_advertisement.cpp:213-289 | publishing the manufacturer batch and then the service batch is publishing their concatenation |
| Advertisement.Successes | src/DeviceManager_advertisement.cpp:85-109 | a loop produces some output exactly when some record decodes with a result of at least 0, and never more outputs than records |
| Advertisement.SuccessesMembers | src/DeviceManager_advertisement.cpp:88-90 | every successful decode contributes its cleaned object, and every output comes from a successful decode |
| Advertisement.SuccessesSingle | src/DeviceManager_advertisement.cpp:88-90 | a loop over one record keeps its cleaned object exactly when its decode succeeds |
| Advertisement.SuccessesAppend | src/DeviceManager_advertisement.cpp:69-90 | the outputs of a loop over two runs of records are those of the first run followed by those of the second: one output per successful decode, in record order |
| Advertisement.DecodeLoop | src/DeviceManager_advertisement.cpp:85-116 | every message a loop sends is on its topic and carries the cleaned object of a successful decode; when publishing, no successful decode goes unpublished and there is one message per output; otherwise nothing is sent |
| Advertisement.DecodeLoopSingle | src/DeviceManager_advertisement.cpp:88-106 | a loop over one record sends exactly one message, with its cleaned object, when the decode succeeds and publishing is on, and nothing otherwise |
| Advertisement.DecodeLoopAppend | src/DeviceManager_advertisement.cpp:69-116 | a loop over two runs of records sends the first run's messages and then the second's, so records are published one by one in their order |
| Advertisement.RawFieldsRemoved | src/DeviceManager_advertisement.cpp:139-142 | no output of a loop still holds one of the raw input fields |
| Advertisement.KnownDevicePath | src/DeviceManager_advertisement.cpp:61-192 | the known device takes the advertisement's name and RSSI; each loop keeps the cleaned objects of its successful decodes under the colon-free MAC; with MQTT every service output, and with a non-empty MAC every manufacturer output, is published in order on that MAC's topic; with an empty MAC no manufacturer output and without MQTT nothing is published; the handler stops and the queue changes as the refresh rule says |
| Advertisement.UnknownDevicePath | src/DeviceManager_advertisement.cpp:207-290 | the outputs are the manufacturer loop's cleaned successes and then the service loop's, under the advertisement's address as it is; with MQTT all of them are published in order on that address's topic, and without MQTT none; output exists exactly when some decode succeeds |
| Advertisement.AfterMatch | src/DeviceManager_advertisement.cpp:51-196 | handling a matched device changes only that device, which takes the advertisement's name and RSSI, and the refresh queue, which follows the refresh rule; the device's messages come first, then those of the unknown-device path if it ran; a `DeviceTheengs` is handed the cleaned outputs of both its loops, manufacturer first, and any other device nothing |
| Advertisement.UpdateBleDevice | src/DeviceManager_advertisement.cpp:39-297 | a beacon changes nothing; only the first matching device changes, and it takes the advertisement's name and RSSI; the queue gains at most that device and never a duplicate; nothing is published without MQTT; the unknown path never runs on Apple platforms or for a beacon; with no matched device nothing is handed to `parseTheengsAdvertisement` |
| Advertisement.CleanedLacksRawKeys | src/DeviceManager_advertisement.cpp:139-142 | a cleaned object no longer holds any raw field of its loop |
| Advertisement.ManufacturerLoopMessages | src/DeviceManager_advertisement.cpp:85-116 | every message a manufacturer loop sends is on its MAC's topic and carries the cleaned object of one of its successful decodes, without the raw manufacturer field |
| Advertisement.ServiceLoopMessages | src/DeviceManager_advertisement.cpp:136-168 | every message a service loop sends is on its MAC's topic and carries the cleaned object of one of its successful decodes, without the raw service fields |
| Advertisement.MatchedDeviceRule | src/DeviceManager_advertisement.cpp:51-59 | a known device matches exactly when some device's address equals the device UUID on Apple builds, or the MAC address elsewhere, and the handler takes the first such device |
| Advertisement.UnknownPathRule | src/DeviceManager_advertisement.cpp:198-207 | the unknown path runs exactly for a non-beacon on a non-Apple platform when the handler did not stop early and no decode of the matched device succeeded |
| Advertisement.StatusRule | src/DeviceManager_advertisement.cpp:101-108 | `status` ends true exactly when some decode that ran succeeded, whatever `publish` returned |
| Advertisement.ScanRule | src/DeviceManager_advertisement.cpp:292-296 | the scanner is called exactly when scanning, unless the advertisement is a beacon or the handler stopped early |
| Advertisement.QueueRule | src/DeviceManager_advertisement.cpp:171-190 | the refresh queue changes exactly when a device matched and the refresh rule holds for it |
| Advertisement.TheengsRule | src/DeviceManager_advertisement.cpp:96-149 | only a matched `DeviceTheengs` is handed outputs, and then exactly the cleaned outputs of its manufacturer loop followed by those of its service loop |
| Advertisement.TopicRule | src/DeviceManager_advertisement.cpp:64-242 | every message goes either to the topic of the advertisement's address or to the topic of the matched device's colon-free MAC; with no matched device, only to the former |
| Advertisement.KnownMessages | src/DeviceManager_advertisement.cpp:61-168 | every message of the matched device's loops is a message of its colon-free MAC's loops |
| Advertisement.UnknownMessages | src/DeviceManager_advertisement.cpp:207-290 | every message of the unknown-device path is a message of the address's loops |
| Advertisement.PublishedSplit | src/DeviceManager_advertisement.cpp:51-290 | the handler sends the matched device's messages, then those of the unknown-device path when it ran, and nothing else |
| Advertisement.PublishedBodies | src/DeviceManager_advertisement.cpp:85-290 | every message the handler sends carries, on its MAC's topic, the cleaned object of a successful decode of the matched device's loops or of the unknown-device loops, without that loop's raw fields |
| Advertisement.KnownComplete | src/DeviceManager_advertisement.cpp:101-160 | with MQTT the matched device's service loop, and its manufacturer loop under a non-empty MAC, publish every successful decode |
| Advertisement.UnknownComplete | src/DeviceManager_advertisement.cpp:240-287 | with MQTT the unknown-device path publishes every successful decode of both loops |
| Advertisement.KnownPublishedComplete | src/DeviceManager_advertisement.cpp:101-157 | with MQTT every successful decode of the matched device's service loop, and of its manufacturer loop under a non-empty MAC, is among the handler's messages |
| Advertisement.UnknownPublishedComplete | src/DeviceManager_advertisement.cpp:240-284 | with MQTT, when the unknown-device path runs, every one of its successful decodes is among the handler's messages |
| Advertisement.BeaconExample | src/DeviceManager_advertisement.cpp:49 | an advertisement named "0A-1B" from address "0A:1B" is a beacon and changes nothing; with address "0A:1C" it is not a beacon |

## Left out

- Downloads, archive extraction, directory creation, `subprocess` calls to CMake and the build tools: these are I/O. The model stops at the values the script computes for them.
- The command-line parsing, the start-up checks (working directory, privileges) and the software selection: the model takes the parsed target names and settings as inputs.
- The Android OpenSSL and linuxdeploy downloads (lines 248-269): these are I/O only, with fixed names.
- The build steps after line 386 (extract, configure, build, install of each module): these are external tools.
- `ANDROID_SDK_ROOT`: the modelled code reads it nowhere.
- The Theengs decoder's internals: the decoder is a parameter, from the input document to a result code and the document it leaves behind.
- JSON serialisation and `MqttManager::publish`: published messages are recorded with their object body, and the return value of `publish` is ignored, since `status` is overwritten with true right after.
- `qobject_cast` and `dynamic_cast` failures: every device in the list is a `Device`, and "is a `DeviceTheengs`" is a field.
- `Device::parseAdvertisementData`, `DeviceTheengs::parseTheengsAdvertisement`, `refreshQueued`, `refreshDevices_continue` and `addBleDevice`: their effects are not part of this model. What `parseAdvertisementData` receives is not recorded. The cleaned outputs handed to `parseTheengsAdvertisement`, the queue push, and the call to `addBleDevice` are recorded.
- `Device::setName` and `setRssi` are taken to be plain assignments: the `ThermoBeacon` test therefore sees the advertisement's name.
- Hex.EndianFlip16: `endian_flip_16` is taken to swap the two bytes of its 16-bit argument; `utils_bits.h` is not part of this model.
- Advertisement.ManufacturerInputs: one record per manufacturer identifier. Qt's `manufacturerData(id)` returns only one of several records under the same identifier, and that case is not modelled.
- Advertisement.ServiceUuidField: service UUIDs are their 16-bit `toUInt16()` value. A 128-bit UUID, for which Qt returns 0, is not modelled separately.
- The `Q_OS_MACOS` / `Q_OS_IOS` build switch is a boolean in the configuration.
- Json.Remove: removes every member with the key, where ArduinoJson removes the one member; keys in an ArduinoJson object are unique, so the two agree.
