/** DeviceManager::updateBleDevice (src/DeviceManager_advertisement.cpp):
    one received Bluetooth LE advertisement is filtered, turned into decoder
    input documents, decoded, cleaned of its raw fields and published over
    MQTT, first for the matching known device and otherwise as an unknown
    device; a known device may also be queued for a refresh.

    The Theengs decoder is a parameter: a function from the input document to
    a result code and the document it leaves behind (it adds the decoded
    properties in place). Publishing is recorded as a list of messages. */
module Advertisement {
  import opened Wrappers
  import TextUtil
  import Hex
  import Json
  import opened Devices

  datatype ManufacturerData = ManufacturerData(id: Hex.Uint16, payload: seq<Hex.Byte>)

  /** Service data under a 16-bit service UUID (`QBluetoothUuid::toUInt16()`). */
  datatype ServiceData = ServiceData(uuid: Hex.Uint16, payload: seq<Hex.Byte>)

  /** The parts of a `QBluetoothDeviceInfo` the handler reads. */
  datatype DeviceInfo = DeviceInfo(
    name: string,
    address: string,      // address().toString()
    deviceUuid: string,   // deviceUuid().toString()
    rssi: int,
    manufacturer: seq<ManufacturerData>,
    services: seq<ServiceData>)

  /** What `decodeBLEJson` returns and the object it leaves behind. */
  datatype Decoded = Decoded(code: int, obj: Json.Object)

  type Decoder = Json.Object -> Decoded

  datatype Message = Message(topic: string, body: Json.Object)

  /** MQTT topic parts, whether the settings and MQTT singletons exist, and
      whether this is a macOS / iOS build. */
  datatype Config = Config(topicA: string, topicB: string, mqttAvailable: bool, appleOS: bool)

  /** The device manager state the handler reads and writes. `queue` and
      `updating` are as they stand right after the handler's `push_back`:
      `refreshDevices_continue()`, which may then move the device from the
      queue into the updating list, is not part of this model. */
  datatype Manager = Manager(
    devices: seq<Device>,
    queue: seq<DeviceId>,      // m_devices_updating_queue, before refreshDevices_continue()
    updating: seq<DeviceId>,   // m_devices_updating, before refreshDevices_continue()
    listening: bool,
    scanning: bool)

  /** The effect of one call: the new manager state, the MQTT messages sent,
      the outputs handed to the known DeviceTheengs, the final `status`,
      whether the unknown-device path ran and whether `addBleDevice` was called. */
  datatype Report = Report(
    manager: Manager,
    published: seq<Message>,
    theengsUpdates: seq<Json.Object>,
    status: bool,
    unknownPathRan: bool,
    addedToScan: bool)

  /** One decoder loop: the cleaned outputs of the successful decodes, in
      order, and the messages published for them. */
  datatype LoopResult = LoopResult(outputs: seq<Json.Object>, published: seq<Message>)

  // ---------------------------------------------------------------------------
  // Encoding

  /** Line 49: an advertisement whose name, with '-' read as ':', is its own
      address comes from a beacon and is skipped. */
  predicate IsBeacon(info: DeviceInfo): (b: bool)
    // position by position, the name spells the address with '-' for ':'
    ensures b <==> |info.name| == |info.address| &&
                   forall i :: 0 <= i < |info.name| ==> info.address[i] == (if info.name[i] == '-' then ':' else info.name[i])
  {
    TextUtil.ReplaceChar(info.name, '-', ':') == info.address
  }

  /** Lines 82 and 224: the byte-swapped company identifier as four hex
      digits, then the payload in hex. Both parts can be read back, so the
      field determines the record (swapping the identifier digits back is
      `Hex.EndianFlip16Involution`). */
  function ManufacturerField(m: ManufacturerData): (f: string)
    ensures |f| == 4 + 2 * |m.payload|
    ensures Hex.IsHexString(f)
    ensures Hex.IsHexString(f[..4]) && Hex.ParseHex(f[..4]) == Hex.EndianFlip16(m.id)
    ensures Hex.IsHexString(f[4..]) && Hex.FromHex(f[4..]) == m.payload
  {
    var head := Hex.Hex4(Hex.EndianFlip16(m.id));
    var tail := Hex.ToHex(m.payload);
    Hex.Hex4RoundTrip(Hex.EndianFlip16(m.id));
    Hex.ToHexRoundTrip(m.payload);
    Hex.ConcatHex(head, tail);
    head + tail
  }

  /** Lines 133 and 263: the 16-bit service UUID as four hex digits. */
  function ServiceUuidField(s: ServiceData): (f: string)
    ensures |f| == 4 && Hex.IsHexString(f) && Hex.ParseHex(f) == s.uuid
  {
    Hex.Hex4RoundTrip(s.uuid);
    Hex.Hex4(s.uuid)
  }

  /** Lines 79-83 and 221-225: the decoder input for one manufacturer record. */
  function ManufacturerInput(mac: string, info: DeviceInfo, m: ManufacturerData): Json.Object {
    [Json.Member("id", Json.Str(mac)),
     Json.Member("name", Json.Str(info.name)),
     Json.Member("manufacturerdata", Json.Str(ManufacturerField(m))),
     Json.Member("rssi", Json.Int(info.rssi))]
  }

  /** Lines 129-134 and 259-264: the decoder input for one service record. */
  function ServiceInput(mac: string, info: DeviceInfo, s: ServiceData): Json.Object {
    [Json.Member("id", Json.Str(mac)),
     Json.Member("name", Json.Str(info.name)),
     Json.Member("servicedata", Json.Str(Hex.ToHex(s.payload))),
     Json.Member("servicedatauuid", Json.Str(ServiceUuidField(s))),
     Json.Member("rssi", Json.Int(info.rssi))]
  }

  function ManufacturerInputs(mac: string, info: DeviceInfo): seq<Json.Object> {
    seq(|info.manufacturer|, i requires 0 <= i < |info.manufacturer| => ManufacturerInput(mac, info, info.manufacturer[i]))
  }

  function ServiceInputs(mac: string, info: DeviceInfo): seq<Json.Object> {
    seq(|info.services|, i requires 0 <= i < |info.services| => ServiceInput(mac, info, info.services[i]))
  }

  /** The raw fields removed after a successful decode. */
  const ManufacturerKeys: seq<string> := ["manufacturerdata"]
  const ServiceKeys: seq<string> := ["servicedata", "servicedatauuid"]

  /** Lines 103, 155, 242 and 282. */
  function Topic(cfg: Config, mac: string): string {
    cfg.topicA + "/" + cfg.topicB + "/BTtoMQTT/" + mac
  }

  /** Under one configuration the topic names the MAC it was built from. */
  lemma TopicDeterminesMac(cfg: Config, mac1: string, mac2: string)
    ensures Topic(cfg, mac1) == Topic(cfg, mac2) <==> mac1 == mac2
  {
    var prefix := cfg.topicA + "/" + cfg.topicB + "/BTtoMQTT/";
    if Topic(cfg, mac1) == Topic(cfg, mac2) {
      assert mac1 == Topic(cfg, mac1)[|prefix|..];
      assert mac2 == Topic(cfg, mac2)[|prefix|..];
    }
  }

  /** The manufacturer field determines its record. */
  lemma ManufacturerFieldInjective(m1: ManufacturerData, m2: ManufacturerData)
    requires ManufacturerField(m1) == ManufacturerField(m2)
    ensures m1 == m2
  {
    var f := ManufacturerField(m1);
    var flipped := Hex.ParseHex(f[..4]);
    assert flipped == Hex.EndianFlip16(m1.id) == Hex.EndianFlip16(m2.id);
    Hex.EndianFlip16Involution(m1.id);
    Hex.EndianFlip16Involution(m2.id);
    assert Hex.FromHex(f[4..]) == m1.payload == m2.payload;
  }

  /** The decoder input determines the manufacturer record it was built
      from: the field reads back as the swapped identifier and the payload. */
  lemma ManufacturerInputInjective(mac: string, info: DeviceInfo, m1: ManufacturerData, m2: ManufacturerData)
    ensures ManufacturerInput(mac, info, m1) == ManufacturerInput(mac, info, m2) <==> m1 == m2
  {
    if ManufacturerInput(mac, info, m1) == ManufacturerInput(mac, info, m2) {
      assert ManufacturerInput(mac, info, m1)[2] == ManufacturerInput(mac, info, m2)[2];
      ManufacturerFieldInjective(m1, m2);
    }
  }

  /** The service fields determine their record. */
  lemma ServiceFieldsInjective(s1: ServiceData, s2: ServiceData)
    requires Hex.ToHex(s1.payload) == Hex.ToHex(s2.payload)
    requires ServiceUuidField(s1) == ServiceUuidField(s2)
    ensures s1 == s2
  {
    Hex.ToHexRoundTrip(s1.payload);
    Hex.ToHexRoundTrip(s2.payload);
    assert s1.uuid == Hex.ParseHex(ServiceUuidField(s1)) == s2.uuid;
  }

  /** The decoder input determines the service record it was built from. */
  lemma ServiceInputInjective(mac: string, info: DeviceInfo, s1: ServiceData, s2: ServiceData)
    ensures ServiceInput(mac, info, s1) == ServiceInput(mac, info, s2) <==> s1 == s2
  {
    if ServiceInput(mac, info, s1) == ServiceInput(mac, info, s2) {
      assert ServiceInput(mac, info, s1)[2] == ServiceInput(mac, info, s2)[2];
      assert ServiceInput(mac, info, s1)[3] == ServiceInput(mac, info, s2)[3];
      ServiceFieldsInjective(s1, s2);
    }
  }

  // ---------------------------------------------------------------------------
  // Decoding loops

  predicate AnyDecodes(decoder: Decoder, inputs: seq<Json.Object>) {
    exists i :: 0 <= i < |inputs| && decoder(inputs[i]).code >= 0
  }

  /** One message on `topic` per body, in order. */
  function Messages(topic: string, bodies: seq<Json.Object>): (ms: seq<Message>)
    ensures |ms| == |bodies|
    ensures forall i :: 0 <= i < |ms| ==> ms[i] == Message(topic, bodies[i])
    ensures forall m :: m in ms ==> m.topic == topic
  {
    seq(|bodies|, i requires 0 <= i < |bodies| => Message(topic, bodies[i]))
  }

  /** A message is sent exactly for each body, on the one topic. */
  lemma MessagesMembers(topic: string, bodies: seq<Json.Object>)
    ensures forall m :: m in Messages(topic, bodies) <==> m.topic == topic && m.body in bodies
  {
    var ms := Messages(topic, bodies);
    forall m: Message | m.topic == topic && m.body in bodies
      ensures m in ms
    {
      var j :| 0 <= j < |bodies| && bodies[j] == m.body;
      assert ms[j] == m;
    }
  }

  /** Publishing two batches in turn is publishing their concatenation. */
  lemma MessagesAppend(topic: string, a: seq<Json.Object>, b: seq<Json.Object>)
    ensures Messages(topic, a) + Messages(topic, b) == Messages(topic, a + b)
  {
    var l, r := Messages(topic, a) + Messages(topic, b), Messages(topic, a + b);
    forall i | 0 <= i < |r| ensures l[i] == r[i] {
      if i < |a| {
        assert l[i] == Messages(topic, a)[i];
      } else {
        assert l[i] == Messages(topic, b)[i - |a|];
      }
    }
  }

  /** `o` is the cleaned object of a successful decode of one of `inputs`. */
  predicate CleanedSuccess(decoder: Decoder, inputs: seq<Json.Object>, rawKeys: seq<string>, o: Json.Object) {
    exists i :: 0 <= i < |inputs| && decoder(inputs[i]).code >= 0 && o == Json.RemoveAll(decoder(inputs[i]).obj, rawKeys)
  }

  /** Every successful decode of `inputs` has its cleaned object published on `topic`. */
  predicate AllPublished(decoder: Decoder, inputs: seq<Json.Object>, rawKeys: seq<string>, topic: string, published: seq<Message>) {
    forall i :: 0 <= i < |inputs| && decoder(inputs[i]).code >= 0 ==>
      Message(topic, Json.RemoveAll(decoder(inputs[i]).obj, rawKeys)) in published
  }

  /** The decoding part of one `for` loop over the records: decode each
      input and, on success (a result of at least 0), keep the decoded object
      with the raw fields removed. */
  function Successes(decoder: Decoder, inputs: seq<Json.Object>, rawKeys: seq<string>): (outs: seq<Json.Object>)
    ensures |outs| > 0 <==> AnyDecodes(decoder, inputs)
    ensures |outs| <= |inputs|
  {
    if inputs == [] then []
    else
      var d := decoder(inputs[0]);
      var rest := Successes(decoder, inputs[1..], rawKeys);
      assert forall i :: 0 < i < |inputs| ==> inputs[i] == inputs[1..][i - 1];
      if d.code >= 0 then [Json.RemoveAll(d.obj, rawKeys)] + rest else rest
  }

  /** Every successful decode yields its cleaned object, and nothing else is
      output: the raw fields are gone and every other member is kept. */
  lemma {:induction false} SuccessesMembers(decoder: Decoder, inputs: seq<Json.Object>, rawKeys: seq<string>)
    ensures forall i :: 0 <= i < |inputs| && decoder(inputs[i]).code >= 0 ==>
              Json.RemoveAll(decoder(inputs[i]).obj, rawKeys) in Successes(decoder, inputs, rawKeys)
    ensures forall o :: o in Successes(decoder, inputs, rawKeys) ==>
              exists i :: 0 <= i < |inputs| && decoder(inputs[i]).code >= 0 && o == Json.RemoveAll(decoder(inputs[i]).obj, rawKeys)
  {
    if inputs != [] {
      var rest := inputs[1..];
      SuccessesMembers(decoder, rest, rawKeys);
      var outs := Successes(decoder, inputs, rawKeys);
      var d := decoder(inputs[0]);
      var head := if d.code >= 0 then [Json.RemoveAll(d.obj, rawKeys)] else [];
      assert outs == head + Successes(decoder, rest, rawKeys);
      forall i | 0 <= i < |inputs| && decoder(inputs[i]).code >= 0
        ensures Json.RemoveAll(decoder(inputs[i]).obj, rawKeys) in outs
      {
        if i > 0 {
          assert inputs[i] == rest[i - 1];
        }
      }
      forall o | o in outs
        ensures exists i :: 0 <= i < |inputs| && decoder(inputs[i]).code >= 0 && o == Json.RemoveAll(decoder(inputs[i]).obj, rawKeys)
      {
        if o in Successes(decoder, rest, rawKeys) {
          var j :| 0 <= j < |rest| && decoder(rest[j]).code >= 0 && o == Json.RemoveAll(decoder(rest[j]).obj, rawKeys);
          assert inputs[j + 1] == rest[j];
        } else {
          assert o in head;
        }
      }
    }
  }

  /** A loop over one record keeps that record's cleaned object exactly when
      its decode succeeds. */
  lemma SuccessesSingle(decoder: Decoder, x: Json.Object, rawKeys: seq<string>)
    ensures Successes(decoder, [x], rawKeys) ==
            if decoder(x).code >= 0 then [Json.RemoveAll(decoder(x).obj, rawKeys)] else []
  {
    assert [x][1..] == [];
  }

  /** Looping over two runs of records in turn is looping over both: the
      outputs come in record order, one per successful decode. */
  lemma {:induction false} SuccessesAppend(decoder: Decoder, a: seq<Json.Object>, b: seq<Json.Object>, rawKeys: seq<string>)
    ensures Successes(decoder, a + b, rawKeys) == Successes(decoder, a, rawKeys) + Successes(decoder, b, rawKeys)
  {
    if a == [] {
      assert a + b == b;
    } else {
      assert (a + b)[0] == a[0];
      assert (a + b)[1..] == a[1..] + b;
      SuccessesAppend(decoder, a[1..], b, rawKeys);
    }
  }

  /** One whole `for` loop (lines 85-116 for the manufacturer records,
      136-168 for the service records): decode each record and, on success,
      keep the cleaned object and, when `publish` holds, send it on `topic`. */
  function DecodeLoop(decoder: Decoder, inputs: seq<Json.Object>, rawKeys: seq<string>, topic: string, publish: bool): (r: LoopResult)
    ensures r.outputs == Successes(decoder, inputs, rawKeys)
    // when publishing, one message per output in the same order; otherwise none
    ensures publish ==> r.published == Messages(topic, r.outputs)
    ensures !publish ==> r.published == []
    // every message is on `topic` and carries the cleaned object of a successful decode ...
    ensures forall m :: m in r.published ==> m.topic == topic && CleanedSuccess(decoder, inputs, rawKeys, m.body)
    // ... and when publishing, no successful decode goes unpublished
    ensures publish ==> AllPublished(decoder, inputs, rawKeys, topic, r.published)
  {
    var outs := Successes(decoder, inputs, rawKeys);
    SuccessesMembers(decoder, inputs, rawKeys);
    MessagesMembers(topic, outs);
    LoopResult(outs, if publish then Messages(topic, outs) else [])
  }

  /** A loop over one record sends one message, with that record's cleaned
      object, exactly when its decode succeeds and it publishes. */
  lemma DecodeLoopSingle(decoder: Decoder, x: Json.Object, rawKeys: seq<string>, topic: string, publish: bool)
    ensures DecodeLoop(decoder, [x], rawKeys, topic, publish).published ==
            if publish && decoder(x).code >= 0 then [Message(topic, Json.RemoveAll(decoder(x).obj, rawKeys))] else []
  {
    SuccessesSingle(decoder, x, rawKeys);
  }

  /** The messages of a loop over two runs of records are those of the first
      run followed by those of the second: records are published in order. */
  lemma DecodeLoopAppend(decoder: Decoder, a: seq<Json.Object>, b: seq<Json.Object>, rawKeys: seq<string>, topic: string, publish: bool)
    ensures DecodeLoop(decoder, a + b, rawKeys, topic, publish).published ==
            DecodeLoop(decoder, a, rawKeys, topic, publish).published + DecodeLoop(decoder, b, rawKeys, topic, publish).published
  {
    SuccessesAppend(decoder, a, b, rawKeys);
    MessagesAppend(topic, Successes(decoder, a, rawKeys), Successes(decoder, b, rawKeys));
  }

  // ---------------------------------------------------------------------------
  // The handler

  /** Lines 61-62: the matched device takes the advertisement's name and
      signal strength (`setName` is taken to be a plain assignment). */
  function Seen(d: Device, info: DeviceInfo): Device {
    d.(name := info.name, rssi := info.rssi)
  }

  /** Lines 64-66: the device's MAC with its colons removed. */
  function KnownMac(d: Device): string {
    TextUtil.RemoveChar(d.addressMac, ':')
  }

  /** What processing the matching known device produced. */
  datatype KnownResult = KnownResult(
    device: Device,
    mac: string,
    manufacturer: LoopResult,
    service: LoopResult,
    stopped: bool,
    queue: seq<DeviceId>)

  /** Lines 61-192 for the device that matched. The MAC is taken from the
      device with its colons removed; manufacturer results are published only
      when that MAC is non-empty, service results whenever MQTT is there. */
  function KnownDevicePath(cfg: Config, mgr: Manager, decoder: Decoder, info: DeviceInfo, d: Device): (r: KnownResult)
    ensures ':' !in r.mac
    ensures r.device == Seen(d, info) && r.mac == KnownMac(d)
    // what each loop keeps: the cleaned objects of its successful decodes
    ensures r.manufacturer.outputs == Successes(decoder, ManufacturerInputs(r.mac, info), ManufacturerKeys)
    ensures r.service.outputs == Successes(decoder, ServiceInputs(r.mac, info), ServiceKeys)
    // what is published: every output, in order, on the MAC's topic, given MQTT
    // (and, for manufacturer data, a non-empty MAC); nothing otherwise
    ensures cfg.mqttAvailable && r.mac != "" ==>
              r.manufacturer.published == Messages(Topic(cfg, r.mac), r.manufacturer.outputs)
    ensures cfg.mqttAvailable ==> r.service.published == Messages(Topic(cfg, r.mac), r.service.outputs)
    ensures r.mac == "" ==> r.manufacturer.published == []
    ensures !cfg.mqttAvailable ==> r.manufacturer.published == [] && r.service.published == []
    ensures forall m :: m in r.manufacturer.published + r.service.published ==> m.topic == Topic(cfg, r.mac)
    ensures r.stopped <==> StopsHandler(mgr.listening, r.device)
    ensures r.queue == QueueForRefresh(mgr.listening, r.device, mgr.queue, mgr.updating)
  {
    var d' := Seen(d, info);
    var mac := KnownMac(d');
    var topic := Topic(cfg, mac);
    var m := DecodeLoop(decoder, ManufacturerInputs(mac, info), ManufacturerKeys, topic, cfg.mqttAvailable && mac != "");
    var s := DecodeLoop(decoder, ServiceInputs(mac, info), ServiceKeys, topic, cfg.mqttAvailable);
    KnownResult(d', mac, m, s, StopsHandler(mgr.listening, d'), QueueForRefresh(mgr.listening, d', mgr.queue, mgr.updating))
  }

  /** Lines 207-290: both loops again under the advertisement's own address,
      unchanged, publishing whenever MQTT is there. */
  function UnknownDevicePath(cfg: Config, decoder: Decoder, info: DeviceInfo): (r: LoopResult)
    // the manufacturer loop's cleaned outputs, then the service loop's
    ensures r.outputs == Successes(decoder, ManufacturerInputs(info.address, info), ManufacturerKeys) +
                         Successes(decoder, ServiceInputs(info.address, info), ServiceKeys)
    // with MQTT every output is published, in order, on the address's topic
    ensures cfg.mqttAvailable ==> r.published == Messages(Topic(cfg, info.address), r.outputs)
    ensures forall m :: m in r.published ==> m.topic == Topic(cfg, info.address)
    ensures !cfg.mqttAvailable ==> r.published == []
    ensures |r.outputs| > 0 <==>
              AnyDecodes(decoder, ManufacturerInputs(info.address, info)) || AnyDecodes(decoder, ServiceInputs(info.address, info))
  {
    var mac := info.address;
    var topic := Topic(cfg, mac);
    var m := DecodeLoop(decoder, ManufacturerInputs(mac, info), ManufacturerKeys, topic, cfg.mqttAvailable);
    var s := DecodeLoop(decoder, ServiceInputs(mac, info), ServiceKeys, topic, cfg.mqttAvailable);
    var outs := m.outputs + s.outputs;
    assert |outs| == |m.outputs| + |s.outputs|;
    MessagesAppend(topic, m.outputs, s.outputs);
    assert cfg.mqttAvailable ==> m.published + s.published == Messages(topic, outs);
    LoopResult(outs, m.published + s.published)
  }

  /** The address a known device is matched by: the device UUID on Apple
      platforms, the MAC address elsewhere. */
  function MatchKey(cfg: Config, info: DeviceInfo): string {
    if cfg.appleOS then info.deviceUuid else info.address
  }

  /** Lines 198-296, reached when the handler did not return early. */
  function Finish(cfg: Config, mgr: Manager, decoder: Decoder, info: DeviceInfo,
                  published: seq<Message>, theengs: seq<Json.Object>, status: bool): (r: Report)
    ensures r.unknownPathRan <==> !status && !cfg.appleOS
    ensures r.manager == mgr && r.theengsUpdates == theengs && r.addedToScan == mgr.scanning
    ensures r.published == published + (if r.unknownPathRan then UnknownDevicePath(cfg, decoder, info).published else [])
    ensures r.status <==> status || (r.unknownPathRan && UnknownDecodes(decoder, info))
  {
    var runUnknown := !status && !cfg.appleOS;
    var u := if runUnknown then UnknownDevicePath(cfg, decoder, info) else LoopResult([], []);
    Report(mgr, published + u.published, theengs, status || |u.outputs| > 0, runUnknown, mgr.scanning)
  }

  /** Lines 170-296 once device `k` has matched and its loops have run with
      result `kr`: store the device and the queue, then either stop or finish. */
  function AfterKnown(cfg: Config, mgr: Manager, decoder: Decoder, info: DeviceInfo, k: nat, kr: KnownResult): (r: Report)
    requires k < |mgr.devices|
    ensures r.manager == mgr.(devices := mgr.devices[k := kr.device], queue := kr.queue)
    ensures r.unknownPathRan ==> !kr.stopped
    ensures r.published == kr.manufacturer.published + kr.service.published +
                           (if r.unknownPathRan then UnknownDevicePath(cfg, decoder, info).published else [])
    ensures r.theengsUpdates == if kr.device.theengs then kr.manufacturer.outputs + kr.service.outputs else []
  {
    var mgr' := mgr.(devices := mgr.devices[k := kr.device], queue := kr.queue);
    var theengs := if kr.device.theengs then kr.manufacturer.outputs + kr.service.outputs else [];
    var published := kr.manufacturer.published + kr.service.published;
    var status := |kr.manufacturer.outputs| > 0 || |kr.service.outputs| > 0;
    if kr.stopped then Report(mgr', published, theengs, status, false, false)
    else Finish(cfg, mgr', decoder, info, published, theengs, status)
  }

  /** Lines 51-296 once device `k` has matched. */
  function AfterMatch(cfg: Config, mgr: Manager, decoder: Decoder, info: DeviceInfo, k: nat): (r: Report)
    requires k < |mgr.devices|
    ensures |r.manager.devices| == |mgr.devices|
    ensures r.manager.devices[k] == Seen(mgr.devices[k], info)
    ensures forall j :: 0 <= j < |mgr.devices| && j != k ==> r.manager.devices[j] == mgr.devices[j]
    ensures r.manager.updating == mgr.updating && r.manager.listening == mgr.listening && r.manager.scanning == mgr.scanning
    ensures r.manager.queue == QueueForRefresh(mgr.listening, Seen(mgr.devices[k], info), mgr.queue, mgr.updating)
    // the matched device's messages first, then those of the unknown-device path if it ran
    ensures var kr := KnownDevicePath(cfg, mgr, decoder, info, mgr.devices[k]);
            r.published == kr.manufacturer.published + kr.service.published +
                           (if r.unknownPathRan then UnknownDevicePath(cfg, decoder, info).published else [])
    // a DeviceTheengs is handed every cleaned output of its loops, manufacturer first; any other device nothing
    ensures var mac := KnownMac(mgr.devices[k]);
            r.theengsUpdates ==
              if mgr.devices[k].theengs
              then Successes(decoder, ManufacturerInputs(mac, info), ManufacturerKeys) + Successes(decoder, ServiceInputs(mac, info), ServiceKeys)
              else []
  {
    var kr := KnownDevicePath(cfg, mgr, decoder, info, mgr.devices[k]);
    assert kr.mac == KnownMac(mgr.devices[k]) && kr.device.theengs == mgr.devices[k].theengs;
    AfterKnown(cfg, mgr, decoder, info, k, kr)
  }

  /** The whole handler. */
  function UpdateBleDevice(cfg: Config, mgr: Manager, decoder: Decoder, info: DeviceInfo): (r: Report)
    // a beacon is ignored entirely
    ensures IsBeacon(info) ==> r == Report(mgr, [], [], false, false, false)
    // only the first matching device changes, and nothing is added or removed
    ensures |r.manager.devices| == |mgr.devices|
    ensures forall j :: 0 <= j < |mgr.devices| && FirstMatch(mgr.devices, MatchKey(cfg, info)) != Some(j) ==>
              r.manager.devices[j] == mgr.devices[j]
    // the matched device takes the advertisement's name and signal strength
    ensures forall j :: 0 <= j < |mgr.devices| && !IsBeacon(info) && FirstMatch(mgr.devices, MatchKey(cfg, info)) == Some(j) ==>
              r.manager.devices[j] == Seen(mgr.devices[j], info)
    ensures r.manager.updating == mgr.updating && r.manager.listening == mgr.listening && r.manager.scanning == mgr.scanning
    // the refresh queue gains at most the matched device, and never a duplicate
    ensures r.manager.queue == mgr.queue ||
            (FirstMatch(mgr.devices, MatchKey(cfg, info)).Some? &&
             r.manager.queue == mgr.queue + [mgr.devices[FirstMatch(mgr.devices, MatchKey(cfg, info)).value].id])
    ensures NoDuplicates(mgr.queue) ==> NoDuplicates(r.manager.queue)
    // nothing is published without MQTT
    ensures !cfg.mqttAvailable ==> r.published == []
    ensures r.unknownPathRan ==> !cfg.appleOS && !IsBeacon(info)
    // without a matched device no parser receives anything
    ensures FirstMatch(mgr.devices, MatchKey(cfg, info)).None? ==> r.theengsUpdates == []
  {
    if IsBeacon(info) then Report(mgr, [], [], false, false, false)
    else
      match FirstMatch(mgr.devices, MatchKey(cfg, info))
      case Some(k) => AfterMatch(cfg, mgr, decoder, info, k)
      case None => Finish(cfg, mgr, decoder, info, [], [], false)
  }

  // ---------------------------------------------------------------------------
  // Properties of the handler

  /** After a successful decode the raw input fields are gone from the output. */
  lemma RawFieldsRemoved(decoder: Decoder, inputs: seq<Json.Object>, rawKeys: seq<string>)
    ensures forall o, k :: o in Successes(decoder, inputs, rawKeys) && k in rawKeys ==> k !in Json.Keys(o)
  {
    SuccessesMembers(decoder, inputs, rawKeys);
  }

  /** A cleaned object lacks every raw field of its loop. */
  lemma CleanedLacksRawKeys(decoder: Decoder, inputs: seq<Json.Object>, rawKeys: seq<string>, o: Json.Object)
    requires CleanedSuccess(decoder, inputs, rawKeys, o)
    ensures forall k :: k in rawKeys ==> k !in Json.Keys(o)
  {
    var i :| 0 <= i < |inputs| && decoder(inputs[i]).code >= 0 && o == Json.RemoveAll(decoder(inputs[i]).obj, rawKeys);
  }

  /** A message of the two loops run under `mac`: on that MAC's topic, its
      body the cleaned object of a successful decode of one of the loops and
      free of that loop's raw fields. */
  predicate LoopMessage(cfg: Config, decoder: Decoder, info: DeviceInfo, mac: string, m: Message) {
    && m.topic == Topic(cfg, mac)
    && ((CleanedSuccess(decoder, ManufacturerInputs(mac, info), ManufacturerKeys, m.body) &&
         "manufacturerdata" !in Json.Keys(m.body)) ||
        (CleanedSuccess(decoder, ServiceInputs(mac, info), ServiceKeys, m.body) &&
         "servicedata" !in Json.Keys(m.body) && "servicedatauuid" !in Json.Keys(m.body)))
  }

  /** Every message of a manufacturer loop run under `mac` is a loop message. */
  lemma ManufacturerLoopMessages(cfg: Config, decoder: Decoder, info: DeviceInfo, mac: string, publish: bool)
    ensures forall m :: m in DecodeLoop(decoder, ManufacturerInputs(mac, info), ManufacturerKeys, Topic(cfg, mac), publish).published ==>
              LoopMessage(cfg, decoder, info, mac, m)
  {
    var l := DecodeLoop(decoder, ManufacturerInputs(mac, info), ManufacturerKeys, Topic(cfg, mac), publish);
    forall m | m in l.published ensures LoopMessage(cfg, decoder, info, mac, m) {
      CleanedLacksRawKeys(decoder, ManufacturerInputs(mac, info), ManufacturerKeys, m.body);
    }
  }

  /** Every message of a service loop run under `mac` is a loop message. */
  lemma ServiceLoopMessages(cfg: Config, decoder: Decoder, info: DeviceInfo, mac: string, publish: bool)
    ensures forall m :: m in DecodeLoop(decoder, ServiceInputs(mac, info), ServiceKeys, Topic(cfg, mac), publish).published ==>
              LoopMessage(cfg, decoder, info, mac, m)
  {
    var l := DecodeLoop(decoder, ServiceInputs(mac, info), ServiceKeys, Topic(cfg, mac), publish);
    forall m | m in l.published ensures LoopMessage(cfg, decoder, info, mac, m) {
      CleanedLacksRawKeys(decoder, ServiceInputs(mac, info), ServiceKeys, m.body);
    }
  }

  /** The known device, as the handler leaves it, when one matches. */
  function MatchedDevice(cfg: Config, mgr: Manager, info: DeviceInfo): Option<Device> {
    match FirstMatch(mgr.devices, MatchKey(cfg, info))
    case Some(k) => Some(Seen(mgr.devices[k], info))
    case None => None
  }

  /** Lines 51-59: a known device matches exactly when some device's address
      equals the advertisement's device UUID on an Apple build, or its MAC
      address elsewhere; the first such device is the one the handler takes. */
  lemma MatchedDeviceRule(cfg: Config, mgr: Manager, info: DeviceInfo)
    ensures var key := if cfg.appleOS then info.deviceUuid else info.address;
            MatchedDevice(cfg, mgr, info).Some? <==> exists j :: 0 <= j < |mgr.devices| && mgr.devices[j].address == key
    ensures var key := if cfg.appleOS then info.deviceUuid else info.address;
            forall j :: 0 <= j < |mgr.devices| && mgr.devices[j].address == key ==>
              FirstMatch(mgr.devices, MatchKey(cfg, info)).Some? && FirstMatch(mgr.devices, MatchKey(cfg, info)).value <= j
  {
  }

  /** Some decode of the known-device path succeeds. */
  predicate KnownDecodes(decoder: Decoder, info: DeviceInfo, d: Device) {
    AnyDecodes(decoder, ManufacturerInputs(KnownMac(d), info)) || AnyDecodes(decoder, ServiceInputs(KnownMac(d), info))
  }

  /** Some decode of the unknown-device path succeeds. */
  predicate UnknownDecodes(decoder: Decoder, info: DeviceInfo) {
    AnyDecodes(decoder, ManufacturerInputs(info.address, info)) || AnyDecodes(decoder, ServiceInputs(info.address, info))
  }

  /** Lines 171-175 and 207: the handler stops after the known device when
      listening and the device is disabled, unconnected or a ThermoBeacon. */
  predicate StoppedEarly(cfg: Config, mgr: Manager, info: DeviceInfo) {
    MatchedDevice(cfg, mgr, info).Some? && StopsHandler(mgr.listening, MatchedDevice(cfg, mgr, info).value)
  }

  /** The unknown-device path runs exactly when the advertisement is not a
      beacon, the handler did not stop early, no known-device decode
      succeeded, and the platform is not Apple. */
  lemma UnknownPathRule(cfg: Config, mgr: Manager, decoder: Decoder, info: DeviceInfo)
    ensures UpdateBleDevice(cfg, mgr, decoder, info).unknownPathRan <==>
            && !IsBeacon(info)
            && !cfg.appleOS
            && !StoppedEarly(cfg, mgr, info)
            && (MatchedDevice(cfg, mgr, info).Some? ==> !KnownDecodes(decoder, info, MatchedDevice(cfg, mgr, info).value))
  {
  }

  /** `status` ends true exactly when some decode that ran succeeded; the
      publish result never matters. */
  lemma StatusRule(cfg: Config, mgr: Manager, decoder: Decoder, info: DeviceInfo)
    requires !IsBeacon(info)
    ensures UpdateBleDevice(cfg, mgr, decoder, info).status <==>
            (MatchedDevice(cfg, mgr, info).Some? && KnownDecodes(decoder, info, MatchedDevice(cfg, mgr, info).value)) ||
            (UpdateBleDevice(cfg, mgr, decoder, info).unknownPathRan && UnknownDecodes(decoder, info))
  {
  }

  /** `addBleDevice` is called exactly when scanning, unless the
      advertisement is a beacon or the handler stopped early. */
  lemma ScanRule(cfg: Config, mgr: Manager, decoder: Decoder, info: DeviceInfo)
    ensures UpdateBleDevice(cfg, mgr, decoder, info).addedToScan <==>
            !IsBeacon(info) && mgr.scanning && !StoppedEarly(cfg, mgr, info)
  {
    if !IsBeacon(info) {
      match FirstMatch(mgr.devices, MatchKey(cfg, info))
      case Some(k) =>
        var kr := KnownDevicePath(cfg, mgr, decoder, info, mgr.devices[k]);
        assert kr.stopped == StopsHandler(mgr.listening, Seen(mgr.devices[k], info));
      case None =>
    }
  }

  /** The matched device is pushed on the refresh queue exactly when every
      condition of the refresh rule holds; the queue is otherwise unchanged. */
  lemma QueueRule(cfg: Config, mgr: Manager, decoder: Decoder, info: DeviceInfo)
    ensures var r := UpdateBleDevice(cfg, mgr, decoder, info);
            r.manager.queue != mgr.queue <==>
            !IsBeacon(info) && MatchedDevice(cfg, mgr, info).Some? &&
            RefreshWanted(mgr.listening, MatchedDevice(cfg, mgr, info).value, mgr.queue, mgr.updating)
  {
  }

  /** Lines 96-97 and 148-149: only a matched `DeviceTheengs` is handed
      anything, and then every cleaned output of its loops, manufacturer
      records first. */
  lemma TheengsRule(cfg: Config, mgr: Manager, decoder: Decoder, info: DeviceInfo)
    ensures var d := MatchedDevice(cfg, mgr, info);
            UpdateBleDevice(cfg, mgr, decoder, info).theengsUpdates ==
              if !IsBeacon(info) && d.Some? && d.value.theengs
              then Successes(decoder, ManufacturerInputs(KnownMac(d.value), info), ManufacturerKeys) +
                   Successes(decoder, ServiceInputs(KnownMac(d.value), info), ServiceKeys)
              else []
  {
    if !IsBeacon(info) {
      match FirstMatch(mgr.devices, MatchKey(cfg, info))
      case Some(k) =>
        assert KnownMac(Seen(mgr.devices[k], info)) == KnownMac(mgr.devices[k]);
        assert UpdateBleDevice(cfg, mgr, decoder, info) == AfterMatch(cfg, mgr, decoder, info, k);
      case None =>
    }
  }

  /** Known-device messages go to the device's colon-free MAC, unknown-device
      messages to the advertisement's address as it is. */
  lemma TopicRule(cfg: Config, mgr: Manager, decoder: Decoder, info: DeviceInfo)
    ensures forall m :: m in UpdateBleDevice(cfg, mgr, decoder, info).published ==>
              m.topic == Topic(cfg, info.address) ||
              (MatchedDevice(cfg, mgr, info).Some? && m.topic == Topic(cfg, KnownMac(MatchedDevice(cfg, mgr, info).value)))
    ensures MatchedDevice(cfg, mgr, info).None? ==>
              forall m :: m in UpdateBleDevice(cfg, mgr, decoder, info).published ==> m.topic == Topic(cfg, info.address)
  {
  }

  /** Every message the matched device's loops send is a loop message of its MAC. */
  lemma KnownMessages(cfg: Config, mgr: Manager, decoder: Decoder, info: DeviceInfo, d: Device)
    ensures var kr := KnownDevicePath(cfg, mgr, decoder, info, d);
            forall m :: m in kr.manufacturer.published + kr.service.published ==> LoopMessage(cfg, decoder, info, KnownMac(d), m)
  {
    var kr := KnownDevicePath(cfg, mgr, decoder, info, d);
    ManufacturerLoopMessages(cfg, decoder, info, kr.mac, cfg.mqttAvailable && kr.mac != "");
    ServiceLoopMessages(cfg, decoder, info, kr.mac, cfg.mqttAvailable);
  }

  /** Every message of the unknown-device path is a loop message of the address. */
  lemma UnknownMessages(cfg: Config, decoder: Decoder, info: DeviceInfo)
    ensures forall m :: m in UnknownDevicePath(cfg, decoder, info).published ==> LoopMessage(cfg, decoder, info, info.address, m)
  {
    var mac := info.address;
    var topic := Topic(cfg, mac);
    var mu := DecodeLoop(decoder, ManufacturerInputs(mac, info), ManufacturerKeys, topic, cfg.mqttAvailable);
    var su := DecodeLoop(decoder, ServiceInputs(mac, info), ServiceKeys, topic, cfg.mqttAvailable);
    ManufacturerLoopMessages(cfg, decoder, info, mac, cfg.mqttAvailable);
    ServiceLoopMessages(cfg, decoder, info, mac, cfg.mqttAvailable);
    assert UnknownDevicePath(cfg, decoder, info).published == mu.published + su.published;
  }

  /** The messages of the matched device's loops, if a device matched. */
  function KnownPublished(cfg: Config, mgr: Manager, decoder: Decoder, info: DeviceInfo): seq<Message> {
    match FirstMatch(mgr.devices, MatchKey(cfg, info))
    case Some(k) =>
      var kr := KnownDevicePath(cfg, mgr, decoder, info, mgr.devices[k]);
      kr.manufacturer.published + kr.service.published
    case None => []
  }

  /** The handler sends the matched device's messages, then those of the
      unknown-device path when it ran, and nothing else. */
  lemma PublishedSplit(cfg: Config, mgr: Manager, decoder: Decoder, info: DeviceInfo)
    ensures var r := UpdateBleDevice(cfg, mgr, decoder, info);
            !IsBeacon(info) ==>
              r.published == KnownPublished(cfg, mgr, decoder, info) +
                             (if r.unknownPathRan then UnknownDevicePath(cfg, decoder, info).published else [])
  {
    if !IsBeacon(info) {
      match FirstMatch(mgr.devices, MatchKey(cfg, info))
      case Some(k) =>
        assert UpdateBleDevice(cfg, mgr, decoder, info) == AfterMatch(cfg, mgr, decoder, info, k);
      case None =>
    }
  }

  /** Every message the handler sends carries, on its MAC's topic, the
      cleaned object of a successful decode of the matched device's loops or
      of the unknown-device loops, and none carries its loop's raw fields. */
  lemma PublishedBodies(cfg: Config, mgr: Manager, decoder: Decoder, info: DeviceInfo)
    ensures var r := UpdateBleDevice(cfg, mgr, decoder, info);
            forall m :: m in r.published ==>
              (MatchedDevice(cfg, mgr, info).Some? && LoopMessage(cfg, decoder, info, KnownMac(MatchedDevice(cfg, mgr, info).value), m)) ||
              (r.unknownPathRan && LoopMessage(cfg, decoder, info, info.address, m))
  {
    if !IsBeacon(info) {
      PublishedSplit(cfg, mgr, decoder, info);
      UnknownMessages(cfg, decoder, info);
      match FirstMatch(mgr.devices, MatchKey(cfg, info))
      case Some(k) =>
        KnownMessages(cfg, mgr, decoder, info, mgr.devices[k]);
      case None =>
    }
  }

  /** With MQTT, the matched device's loops publish every successful decode
      (the manufacturer loop only under a non-empty MAC). */
  lemma KnownComplete(cfg: Config, mgr: Manager, decoder: Decoder, info: DeviceInfo, d: Device)
    requires cfg.mqttAvailable
    ensures var kr := KnownDevicePath(cfg, mgr, decoder, info, d);
            && AllPublished(decoder, ServiceInputs(KnownMac(d), info), ServiceKeys, Topic(cfg, KnownMac(d)), kr.service.published)
            && (KnownMac(d) != "" ==>
                  AllPublished(decoder, ManufacturerInputs(KnownMac(d), info), ManufacturerKeys, Topic(cfg, KnownMac(d)), kr.manufacturer.published))
  {
    var kr := KnownDevicePath(cfg, mgr, decoder, info, d);
    var mac := KnownMac(d);
    var topic := Topic(cfg, mac);
    assert kr.service == DecodeLoop(decoder, ServiceInputs(mac, info), ServiceKeys, topic, true);
    assert kr.manufacturer == DecodeLoop(decoder, ManufacturerInputs(mac, info), ManufacturerKeys, topic, mac != "");
  }

  /** With MQTT, the unknown-device path publishes every successful decode. */
  lemma UnknownComplete(cfg: Config, decoder: Decoder, info: DeviceInfo)
    requires cfg.mqttAvailable
    ensures var p := UnknownDevicePath(cfg, decoder, info).published;
            && AllPublished(decoder, ManufacturerInputs(info.address, info), ManufacturerKeys, Topic(cfg, info.address), p)
            && AllPublished(decoder, ServiceInputs(info.address, info), ServiceKeys, Topic(cfg, info.address), p)
  {
    var mac := info.address;
    var topic := Topic(cfg, mac);
    var mu := DecodeLoop(decoder, ManufacturerInputs(mac, info), ManufacturerKeys, topic, true);
    var su := DecodeLoop(decoder, ServiceInputs(mac, info), ServiceKeys, topic, true);
    var p := UnknownDevicePath(cfg, decoder, info).published;
    assert p == mu.published + su.published;
    AllPublishedAppend(decoder, ManufacturerInputs(mac, info), ManufacturerKeys, topic, mu.published, su.published);
    AllPublishedPrepend(decoder, ServiceInputs(mac, info), ServiceKeys, topic, mu.published, su.published);
  }

  /** With MQTT, every successful decode of the matched device's service
      loop, and of its manufacturer loop when its MAC is non-empty, has its
      cleaned object published. */
  lemma KnownPublishedComplete(cfg: Config, mgr: Manager, decoder: Decoder, info: DeviceInfo)
    ensures var r := UpdateBleDevice(cfg, mgr, decoder, info);
            cfg.mqttAvailable && !IsBeacon(info) && MatchedDevice(cfg, mgr, info).Some? ==>
              var mac := KnownMac(MatchedDevice(cfg, mgr, info).value);
              && AllPublished(decoder, ServiceInputs(mac, info), ServiceKeys, Topic(cfg, mac), r.published)
              && (mac != "" ==> AllPublished(decoder, ManufacturerInputs(mac, info), ManufacturerKeys, Topic(cfg, mac), r.published))
  {
    if cfg.mqttAvailable && !IsBeacon(info) {
      var r := UpdateBleDevice(cfg, mgr, decoder, info);
      var u := if r.unknownPathRan then UnknownDevicePath(cfg, decoder, info).published else [];
      PublishedSplit(cfg, mgr, decoder, info);
      match FirstMatch(mgr.devices, MatchKey(cfg, info))
      case Some(k) =>
        var d := mgr.devices[k];
        var kr := KnownDevicePath(cfg, mgr, decoder, info, d);
        var mac := KnownMac(d);
        assert KnownMac(Seen(d, info)) == mac;
        KnownComplete(cfg, mgr, decoder, info, d);
        var km, ks := kr.manufacturer.published, kr.service.published;
        assert r.published == (km + ks) + u;
        AllPublishedPrepend(decoder, ServiceInputs(mac, info), ServiceKeys, Topic(cfg, mac), km, ks);
        AllPublishedAppend(decoder, ServiceInputs(mac, info), ServiceKeys, Topic(cfg, mac), km + ks, u);
        if mac != "" {
          AllPublishedAppend(decoder, ManufacturerInputs(mac, info), ManufacturerKeys, Topic(cfg, mac), km, ks);
          AllPublishedAppend(decoder, ManufacturerInputs(mac, info), ManufacturerKeys, Topic(cfg, mac), km + ks, u);
        }
      case None =>
    }
  }

  /** With MQTT, when the unknown-device path runs every one of its
      successful decodes has its cleaned object published. */
  lemma UnknownPublishedComplete(cfg: Config, mgr: Manager, decoder: Decoder, info: DeviceInfo)
    ensures var r := UpdateBleDevice(cfg, mgr, decoder, info);
            cfg.mqttAvailable && r.unknownPathRan ==>
              && AllPublished(decoder, ManufacturerInputs(info.address, info), ManufacturerKeys, Topic(cfg, info.address), r.published)
              && AllPublished(decoder, ServiceInputs(info.address, info), ServiceKeys, Topic(cfg, info.address), r.published)
  {
    var r := UpdateBleDevice(cfg, mgr, decoder, info);
    if cfg.mqttAvailable && r.unknownPathRan {
      var mac := info.address;
      var kp := KnownPublished(cfg, mgr, decoder, info);
      var up := UnknownDevicePath(cfg, decoder, info).published;
      PublishedSplit(cfg, mgr, decoder, info);
      UnknownComplete(cfg, decoder, info);
      assert r.published == kp + up;
      AllPublishedPrepend(decoder, ManufacturerInputs(mac, info), ManufacturerKeys, Topic(cfg, mac), kp, up);
      AllPublishedPrepend(decoder, ServiceInputs(mac, info), ServiceKeys, Topic(cfg, mac), kp, up);
    }
  }

  /** Publishing more afterwards keeps everything already published ... */
  lemma AllPublishedAppend(decoder: Decoder, inputs: seq<Json.Object>, rawKeys: seq<string>, topic: string,
                           p: seq<Message>, after: seq<Message>)
    requires AllPublished(decoder, inputs, rawKeys, topic, p)
    ensures AllPublished(decoder, inputs, rawKeys, topic, p + after)
  {
  }

  /** ... and so does publishing more before. */
  lemma AllPublishedPrepend(decoder: Decoder, inputs: seq<Json.Object>, rawKeys: seq<string>, topic: string,
                            before: seq<Message>, p: seq<Message>)
    requires AllPublished(decoder, inputs, rawKeys, topic, p)
    ensures AllPublished(decoder, inputs, rawKeys, topic, before + p)
  {
  }

  /** An advertisement named after its own address, written with '-'
      instead of ':', is a beacon and leaves everything as it was; one
      character off and it is handled. */
  lemma BeaconExample(cfg: Config, mgr: Manager, decoder: Decoder)
    ensures var info := DeviceInfo("0A-1B", "0A:1B", "", -60, [], []);
            IsBeacon(info) && UpdateBleDevice(cfg, mgr, decoder, info) == Report(mgr, [], [], false, false, false)
    ensures !IsBeacon(DeviceInfo("0A-1B", "0A:1C", "", -60, [], []))
  {
    var r := TextUtil.ReplaceChar("0A-1B", '-', ':');
    assert r[0] == '0' && r[1] == 'A' && r[2] == ':' && r[3] == '1' && r[4] == 'B';
    assert r == "0A:1B";
  }
}
