/** The known-device side of DeviceManager::updateBleDevice
    (src/DeviceManager_advertisement.cpp): the device record the handler
    reads, the lookup of the first device with a matching address, and the
    rule that decides whether a device joins the refresh queue. */
module Devices {
  import opened Wrappers

  /** Identity of a device object (the handler compares pointers). */
  type DeviceId = nat

  /** What the handler reads from, or writes to, a known device. */
  datatype Device = Device(
    id: DeviceId,
    address: string,          // getAddress(): MAC, or the device UUID on Apple platforms
    addressMac: string,       // getAddressMAC()
    name: string,
    rssi: int,
    enabled: bool,            // isEnabled()
    bluetoothConnection: bool, // hasBluetoothConnection()
    needsUpdateRt: bool,
    errored: bool,            // isErrored()
    theengs: bool)            // the object is a DeviceTheengs

  predicate NoDuplicates(q: seq<DeviceId>) {
    forall i, j :: 0 <= i < j < |q| ==> q[i] != q[j]
  }

  /** Lines 51-60: the index of the first device whose address equals `key`. */
  function FirstMatch(devices: seq<Device>, key: string): (r: Option<nat>)
    ensures r.Some? ==> r.value < |devices| && devices[r.value].address == key
    ensures r.Some? ==> forall j :: 0 <= j < r.value ==> devices[j].address != key
    ensures r.None? <==> forall j :: 0 <= j < |devices| ==> devices[j].address != key
  {
    if devices == [] then None
    else if devices[0].address == key then Some(0)
    else
      match FirstMatch(devices[1..], key)
      case Some(k) => Some(k + 1)
      case None => None
  }

  /** Lines 173-175: while listening, a disabled device, one without a
      Bluetooth connection, or one named "ThermoBeacon" ends the handler. */
  predicate StopsHandler(listening: bool, d: Device) {
    listening && (!d.enabled || !d.bluetoothConnection || d.name == "ThermoBeacon")
  }

  /** The refresh rule as one condition: every check of lines 171-185 passes. */
  predicate RefreshWanted(listening: bool, d: Device, queue: seq<DeviceId>, updating: seq<DeviceId>) {
    && listening
    && d.enabled
    && d.bluetoothConnection
    && d.name != "ThermoBeacon"
    && d.needsUpdateRt
    && !d.errored
    && d.id !in queue
    && d.id !in updating
  }

  /** Lines 171-190, in the code's nested order: the device is pushed at the
      back of the queue, or the queue is left alone. */
  function QueueForRefresh(listening: bool, d: Device, queue: seq<DeviceId>, updating: seq<DeviceId>): (q: seq<DeviceId>)
    ensures q == queue || q == queue + [d.id]
    ensures q == queue + [d.id] <==> RefreshWanted(listening, d, queue, updating)
    ensures NoDuplicates(queue) ==> NoDuplicates(q)
    ensures forall x :: x in q ==> x in queue || x == d.id
  {
    if !listening then queue
    else if StopsHandler(listening, d) then queue
    else if d.needsUpdateRt && !d.errored then
      if d.id !in queue && d.id !in updating then queue + [d.id] else queue
    else queue
  }
}
