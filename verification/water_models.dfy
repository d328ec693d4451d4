/** Devices and their water logs: the telemetry store the relay and the
    views read and write. The device table is keyed by `device_id`, which is
    therefore unique by construction; a log refers to its device by that key. */
module WaterModels {
  import opened Common
  import opened UserModels

  /** The conversion factor of a device created without one. */
  const DefaultPulseToLiter: real := 650.0

  /** The longest `device_id` the schema stores. */
  const DeviceIdMaxLength: nat := 100

  /** The longest device name the schema stores. */
  const NameMaxLength: nat := 100

  /** A pulse-counting meter. `lastSeen` is absent until the first report;
      instants are in microseconds. */
  datatype Device = Device(
    deviceId: string,
    name: Option<string>,
    pulseToLiter: real,
    lastSeen: Option<int>,
    owners: set<UserId>)

  /** One reported pulse count with the volume derived from it when saved. */
  datatype WaterLog = WaterLog(deviceId: string, count: nat, liters: real, createdAt: int)

  /** The persisted state: devices by `device_id`, and logs in insertion order. */
  datatype Db = Db(devices: map<string, Device>, logs: seq<WaterLog>)

  /** A device that has not been saved yet: no owners, never seen, and the
      default factor when none is given. */
  function NewDevice(deviceId: string, name: Option<string>, pulseToLiter: Option<real>): (d: Device)
    ensures d.deviceId == deviceId && d.name == name
    ensures d.owners == {} && d.lastSeen.None?
    ensures pulseToLiter.None? ==> d.pulseToLiter == DefaultPulseToLiter
    ensures pulseToLiter.Some? ==> d.pulseToLiter == pulseToLiter.value
  {
    Device(deviceId, name, if pulseToLiter.Some? then pulseToLiter.value else DefaultPulseToLiter, None, {})
  }

  /** The volume a pulse count stands for on a device with the given factor. */
  function Liters(count: nat, pulseToLiter: real): (liters: real)
    requires pulseToLiter > 0.0
    ensures liters * pulseToLiter == count as real
    ensures liters >= 0.0
    ensures count == 0 <==> liters == 0.0
  {
    count as real / pulseToLiter
  }

  /** Saving a log: the volume is always derived from the count and the
      device's factor as it is at that moment; no caller supplies it. */
  function SaveLog(device: Device, count: nat, createdAt: int): (log: WaterLog)
    requires device.pulseToLiter > 0.0
    ensures log.deviceId == device.deviceId && log.count == count && log.createdAt == createdAt
    ensures log.liters * device.pulseToLiter == count as real
  {
    WaterLog(device.deviceId, count, Liters(count, device.pulseToLiter), createdAt)
  }

  /** The store's invariants: each device is filed under its own id, every
      factor is positive, and every log belongs to a stored device. */
  ghost predicate ValidDb(db: Db)
  {
    && (forall k :: k in db.devices ==> db.devices[k].deviceId == k && db.devices[k].pulseToLiter > 0.0)
    && (forall i :: 0 <= i < |db.logs| ==> db.logs[i].deviceId in db.devices)
  }

  /** A single stored device with the given id: at most one record answers
      to any `device_id`. */
  lemma DeviceIdIsUnique(db: Db, d1: Device, d2: Device)
    requires ValidDb(db)
    requires d1 in db.devices.Values && d2 in db.devices.Values && d1.deviceId == d2.deviceId
    ensures d1 == d2
  {
    var k1 :| k1 in db.devices && db.devices[k1] == d1;
    var k2 :| k2 in db.devices && db.devices[k2] == d2;
  }

  /** Deleting a device deletes every one of its logs along with it. */
  function DeleteDevice(db: Db, deviceId: string): (r: Db)
    ensures r.devices.Keys == db.devices.Keys - {deviceId}
    ensures forall k :: k in r.devices ==> r.devices[k] == db.devices[k]
    ensures forall l :: l in r.logs <==> l in db.logs && l.deviceId != deviceId
    ensures forall l: WaterLog :: l.deviceId != deviceId ==> multiset(r.logs)[l] == multiset(db.logs)[l]
    ensures ValidDb(db) ==> ValidDb(r)
  {
    var logs := Filter(db.logs, (l: WaterLog) => l.deviceId != deviceId);
    assert forall i :: 0 <= i < |logs| ==> logs[i] in db.logs;
    Db(db.devices - {deviceId}, logs)
  }
}
