/** The two device forms: claiming an existing device by its id, and
    creating a device, which the creating user then owns. */
module WaterForms {
  import opened Common
  import opened UserModels
  import opened WaterModels

  /** Why a device form was rejected. */
  datatype DeviceFormError =
    | Required          // the device id was left empty
    | TooLong           // a text field is longer than the schema allows
    | DoesNotExist      // no device has the id being claimed
    | AlreadyExists     // a device with the id being created is stored already
    | NotPositive       // the pulse-to-liter factor is zero or negative

  /** Whether some stored device carries this id: the query the claim form
      runs. */
  ghost predicate DeviceExists(devices: map<string, Device>, deviceId: string)
  {
    exists k :: k in devices && devices[k].deviceId == deviceId
  }

  /** In a valid store a device id exists exactly when it is a key. */
  lemma DeviceExistsIffStored(db: Db, deviceId: string)
    requires ValidDb(db)
    ensures DeviceExists(db.devices, deviceId) <==> deviceId in db.devices
  {
    if deviceId in db.devices {
      assert db.devices[deviceId].deviceId == deviceId;
    }
  }

  /** The claim form's own check: the id must name a stored device, and it
      comes back unchanged. */
  ghost function CleanDeviceId(devices: map<string, Device>, deviceId: string): (r: Cleaned<string, DeviceFormError>)
    ensures r.Invalid? <==> !DeviceExists(devices, deviceId)
    ensures r.Invalid? ==> r.error == DoesNotExist
    ensures r.Valid? ==> r.value == deviceId
  {
    if !DeviceExists(devices, deviceId) then Invalid(DoesNotExist) else Valid(deviceId)
  }

  /** The whole claim form: the id is required and at most 100 characters,
      and then must name a stored device. */
  ghost function ValidateClaim(db: Db, raw: string): (r: Cleaned<string, DeviceFormError>)
    requires ValidDb(db)
    ensures r.Valid? <==> raw != "" && |raw| <= DeviceIdMaxLength && raw in db.devices
    ensures r.Valid? ==> r.value == raw
    ensures raw == "" ==> r == Invalid(Required)
  {
    DeviceExistsIffStored(db, raw);
    if raw == "" then Invalid(Required)
    else if |raw| > DeviceIdMaxLength then Invalid(TooLong)
    else CleanDeviceId(db.devices, raw)
  }

  /** What the create form reads: exactly the id, the optional name and the
      factor; owners and `last_seen` are never taken from input. */
  datatype DeviceInput = DeviceInput(deviceId: string, name: Option<string>, pulseToLiter: real)

  /** The create form's checks as the form declares them: a non-empty id of
      at most 100 characters not used by any stored device, and a name of at
      most 100 characters. Any factor is accepted. */
  function ValidateCreateAsWritten(db: Db, input: DeviceInput): (r: Cleaned<DeviceInput, DeviceFormError>)
    ensures r.Valid? <==>
      && input.deviceId != ""
      && |input.deviceId| <= DeviceIdMaxLength
      && (input.name.Some? ==> |input.name.value| <= NameMaxLength)
      && input.deviceId !in db.devices
    ensures r.Valid? ==> r.value == input
  {
    if input.deviceId == "" then Invalid(Required)
    else if |input.deviceId| > DeviceIdMaxLength then Invalid(TooLong)
    else if input.name.Some? && |input.name.value| > NameMaxLength then Invalid(TooLong)
    else if input.deviceId in db.devices then Invalid(AlreadyExists)
    else Valid(input)
  }

  /** A device created with a factor of zero passes the form, and no volume
      can then be derived for any positive count it reports: saving its log
      divides by zero. */
  lemma ZeroFactorAccepted(count: nat, liters: real)
    requires count > 0
    ensures var input := DeviceInput("A1", None, 0.0);
      var saved := SaveCreateForm(Db(map[], []), input, None, true);
      && ValidateCreateAsWritten(Db(map[], []), input).Valid?
      && saved.db.devices["A1"].pulseToLiter == 0.0
      && !ValidDb(saved.db)
      && liters * saved.db.devices["A1"].pulseToLiter != count as real
  {
  }

  /** The create form's checks with the factor required to be positive, so
      that every stored device can convert a count into a volume. */
  function ValidateCreate(db: Db, input: DeviceInput): (r: Cleaned<DeviceInput, DeviceFormError>)
    ensures r.Valid? <==> ValidateCreateAsWritten(db, input).Valid? && input.pulseToLiter > 0.0
    ensures r.Valid? ==> r.value == input
    ensures r.Valid? ==> SaveCreateForm(db, input, None, true).device.pulseToLiter > 0.0
  {
    match ValidateCreateAsWritten(db, input)
    case Invalid(e) => Invalid(e)
    case Valid(v) => if v.pulseToLiter <= 0.0 then Invalid(NotPositive) else Valid(v)
  }

  /** The device a create form builds, and the store after saving it. */
  datatype SavedDevice = SavedDevice(db: Db, device: Device)

  /** Saves a validated create form. With `commit` the device is stored and
      the given user, if any, becomes its owner; without `commit` nothing is
      stored and nobody is added. */
  function SaveCreateForm(db: Db, input: DeviceInput, user: Option<UserId>, commit: bool): (r: SavedDevice)
    requires input.deviceId !in db.devices
    ensures r.device.deviceId == input.deviceId && r.device.name == input.name
    ensures r.device.pulseToLiter == input.pulseToLiter && r.device.lastSeen.None?
    ensures commit && user.Some? ==> r.device.owners == {user.value}
    ensures !commit || user.None? ==> r.device.owners == {}
    ensures commit ==> r.db.devices == db.devices[input.deviceId := r.device] && r.db.logs == db.logs
    ensures !commit ==> r.db == db
    ensures ValidDb(db) && input.pulseToLiter > 0.0 ==> ValidDb(r.db)
  {
    var device := NewDevice(input.deviceId, input.name, Some(input.pulseToLiter));
    if !commit then SavedDevice(db, device)
    else
      var owned := if user.Some? then device.(owners := {user.value}) else device;
      SavedDevice(db.(devices := db.devices[input.deviceId := owned]), owned)
  }
}
