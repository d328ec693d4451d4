# Smart water meter relay — a Dafny model

This project models the core of a Django smart-water-meter backend. Pulse-counting
meters report over a WebSocket. Each report is stored as a water log whose volume
is the count divided by the device's pulse-to-liter factor. The device is answered
with the stored payload, and the same payload is pushed to every open browser
connection of every user who owns the device, through per-user channel-layer
groups (`user_<id>`). Around the relay sit the device and log models, the device
forms, the dashboard/claim/create views, and the custom user model with its
sign-up and profile forms.

Modules (one file each):

- `Common` — `Option`, the form-cleaning result `Cleaned`, Python truthiness of an
  optional string, and order-agnostic enumeration and filtering of collections.
- `UserModels` — the user account, its field defaults, its string form, its
  permission checks, and the username/e-mail/phone uniqueness invariant.
- `UserForms` — the sign-up form (password confirmation, saving with or without
  commit) and the profile-update form.
- `WaterModels` — devices, logs, the store `Db` with its invariant, the
  default factor, the derived volume, and cascade deletion.
- `WaterForms` — the claim form and the create form, with their checks and save.
- `ChannelLayer` — the group registry: add, discard.
- `Consumers` — the WebSocket consumer: connect, disconnect, receive and the
  group-event handler, as pure step functions on a `Relay` state (store, group
  registry, and the frames written so far).
- `WaterViews` — dashboard (online status, latest 20 logs), claim and create views.
- `RelayScenarios` — properties spanning several steps, and end-to-end walk-throughs.

Instants are integers in microseconds; the current time and a log's creation
time are parameters. The order in which the database lists a device's owners and
the order in which the channel layer walks a group's members are unspecified, so
the model picks an arbitrary enumeration and every contract speaks only of sets
and counts, never of that order.

## Model

| member | source | states |
|---|---|---|
| Consumers.Connect | django_backend/django_smart_water_meter/apps/water/cosumers.py:9-26 | an authenticated user's channel joins group `user_<id>` (and nothing else changes in the registry) and receives one "connected" frame welcoming them by username; an anonymous connection joins no group and receives the guest message |
| Consumers.Disconnect | django_backend/django_smart_water_meter/apps/water/cosumers.py:28-30 | a connection that joined a user group leaves exactly that group; one that joined none changes nothing |
| Consumers.ConnectThenDisconnect | django_backend/django_smart_water_meter/apps/water/cosumers.py:9-30 | connecting and then disconnecting restores the group registry when the channel was not already in the group |
| Consumers.GroupNameInjective | django_backend/django_smart_water_meter/apps/water/cosumers.py:13 | distinct users get distinct group names, so one user's broadcasts never reach another user's group |
| Consumers.HandleReceive | django_backend/django_smart_water_meter/apps/water/cosumers.py:32-75 | a frame lacking a truthy device_id or any count does nothing; an unknown device gets exactly one error frame naming the id; a known device has last_seen set, gets exactly one new log, the reporter is answered first, then one group send per owner; the store invariant is kept |
| Consumers.ReportStepReported | django_backend/django_smart_water_meter/apps/water/cosumers.py:40-69 | the report of a stored device stores one log with volume count / factor, answers `ok` with that payload, and sends it once to each owner's group and to no other group |
| Consumers.OwnerSendsFanOut | django_backend/django_smart_water_meter/apps/water/cosumers.py:64-69 | the per-owner loop emits one group send per owner, to that owner's group, each distinct, and every owner is covered |
| Consumers.OwnerSendsDistinct | django_backend/django_smart_water_meter/apps/water/cosumers.py:65-69 | the loop over distinct owners never emits the same group send twice |
| Consumers.GroupDeliveries | django_backend/django_smart_water_meter/apps/water/cosumers.py:77-78 | a group event writes one frame per current member, no channel twice, each frame the event's data unwrapped |
| Consumers.GroupDeliveriesReach | django_backend/django_smart_water_meter/apps/water/cosumers.py:77-78 | a group event reaches exactly the group's members and carries only the event's data |
| Consumers.PerformGroupSends | django_backend/django_smart_water_meter/apps/water/cosumers.py:65-69 | a run of group sends of one event reaches exactly the union of the addressed groups' members, each frame carrying that event's data |
| Consumers.FanOutAudience | django_backend/django_smart_water_meter/apps/water/cosumers.py:63-69 | a report's broadcasts reach a channel iff it is in the group of some owner of the device |
| Consumers.ReportFrames | django_backend/django_smart_water_meter/apps/water/cosumers.py:60-69 | the frames of a report: the `ok` frame to the reporter first, then the same payload to exactly the owners' group members |
| Consumers.ReportRelayed | django_backend/django_smart_water_meter/apps/water/cosumers.py:37-69 | a well-formed report for a stored device, through the whole relay, is stored, answered once and broadcast as `Relayed` states: the frames after the reply are exactly those of one group send per owner, with the group registry untouched |
| Consumers.Receive | django_backend/django_smart_water_meter/apps/water/cosumers.py:32-78 | one frame through the relay: malformed frames change nothing; unknown ids add one error frame to the reporter only; known ids update the store, write the reply once, then exactly the frames of one group send per owner (one frame per member of each owner's group); earlier frames are never altered |
| ChannelLayer.GroupAdd | django_backend/django_smart_water_meter/apps/water/cosumers.py:14 | the channel becomes a member of the group, no other group changes, and no empty group appears |
| ChannelLayer.GroupDiscard | django_backend/django_smart_water_meter/apps/water/cosumers.py:30 | the channel leaves the group, no other group changes, discarding a non-member is a no-op, and an emptied group is dropped |
| ChannelLayer.DiscardUndoesAdd | django_backend/django_smart_water_meter/apps/water/cosumers.py:14-30 | discarding undoes adding for a channel that was not a member |
| WaterModels.NewDevice | django_backend/django_smart_water_meter/apps/water/models.py:7-30 | a new device has no owners, has never been seen, and takes the factor 650.0 when none is given |
| WaterModels.Liters | django_backend/django_smart_water_meter/apps/water/models.py:60 | the volume times the factor equals the count; it is never negative, and zero exactly for a zero count |
| WaterModels.SaveLog | django_backend/django_smart_water_meter/apps/water/models.py:47-61 | a saved log keeps the device, count and creation time given, and its volume is always derived from the count and the device's current factor, never supplied |
| WaterModels.DeviceIdIsUnique | django_backend/django_smart_water_meter/apps/water/models.py:13-17 | in a valid store two devices with the same device_id are the same device |
| WaterModels.DeleteDevice | django_backend/django_smart_water_meter/apps/water/models.py:41-46 | deleting a device removes it and exactly its logs; every other log survives with its multiplicity, and the invariant is kept |
| WaterForms.DeviceExistsIffStored | django_backend/django_smart_water_meter/apps/water/forms.py:17 | in a valid store the existence query on device_id succeeds iff the id is stored |
| WaterForms.CleanDeviceId | django_backend/django_smart_water_meter/apps/water/forms.py:15-19 | the claim form's id check fails, with "does not exist", iff no stored device has the id; otherwise the id comes back unchanged |
| WaterForms.ValidateClaim | django_backend/django_smart_water_meter/apps/water/forms.py:5-19 | the claim form accepts an id iff it is non-empty, at most 100 characters, and stored |
| WaterForms.ValidateCreateAsWritten | django_backend/django_smart_water_meter/apps/water/forms.py:22-25 | the create form as declared accepts input iff the id is non-empty, at most 100 characters and unused, and the name at most 100 characters, with any factor |
| WaterForms.ZeroFactorAccepted | django_backend/django_smart_water_meter/apps/water/forms.py:22-25 | a zero factor passes the form as declared and leaves a stored device for which no volume exists for any positive count |
| WaterForms.ValidateCreate | django_backend/django_smart_water_meter/apps/water/forms.py:22-25 | the corrected create form accepts exactly what the declared form accepts with a positive factor |
| WaterForms.SaveCreateForm | django_backend/django_smart_water_meter/apps/water/forms.py:37-44 | with commit the device is stored and the given user becomes its only owner; without a user it has no owners; without commit nothing is stored; the store invariant is kept for a positive factor |
| WaterViews.OnlineWindow | django_backend/django_smart_water_meter/apps/water/views.py:8-19 | a device is online from its last report until just before 30 seconds have passed, and never if it never reported |
| WaterViews.OwnedDevices | django_backend/django_smart_water_meter/apps/water/views.py:12-16 | the devices listed are exactly those the signed-in user owns, and none for an anonymous visitor |
| WaterViews.SortNewestFirst | django_backend/django_smart_water_meter/apps/water/views.py:22 | ordering by creation time descending yields a newest-first permutation of the logs |
| WaterViews.Insert | django_backend/django_smart_water_meter/apps/water/views.py:22 | inserting into a newest-first sequence keeps it newest first and adds exactly the one log |
| WaterViews.LatestLogs | django_backend/django_smart_water_meter/apps/water/views.py:21-22 | the dashboard shows min(20, n) of the n logs of the listed devices, newest first, a sub-multiset of them, and no omitted log is newer than a shown one |
| WaterViews.LatestLogsShowNewest | django_backend/django_smart_water_meter/apps/water/views.py:21-22 | taking the first 20 of the logs of the listed devices, sorted newest first, meets the dashboard's promise |
| WaterViews.HeadKeepsNewest | django_backend/django_smart_water_meter/apps/water/views.py:22 | the first 20 of a newest-first ordering are its newest elements |
| WaterViews.LatestAreShown | django_backend/django_smart_water_meter/apps/water/views.py:22 | cutting a newest-first sequence keeps elements at least as new as every one cut off |
| WaterViews.Dashboard | django_backend/django_smart_water_meter/apps/water/views.py:11-27 | an anonymous visitor sees no devices and no logs; a user sees each owned device with its online flag, and the latest logs of exactly those devices |
| WaterViews.ClaimDevice | django_backend/django_smart_water_meter/apps/water/views.py:31-51 | anonymous visitors are redirected to login; a signed-in user's blank or invalid form re-renders the form with the store unchanged; a valid claim redirects to the dashboard with "already claimed" exactly when the user owns the device (store unchanged), and otherwise with "added", the user joining the device's owners and nothing else changing |
| WaterViews.ClaimIsIdempotent | django_backend/django_smart_water_meter/apps/water/views.py:39-45 | claiming twice leaves the store as claiming once, and after a successful claim the user owns the device |
| WaterViews.CreateDevice | django_backend/django_smart_water_meter/apps/water/views.py:55-68 | anonymous visitors are redirected to login; a signed-in user's blank or invalid form re-renders the form with the store unchanged; a valid one redirects to the dashboard and stores a never-seen device with exactly the submitted id, name and factor, owned by the user alone, leaving other devices and logs alone and keeping the store invariant |
| UserModels.NewUser | django_backend/django_smart_water_meter/apps/users/models.py:9-27 | a new account keeps its profile fields, is active, has no password yet, and has every permission and role flag off |
| UserModels.PermissionIgnoresQuestion | django_backend/django_smart_water_meter/apps/users/models.py:37-38 | the permission answer ignores the permission and object asked about and is yes exactly for admins and superusers |
| UserModels.ModulePermsAlwaysGranted | django_backend/django_smart_water_meter/apps/users/models.py:40-41 | every account sees every application |
| UserModels.FreshUserHasNoPerm | django_backend/django_smart_water_meter/apps/users/models.py:19-38 | a freshly created account holds no permission, and its string form is its username |
| UserModels.DisplayIdentifiesUser | django_backend/django_smart_water_meter/apps/users/models.py:13-35 | with unique usernames, two accounts with the same string form are the same account |
| UserForms.CleanPassword2 | django_backend/django_smart_water_meter/apps/users/forms.py:28-33 | confirmation fails with "Passwords don't match" iff both passwords are non-empty and differ; otherwise the confirmation is returned |
| UserForms.EmptyPasswordNeverMismatches | django_backend/django_smart_water_meter/apps/users/forms.py:31 | an empty or missing password never triggers the mismatch error |
| UserForms.SaveSignup | django_backend/django_smart_water_meter/apps/users/forms.py:35-40 | the saved account is the one built from the submitted profile, with the first password set and every flag at its default; with commit it is added, without commit the table is unchanged; the uniqueness invariant is kept |
| UserForms.AddKeepsUsersValid | django_backend/django_smart_water_meter/apps/users/models.py:13-15 | adding an account whose username, e-mail and phone are free keeps them unique |
| UserForms.UpdateProfile | django_backend/django_smart_water_meter/apps/users/forms.py:43-46 | a profile update changes only the five editable fields: username, id, password and flags stay |
| UserForms.SaveProfile | django_backend/django_smart_water_meter/apps/users/forms.py:43-46 | saving a profile update replaces that account by its updated form, leaves every other account alone, and keeps the uniqueness invariant |
| RelayScenarios.ReportKeepsDeviceOnline | django_backend/django_smart_water_meter/apps/water/views.py:19 | after a report received at `now` the device is online exactly until `now` plus 30 seconds |
| RelayScenarios.OwnerConnectionHearsReport | django_backend/django_smart_water_meter/apps/water/cosumers.py:12-69 | an owner who connects then hears every report for their device on that connection |
| RelayScenarios.ClosedConnectionHearsNothing | django_backend/django_smart_water_meter/apps/water/cosumers.py:28-69 | after disconnecting, a connection receives no broadcast |
| RelayScenarios.OneLiterScenario | django_backend/django_smart_water_meter/apps/water/cosumers.py:40-69 | 650 pulses on a default device are one liter, answered to the meter and pushed to its owner's browser and nowhere else |
| RelayScenarios.UnknownDeviceScenario | django_backend/django_smart_water_meter/apps/water/cosumers.py:71-75 | an unregistered id gets "Unknown device_id ZZZ" and nothing is stored or broadcast |
| RelayScenarios.ZeroCountScenario | django_backend/django_smart_water_meter/apps/water/cosumers.py:37 | a zero count is a real report: the device is marked seen and a zero-liter log is stored |
| RelayScenarios.MalformedThenValidScenario | django_backend/django_smart_water_meter/apps/water/cosumers.py:37 | a frame without a count leaves no trace: the next complete frame is handled as if it never came |

## Left out

- JSON decoding of frames: a frame is modelled as its already-decoded `device_id` and a non-negative integer `count`. Not modelled: malformed JSON (an uncaught exception closing the socket), a non-string `device_id`, and a `count` that is not a non-negative integer. For such counts `last_seen` has already been saved when things go wrong. A negative count fails the integer field's `>= 0` check on insert. A float count such as 2.5 is stored truncated to 2, with liters computed from 2.5, and the reply and broadcasts echo 2.5. A string count raises `TypeError` in the log's save, before any insert.
- Database errors other than a missing device (e.g. a `MultipleObjectsReturned` impossible under the unique id, connection failures) are not modelled.
- Atomicity and concurrency: the consumer's `last_seen` save and log creation are separate writes, and several consumers run concurrently. Each frame is modelled as one indivisible step.
- Floating point: volumes and factors are exact reals; rounding of `count / pulse_to_liter` is not modelled.
- Timestamps are integer microseconds; ISO-8601 formatting of `created_at` in the payload and time zones are left out. The clock is a parameter.
- JSON serialisation of frames and the `status` field are represented by the `Reply` datatype's constructors.
- The order of owners in the broadcast loop and of members in a group send is unspecified; contracts state only the sets reached and the counts.
- Template rendering, flash-message storage, URL routing, the admin site, the user views and admin, `UserManager` and password hashing: `password` holds the raw value handed to `set_password`.
- The base model's `created_at`/`updated_at` bookkeeping beyond the log's creation time.
- Field length and format checks of the user forms (100-character names, 14-character phone, e-mail syntax).
- Whitespace stripping of form text fields: WaterForms.ValidateClaim, WaterForms.ValidateCreateAsWritten and WaterForms.ValidateCreate take the `device_id` and name text as already stripped, which is what the existence and uniqueness checks see; the user forms' fields likewise.
- `Device.__str__` and `WaterLog.__str__` (display strings with two-decimal rounding).
- WaterModels.SaveLog: requires a positive factor. The source divides by whatever factor is stored, and a zero factor raises `ZeroDivisionError` (see Findings).
- WaterForms.SaveCreateForm: keeps the store invariant only for a positive factor, because the invariant demands one.
- WaterViews.CreateDevice: uses the corrected create form, which rejects a non-positive factor, instead of the form as declared (see Findings).

## Findings

| source | as written | input that shows it | evidently intended | confidence | as-written member | corrected member |
|---|---|---|---|---|---|---|
| django_backend/django_smart_water_meter/apps/water/forms.py:22-25 | the create form validates `pulse_to_liter` only as a float, so 0 and negative factors are accepted | create device `A1` with factor 0, then report any positive count: `count / pulse_to_liter` in the log's save divides by zero and the report fails; a negative factor stores negative volumes | only positive factors are accepted, so every report of a created device yields a non-negative volume | medium, not executed | WaterForms.ValidateCreateAsWritten, WaterForms.ZeroFactorAccepted | WaterForms.ValidateCreate, WaterViews.CreateDevice |
