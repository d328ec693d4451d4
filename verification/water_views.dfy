/** The web views around the relay: the dashboard (a user's devices with
    their online status and the latest logs of those devices), claiming an
    existing device, and creating a device. */
module WaterViews {
  import opened Common
  import opened UserModels
  import opened WaterModels
  import opened WaterForms

  /** How recently a device must have reported to count as online: 30
      seconds, in microseconds. */
  const OnlineThreshold: int := 30_000_000

  /** How many logs the dashboard shows at most. */
  const DashboardLogLimit: nat := 20

  /** A device is online when it has reported and less than the threshold
      has passed since. */
  predicate IsOnline(d: Device, now: int)
  {
    d.lastSeen.Some? && now - d.lastSeen.value < OnlineThreshold
  }

  /** The online window is half-open: a device is online from the instant it
      reports until just before 30 seconds have passed, and a device that
      never reported is never online. */
  lemma OnlineWindow(d: Device, seen: int, now: int)
    ensures d.lastSeen.None? ==> !IsOnline(d, now)
    ensures d.lastSeen == Some(seen) && seen <= now ==>
      (IsOnline(d, now) <==> now < seen + OnlineThreshold)
    ensures d.lastSeen == Some(seen) ==> !IsOnline(d, seen + OnlineThreshold)
  {
  }

  /** The ids of the devices `user` owns; nobody owns anything for an
      anonymous visitor. */
  function OwnedDevices(devices: map<string, Device>, user: Option<UserId>): (owned: set<string>)
    ensures user.None? ==> owned == {}
    ensures forall k :: k in owned <==> user.Some? && k in devices && user.value in devices[k].owners
  {
    if user.None? then {} else set k | k in devices && user.value in devices[k].owners
  }

  /** Logs ordered from newest to oldest. */
  ghost predicate NewestFirst(s: seq<WaterLog>)
  {
    forall i, j :: 0 <= i < j < |s| ==> s[i].createdAt >= s[j].createdAt
  }

  /** Inserts a log into a newest-first sequence. */
  function Insert(l: WaterLog, s: seq<WaterLog>): (r: seq<WaterLog>)
    requires NewestFirst(s)
    ensures NewestFirst(r)
    ensures multiset(r) == multiset(s) + multiset{l}
  {
    if s == [] then [l]
    else if l.createdAt >= s[0].createdAt then [l] + s
    else
      var rest := Insert(l, s[1..]);
      InsertBehindHead(l, s, rest);
      [s[0]] + rest
  }

  /** A log older than the head of a newest-first sequence goes behind it. */
  lemma InsertBehindHead(l: WaterLog, s: seq<WaterLog>, rest: seq<WaterLog>)
    requires s != [] && NewestFirst(s) && l.createdAt < s[0].createdAt
    requires NewestFirst(rest) && multiset(rest) == multiset(s[1..]) + multiset{l}
    ensures NewestFirst([s[0]] + rest)
    ensures multiset([s[0]] + rest) == multiset(s) + multiset{l}
  {
    assert s == [s[0]] + s[1..];
    forall x | x in rest
      ensures s[0].createdAt >= x.createdAt
    {
      assert x in multiset(rest);
      if x != l {
        assert x in multiset(s[1..]);
        var j :| 0 <= j < |s[1..]| && s[1..][j] == x;
        assert s[j + 1] == x;
      }
    }
    var r := [s[0]] + rest;
    forall i, j | 0 <= i < j < |r|
      ensures r[i].createdAt >= r[j].createdAt
    {
      if i == 0 {
        assert r[j] == rest[j - 1];
        assert r[j] in rest;
      } else {
        assert r[i] == rest[i - 1] && r[j] == rest[j - 1];
      }
    }
  }

  /** Orders logs newest first; logs made at the same instant may come in
      either order. */
  function SortNewestFirst(s: seq<WaterLog>): (r: seq<WaterLog>)
    ensures NewestFirst(r)
    ensures multiset(r) == multiset(s)
  {
    if s == [] then []
    else
      assert s == [s[0]] + s[1..];
      Insert(s[0], SortNewestFirst(s[1..]))
  }

  /** The logs of the given devices, in insertion order. */
  function LogsOf(logs: seq<WaterLog>, owned: set<string>): seq<WaterLog>
  {
    Filter(logs, (l: WaterLog) => l.deviceId in owned)
  }

  /** The dashboard: each owned device's online status, and the logs shown. */
  datatype DashboardPage = DashboardPage(online: map<string, bool>, logs: seq<WaterLog>)

  /** The latest logs of the given devices: at most 20, newest first, and
      none of those devices' logs left out is newer than a log shown. */
  function LatestLogs(logs: seq<WaterLog>, owned: set<string>): (shown: seq<WaterLog>)
    ensures |shown| == if |LogsOf(logs, owned)| < DashboardLogLimit then |LogsOf(logs, owned)| else DashboardLogLimit
    ensures forall l :: l in shown ==> l in logs && l.deviceId in owned
    ensures NewestFirst(shown)
    ensures multiset(shown) <= multiset(LogsOf(logs, owned))
    ensures forall l :: l in multiset(LogsOf(logs, owned)) - multiset(shown) ==>
      forall k :: k in shown ==> k.createdAt >= l.createdAt
  {
    LatestLogsShowNewest(logs, owned);
    Head(SortNewestFirst(LogsOf(logs, owned)))
  }

  /** The first 20 elements of a sequence, or all of a shorter one. */
  function Head(s: seq<WaterLog>): seq<WaterLog>
  {
    if |s| < DashboardLogLimit then s else s[..DashboardLogLimit]
  }

  lemma LatestLogsShowNewest(logs: seq<WaterLog>, owned: set<string>)
    ensures var matching := LogsOf(logs, owned);
      var shown := Head(SortNewestFirst(matching));
      && |shown| == (if |matching| < DashboardLogLimit then |matching| else DashboardLogLimit)
      && (forall l :: l in shown ==> l in logs && l.deviceId in owned)
      && NewestFirst(shown)
      && multiset(shown) <= multiset(matching)
      && (forall l :: l in multiset(matching) - multiset(shown) ==>
            forall k :: k in shown ==> k.createdAt >= l.createdAt)
  {
    var matching := LogsOf(logs, owned);
    HeadKeepsNewest(matching);
    var shown := Head(SortNewestFirst(matching));
    forall l | l in shown
      ensures l in logs && l.deviceId in owned
    {
      assert l in multiset(shown);
      assert l in multiset(matching);
    }
  }

  /** The first 20 of a sequence sorted newest first are its newest
      elements. */
  lemma HeadKeepsNewest(matching: seq<WaterLog>)
    ensures var shown := Head(SortNewestFirst(matching));
      && |shown| == (if |matching| < DashboardLogLimit then |matching| else DashboardLogLimit)
      && NewestFirst(shown)
      && multiset(shown) <= multiset(matching)
      && (forall l :: l in multiset(matching) - multiset(shown) ==>
            forall k :: k in shown ==> k.createdAt >= l.createdAt)
  {
    var sorted := SortNewestFirst(matching);
    assert |sorted| == |matching| by {
      assert |multiset(sorted)| == |multiset(matching)|;
    }
    var n := if |sorted| < DashboardLogLimit then |sorted| else DashboardLogLimit;
    assert Head(sorted) == sorted[..n];
    LatestAreShown(sorted, n);
  }

  /** Builds the dashboard of `user` at instant `now`: every owned device
      with its online status, and the latest logs of those devices. */
  function Dashboard(db: Db, user: Option<UserId>, now: int): (v: DashboardPage)
    ensures user.None? ==> v.online == map[] && v.logs == []
    ensures v.online.Keys == OwnedDevices(db.devices, user)
    ensures forall k :: k in v.online ==> v.online[k] == IsOnline(db.devices[k], now)
    ensures v.logs == LatestLogs(db.logs, v.online.Keys)
  {
    var owned := OwnedDevices(db.devices, user);
    var online := map k | k in owned :: IsOnline(db.devices[k], now);
    assert online.Keys == owned;
    DashboardPage(online, LatestLogs(db.logs, owned))
  }

  /** Cutting a newest-first sequence keeps its newest elements: every
      element cut off is no newer than every element kept. */
  lemma LatestAreShown(sorted: seq<WaterLog>, n: nat)
    requires NewestFirst(sorted) && n <= |sorted|
    ensures multiset(sorted[..n]) <= multiset(sorted)
    ensures forall l :: l in multiset(sorted) - multiset(sorted[..n]) ==>
      forall k :: k in sorted[..n] ==> k.createdAt >= l.createdAt
  {
    assert sorted == sorted[..n] + sorted[n..];
    forall l | l in multiset(sorted) - multiset(sorted[..n])
      ensures forall k :: k in sorted[..n] ==> k.createdAt >= l.createdAt
    {
      assert l in sorted[n..];
      var j :| n <= j < |sorted| && sorted[j] == l;
      forall k | k in sorted[..n]
        ensures k.createdAt >= l.createdAt
      {
        var i :| 0 <= i < n && sorted[i] == k;
      }
    }
  }

  /** A view request: showing the blank form, or submitting it. */
  datatype Request<T> = Get | Post(form: T)

  /** The one-shot notice shown after a redirect. */
  datatype Notice = AlreadyClaimed | DeviceAdded(deviceId: string) | DeviceCreated

  /** What a view answers with. */
  datatype Page = RedirectToLogin | RedirectToDashboard(notice: Notice) | ShowForm

  /** A view's answer and the store after it. */
  datatype Response = Response(db: Db, page: Page)

  /** Claims a stored device for the signed-in user. Anonymous visitors are
      sent to the login page; an invalid id or a blank form changes nothing;
      a device the user already owns stays as it is; otherwise the user joins
      the device's owners and nothing else changes. */
  ghost function ClaimDevice(db: Db, user: Option<UserId>, req: Request<string>): (r: Response)
    requires ValidDb(db)
    ensures ValidDb(r.db)
    ensures user.None? ==> r == Response(db, RedirectToLogin)
    ensures r.page == ShowForm ==> r.db == db
    ensures r.page.RedirectToDashboard? <==> user.Some? && req.Post? && ValidateClaim(db, req.form).Valid?
    ensures user.Some? && !(req.Post? && ValidateClaim(db, req.form).Valid?) ==> r == Response(db, ShowForm)
    ensures r.page.RedirectToDashboard? ==>
      && (r.page.notice.AlreadyClaimed? || r.page.notice.DeviceAdded?)
      && (r.page.notice.AlreadyClaimed? <==> user.value in db.devices[req.form].owners)
    ensures r.page == RedirectToDashboard(AlreadyClaimed) ==> r.db == db && user.value in db.devices[req.form].owners
    ensures r.page.RedirectToDashboard? && r.page.notice.DeviceAdded? ==>
      && r.page.notice.deviceId == req.form
      && user.value !in db.devices[req.form].owners
      && r.db.logs == db.logs
      && r.db.devices == db.devices[req.form := db.devices[req.form].(owners := db.devices[req.form].owners + {user.value})]
  {
    if user.None? then Response(db, RedirectToLogin)
    else match req
      case Get => Response(db, ShowForm)
      case Post(raw) =>
        match ValidateClaim(db, raw)
        case Invalid(_) => Response(db, ShowForm)
        case Valid(id) =>
          var device := db.devices[id];
          if user.value in device.owners then Response(db, RedirectToDashboard(AlreadyClaimed))
          else
            var claimed := device.(owners := device.owners + {user.value});
            Response(db.(devices := db.devices[id := claimed]), RedirectToDashboard(DeviceAdded(id)))
  }

  /** Claiming is idempotent: a second identical claim changes nothing, and
      after any successful claim the user owns the device. */
  lemma ClaimIsIdempotent(db: Db, user: UserId, raw: string)
    requires ValidDb(db)
    ensures var once := ClaimDevice(db, Some(user), Post(raw));
      && ClaimDevice(once.db, Some(user), Post(raw)).db == once.db
      && (once.page.RedirectToDashboard? ==> user in once.db.devices[raw].owners)
  {
    var once := ClaimDevice(db, Some(user), Post(raw));
    if ValidateClaim(db, raw).Valid? {
      assert once.db.devices.Keys == db.devices.Keys;
      assert user in once.db.devices[raw].owners;
      assert ValidateClaim(once.db, raw).Valid?;
    } else {
      assert once.db == db;
    }
  }

  /** Creates a device owned by the signed-in user. Anonymous visitors are
      sent to the login page; an invalid or blank form changes nothing; a
      valid one stores a new, never-seen device whose only owner is the
      user, and leaves every other device and all logs alone. */
  function CreateDevice(db: Db, user: Option<UserId>, req: Request<DeviceInput>): (r: Response)
    requires ValidDb(db)
    ensures ValidDb(r.db)
    ensures user.None? ==> r == Response(db, RedirectToLogin)
    ensures r.page == ShowForm ==> r.db == db
    ensures r.page.RedirectToDashboard? <==> user.Some? && req.Post? && ValidateCreate(db, req.form).Valid?
    ensures user.Some? && !(req.Post? && ValidateCreate(db, req.form).Valid?) ==> r == Response(db, ShowForm)
    ensures r.page.RedirectToDashboard? ==>
      var id := req.form.deviceId;
      && r.page.notice == DeviceCreated
      && id !in db.devices
      && r.db.logs == db.logs
      && r.db.devices.Keys == db.devices.Keys + {id}
      && (forall k :: k in db.devices ==> r.db.devices[k] == db.devices[k])
      && r.db.devices[id] == Device(id, req.form.name, req.form.pulseToLiter, None, {user.value})
      && req.form.pulseToLiter > 0.0
  {
    if user.None? then Response(db, RedirectToLogin)
    else match req
      case Get => Response(db, ShowForm)
      case Post(input) =>
        match ValidateCreate(db, input)
        case Invalid(_) => Response(db, ShowForm)
        case Valid(form) =>
          var saved := SaveCreateForm(db, form, user, true);
          Response(saved.db, RedirectToDashboard(DeviceCreated))
  }
}
