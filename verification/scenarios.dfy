/** Properties that span several relay steps or tie the relay to the views,
    and the end-to-end walk-throughs of the relay's intended behaviour. */
module RelayScenarios {
  import opened Common
  import opened UserModels
  import opened WaterModels
  import opened ChannelLayer
  import opened Consumers
  import opened WaterViews

  /** A report marks its device online for exactly the next 30 seconds,
      measured from the instant it was received. */
  lemma ReportKeepsDeviceOnline(r: Relay, s: Session, id: string, count: nat, now: int, createdAt: int, t: int)
    requires ValidDb(r.db) && id != "" && id in r.db.devices
    ensures var r' := Receive(r, s, Inbound(Some(id), Some(count)), now, createdAt);
      IsOnline(r'.db.devices[id], t) <==> t < now + OnlineThreshold
  {
  }

  /** A user who connects and then reports for a device they own hears the
      report on that connection too. */
  lemma OwnerConnectionHearsReport(r: Relay, c: Channel, owner: UserId, name: string, reporter: Session,
                                   id: string, count: nat, now: int, createdAt: int)
    requires ValidDb(r.db) && id != "" && id in r.db.devices && owner in r.db.devices[id].owners
    ensures var a := Connect(r, c, Authenticated(owner, name));
      var r' := Receive(a.relay, reporter, Inbound(Some(id), Some(count)), now, createdAt);
      c in Recipients(r'.outbox[|a.relay.outbox|..][1..])
  {
    var a := Connect(r, c, Authenticated(owner, name));
    assert c in Members(a.relay.groups, GroupName(owner));
  }

  /** Once a connection has closed, later reports never reach it, provided it
      had joined no group but its own. */
  lemma ClosedConnectionHearsNothing(r: Relay, s: Session, reporter: Session, m: Inbound, now: int, createdAt: int)
    requires ValidDb(r.db) && WellFormed(m) && m.deviceId.value in r.db.devices
    requires forall g :: Some(g) != s.userGroup ==> s.channel !in Members(r.groups, g)
    ensures var closed := Disconnect(r, s);
      var r' := Receive(closed, reporter, m, now, createdAt);
      s.channel !in Recipients(r'.outbox[|closed.outbox|..][1..])
  {
    var closed := Disconnect(r, s);
    forall g
      ensures s.channel !in Members(closed.groups, g)
    {
    }
  }

  /** A device `A1` with the default factor of 650 pulses per liter, owned by
      `alice` whose browser is connected, reports 650 pulses from an
      anonymous connection: the device is answered with one liter, and
      alice's connection, and only it, gets the same payload. */
  lemma OneLiterScenario(now: int, createdAt: int)
    ensures var a1 := NewDevice("A1", None, None).(owners := {"alice"});
      var r := Relay(Db(map["A1" := a1], []), map[GroupName("alice") := {"alice-browser"}], []);
      var r' := Receive(r, Session("meter", None), Inbound(Some("A1"), Some(650)), now, createdAt);
      var p := Payload("A1", 650, 1.0, createdAt);
      && r'.outbox[0] == Delivery("meter", Ok(p))
      && Recipients(r'.outbox[1..]) == {"alice-browser"}
      && (forall i :: 1 <= i < |r'.outbox| ==> r'.outbox[i].reply == Ok(p))
      && r'.db.logs == [WaterLog("A1", 650, 1.0, createdAt)]
  {
    var a1 := NewDevice("A1", None, None).(owners := {"alice"});
    var r := Relay(Db(map["A1" := a1], []), map[GroupName("alice") := {"alice-browser"}], []);
    assert ValidDb(r.db);
    var m := Inbound(Some("A1"), Some(650));
    var r' := Receive(r, Session("meter", None), m, now, createdAt);
    assert Relayed(r, "meter", "A1", 650, now, createdAt, r');
    var log := r'.db.logs[0];
    OneLiter(log.liters);
    assert r'.db.logs == [log];
    assert r'.outbox[0..] == r'.outbox;
    OnlyAliceListens(r.groups, a1.owners, Recipients(r'.outbox[1..]));
  }

  /** With alice the only owner and her browser the only member of her
      group, the browser is the whole audience. */
  lemma OnlyAliceListens(groups: Groups, owners: set<UserId>, audience: set<Channel>)
    requires groups == map[GroupName("alice") := {"alice-browser"}] && owners == {"alice"}
    requires forall c :: c in audience <==> exists o :: o in owners && c in Members(groups, GroupName(o))
    ensures audience == {"alice-browser"}
  {
    assert "alice-browser" in Members(groups, GroupName("alice"));
  }

  lemma OneLiter(x: real)
    requires x * 650.0 == 650.0
    ensures x == 1.0
  {
  }

  /** A report for a device nobody registered is answered with the error
      naming the id, and nothing is stored or broadcast. */
  lemma UnknownDeviceScenario(r: Relay, s: Session, now: int, createdAt: int)
    requires ValidDb(r.db) && "ZZZ" !in r.db.devices
    ensures var r' := Receive(r, s, Inbound(Some("ZZZ"), Some(10)), now, createdAt);
      && r'.db == r.db && r'.groups == r.groups
      && r'.outbox == r.outbox + [Delivery(s.channel, Error("Unknown device_id ZZZ"))]
  {
    assert UnknownDeviceMessage("ZZZ") == "Unknown device_id ZZZ";
  }

  /** A count of zero is a real report: the device is marked seen and a log
      of zero liters is stored. */
  lemma ZeroCountScenario(r: Relay, s: Session, id: string, now: int, createdAt: int)
    requires ValidDb(r.db) && id != "" && id in r.db.devices
    ensures var r' := Receive(r, s, Inbound(Some(id), Some(0)), now, createdAt);
      && r'.db.devices[id].lastSeen == Some(now)
      && r'.db.logs == r.db.logs + [WaterLog(id, 0, 0.0, createdAt)]
  {
    var r' := Receive(r, s, Inbound(Some(id), Some(0)), now, createdAt);
    assert Relayed(r, s.channel, id, 0, now, createdAt, r');
    ZeroCountStored(r.db, id, now, createdAt, r'.db);
  }

  lemma ZeroCountStored(db: Db, id: string, now: int, createdAt: int, db': Db)
    requires id in db.devices && db.devices[id].pulseToLiter > 0.0
    requires StoredReport(db, id, 0, now, createdAt, db')
    ensures db'.devices[id].lastSeen == Some(now)
    ensures db'.logs == db.logs + [WaterLog(id, 0, 0.0, createdAt)]
  {
    var log := db'.logs[|db.logs|];
    assert log.liters * db.devices[id].pulseToLiter == 0.0;
    assert log == WaterLog(id, 0, 0.0, createdAt);
    assert db'.logs == db'.logs[..|db.logs|] + [log];
  }

  /** A frame without a count is ignored, and the same connection's next,
      complete frame is handled as if the first had never come. */
  lemma MalformedThenValidScenario(r: Relay, s: Session, id: string, count: nat, now: int, createdAt: int)
    requires ValidDb(r.db)
    ensures var m := Inbound(Some(id), Some(count));
      Receive(Receive(r, s, Inbound(Some(id), None), now, createdAt), s, m, now, createdAt)
        == Receive(r, s, m, now, createdAt)
  {
  }
}
