/** The WebSocket telemetry relay: one consumer per connection. A signed-in
    user's connection joins the group `user_<id>`; any connection may report
    a pulse count for a device, which is logged and then pushed to every
    owner's group. The relay is one value holding the telemetry store, the
    group registry and the outbox of frames written to connections, and each
    handler is a step function on it. */
module Consumers {
  import opened Common
  import opened UserModels
  import opened WaterModels
  import opened ChannelLayer

  /** Who opened a connection, as the authentication layer resolved it. */
  datatype Principal = Anonymous | Authenticated(id: UserId, username: string)

  /** One connection: its channel and, once a signed-in user joined, the group
      it joined. */
  datatype Session = Session(channel: Channel, userGroup: Option<string>)

  /** The body of a successful report; `timestamp` is the new log's instant. */
  datatype Payload = Payload(deviceId: string, count: nat, liters: real, timestamp: int)

  /** A JSON frame written to a connection, by its `status` field. */
  datatype Reply = Connected(message: string) | Ok(payload: Payload) | Error(message: string)

  /** The one event type sent through groups. */
  datatype Event = NewWaterLog(data: Payload)

  /** What a handler does, in order: write to its own connection, or send an
      event to a group. */
  datatype Action = Send(reply: Reply) | GroupSend(group: string, event: Event)

  /** A frame written to one connection. */
  datatype Delivery = Delivery(channel: Channel, reply: Reply)

  /** An already decoded inbound frame; an absent field is `None`. */
  datatype Inbound = Inbound(deviceId: Option<string>, count: Option<nat>)

  /** The whole relay: telemetry store, group registry, and every frame
      written so far in the order written. */
  datatype Relay = Relay(db: Db, groups: Groups, outbox: seq<Delivery>)

  /** A connection accepted: the relay after it and the new session. */
  datatype Accepted = Accepted(relay: Relay, session: Session)

  /** The store after a handler, and the actions it took. */
  datatype Handled = Handled(db: Db, actions: seq<Action>)

  /** The group of a signed-in user. */
  function GroupName(u: UserId): string
  {
    "user_" + u
  }

  /** Distinct users have distinct groups. */
  lemma GroupNameInjective(a: UserId, b: UserId)
    requires GroupName(a) == GroupName(b)
    ensures a == b
  {
    assert a == GroupName(a)[5..];
    assert b == GroupName(b)[5..];
  }

  function WelcomeMessage(username: string): string
  {
    "Welcome " + username + ", listening for your devices."
  }

  const GuestMessage: string := "Device or guest connected."

  function UnknownDeviceMessage(deviceId: string): string
  {
    "Unknown device_id " + deviceId
  }

  /** Accepts a connection. A signed-in user's channel joins that user's
      group and is greeted by name; any other connection joins nothing and
      gets the fixed guest greeting. */
  function Connect(r: Relay, c: Channel, p: Principal): (a: Accepted)
    ensures a.relay.db == r.db && a.session.channel == c
    ensures p.Authenticated? ==>
      && a.session.userGroup == Some(GroupName(p.id))
      && Members(a.relay.groups, GroupName(p.id)) == Members(r.groups, GroupName(p.id)) + {c}
      && (forall g :: g != GroupName(p.id) ==> Members(a.relay.groups, g) == Members(r.groups, g))
      && a.relay.outbox == r.outbox + [Delivery(c, Connected(WelcomeMessage(p.username)))]
    ensures p.Anonymous? ==>
      && a.session.userGroup.None?
      && a.relay.groups == r.groups
      && a.relay.outbox == r.outbox + [Delivery(c, Connected(GuestMessage))]
    ensures NoEmptyGroups(r.groups) ==> NoEmptyGroups(a.relay.groups)
  {
    match p
    case Authenticated(id, username) =>
      var g := GroupName(id);
      Accepted(Relay(r.db, GroupAdd(r.groups, g, c), r.outbox + [Delivery(c, Connected(WelcomeMessage(username)))]),
               Session(c, Some(g)))
    case Anonymous =>
      Accepted(r.(outbox := r.outbox + [Delivery(c, Connected(GuestMessage))]), Session(c, None))
  }

  /** Closes a connection: its channel leaves the group it joined, if any;
      no other group, no stored record and no frame changes. */
  function Disconnect(r: Relay, s: Session): (r': Relay)
    ensures r'.db == r.db && r'.outbox == r.outbox
    ensures s.userGroup.None? ==> r' == r
    ensures s.userGroup.Some? ==>
      && Members(r'.groups, s.userGroup.value) == Members(r.groups, s.userGroup.value) - {s.channel}
      && (forall g :: g != s.userGroup.value ==> Members(r'.groups, g) == Members(r.groups, g))
    ensures NoEmptyGroups(r.groups) ==> NoEmptyGroups(r'.groups)
  {
    match s.userGroup
    case Some(g) => r.(groups := GroupDiscard(r.groups, g, s.channel))
    case None => r
  }

  /** Connecting and then disconnecting leaves the registry as it was, for a
      channel that was not already in its user's group. */
  lemma ConnectThenDisconnect(r: Relay, c: Channel, p: Principal)
    requires NoEmptyGroups(r.groups)
    requires p.Authenticated? ==> c !in Members(r.groups, GroupName(p.id))
    ensures var a := Connect(r, c, p); Disconnect(a.relay, a.session).groups == r.groups
  {
    if p.Authenticated? {
      DiscardUndoesAdd(r.groups, GroupName(p.id), c);
    }
  }

  /** A frame is handled only when `device_id` is present and non-empty and
      `count` is present; a count of zero is fine. */
  predicate WellFormed(m: Inbound)
  {
    Truthy(m.deviceId) && m.count.Some?
  }

  /** The handler of a group event: the connection is sent the event's data
      as it is. */
  function OnNewWaterLog(e: Event): Reply
  {
    Ok(e.data)
  }

  /** One group event per user, each addressed to that user's group. */
  function OwnerSends(owners: seq<UserId>, e: Event): (acts: seq<Action>)
    ensures |acts| == |owners|
    ensures forall i :: 0 <= i < |acts| ==> acts[i] == GroupSend(GroupName(owners[i]), e)
  {
    seq(|owners|, i requires 0 <= i < |owners| => GroupSend(GroupName(owners[i]), e))
  }

  /** `acts` is exactly one group event `e` per owner: each action sends `e`
      to some owner's group, every owner's group is sent to, and no action
      is repeated. */
  ghost predicate FansOut(acts: seq<Action>, owners: set<UserId>, e: Event)
  {
    && |acts| == |owners|
    && (forall i :: 0 <= i < |acts| ==> SentToOwner(acts[i], owners, e))
    && (forall o :: o in owners ==> GroupSend(GroupName(o), e) in acts)
    && Distinct(acts)
  }

  /** `a` sends `e` to the group of one of the owners. */
  ghost predicate SentToOwner(a: Action, owners: set<UserId>, e: Event)
  {
    exists o :: o in owners && a == GroupSend(GroupName(o), e)
  }

  /** Sending one event to the group of each owner, enumerated in any order,
      fans out exactly once per owner. */
  lemma OwnerSendsFanOut(owners: set<UserId>, e: Event)
    ensures FansOut(OwnerSends(Enumerate(owners), e), owners, e)
  {
    var os := Enumerate(owners);
    OwnerSendsFromOwners(os, owners, e);
    OwnerSendsCoverOwners(os, owners, e);
    OwnerSendsDistinct(os, e);
  }

  /** Every send of the loop goes to the group of one of the owners listed. */
  lemma OwnerSendsFromOwners(os: seq<UserId>, owners: set<UserId>, e: Event)
    requires forall x :: x in os ==> x in owners
    ensures var acts := OwnerSends(os, e);
      forall i :: 0 <= i < |acts| ==> SentToOwner(acts[i], owners, e)
  {
    var acts := OwnerSends(os, e);
    forall i | 0 <= i < |acts|
      ensures SentToOwner(acts[i], owners, e)
    {
      assert os[i] in os;
    }
  }

  /** The loop sends to the group of every owner listed. */
  lemma OwnerSendsCoverOwners(os: seq<UserId>, owners: set<UserId>, e: Event)
    requires forall x :: x in owners ==> x in os
    ensures var acts := OwnerSends(os, e); forall o :: o in owners ==> GroupSend(GroupName(o), e) in acts
  {
    var acts := OwnerSends(os, e);
    forall o | o in owners
      ensures GroupSend(GroupName(o), e) in acts
    {
      var i :| 0 <= i < |os| && os[i] == o;
      assert acts[i] == GroupSend(GroupName(o), e);
    }
  }

  /** Distinct users get distinct group sends. */
  lemma OwnerSendsDistinct(os: seq<UserId>, e: Event)
    requires Distinct(os)
    ensures Distinct(OwnerSends(os, e))
  {
    var acts := OwnerSends(os, e);
    forall i, j | 0 <= i < j < |acts|
      ensures acts[i] != acts[j]
    {
      if acts[i] == acts[j] {
        GroupNameInjective(os[i], os[j]);
      }
    }
  }

  /** The telemetry handler, as the store changes and the actions it takes.
      A malformed frame does nothing. An unknown device gets an error frame
      and nothing else. A known device is marked seen, gets exactly one new
      log, and the reporter is answered before each owner's group is sent
      the same payload. */
  ghost function HandleReceive(db: Db, m: Inbound, now: int, createdAt: int): (h: Handled)
    requires ValidDb(db)
    ensures ValidDb(h.db)
    ensures !WellFormed(m) ==> h == Handled(db, [])
    ensures WellFormed(m) && m.deviceId.value !in db.devices ==>
      h == Handled(db, [Send(Error(UnknownDeviceMessage(m.deviceId.value)))])
    ensures WellFormed(m) && m.deviceId.value in db.devices ==>
      Reported(db, m.deviceId.value, m.count.value, now, createdAt, h)
  {
    if !WellFormed(m) then Handled(db, [])
    else
      var id := m.deviceId.value;
      if id !in db.devices then Handled(db, [Send(Error(UnknownDeviceMessage(id)))])
      else
        ReportStepReported(db, id, m.count.value, now, createdAt);
        ReportStep(db, id, m.count.value, now, createdAt)
  }

  /** The report of a stored device: mark it seen, save its log, answer the
      reporter, then send the payload to each owner's group. */
  ghost function ReportStep(db: Db, id: string, count: nat, now: int, createdAt: int): Handled
    requires ValidDb(db) && id in db.devices
  {
    var device := db.devices[id].(lastSeen := Some(now));
    var log := SaveLog(device, count, createdAt);
    var payload := Payload(device.deviceId, count, log.liters, log.createdAt);
    var sends := OwnerSends(Enumerate(device.owners), NewWaterLog(payload));
    Handled(Db(db.devices[id := device], db.logs + [log]), [Send(Ok(payload))] + sends)
  }

  lemma ReportStepReported(db: Db, id: string, count: nat, now: int, createdAt: int)
    requires ValidDb(db) && id in db.devices
    ensures ValidDb(ReportStep(db, id, count, now, createdAt).db)
    ensures Reported(db, id, count, now, createdAt, ReportStep(db, id, count, now, createdAt))
  {
    var h := ReportStep(db, id, count, now, createdAt);
    var d := db.devices[id];
    var device := d.(lastSeen := Some(now));
    var log := SaveLog(device, count, createdAt);
    var payload := Payload(id, count, log.liters, createdAt);
    var sends := OwnerSends(Enumerate(device.owners), NewWaterLog(payload));
    assert h == Handled(Db(db.devices[id := device], db.logs + [log]), [Send(Ok(payload))] + sends);
    assert h.db.logs[|db.logs|] == log;
    assert h.db.logs[..|db.logs|] == db.logs;
    assert log.liters * d.pulseToLiter == count as real;
    OwnerSendsFanOut(device.owners, NewWaterLog(payload));
    assert h.actions[1..] == sends;
  }

  /** The store effect of a report for the stored device `id`: its
      `last_seen` is set and no other device changes; exactly one log is
      appended, carrying the count and the count over the device's factor. */
  ghost predicate StoredReport(db: Db, id: string, count: nat, now: int, createdAt: int, db': Db)
    requires id in db.devices
  {
    var d := db.devices[id];
    && db'.devices == db.devices[id := d.(lastSeen := Some(now))]
    && |db'.logs| == |db.logs| + 1
    && db'.logs[..|db.logs|] == db.logs
    && var log := db'.logs[|db.logs|];
       && log.deviceId == id && log.count == count && log.createdAt == createdAt
       && log.liters * d.pulseToLiter == count as real
  }

  /** What a report for the stored device `id` must do: set its `last_seen`
      and nothing else in the device table, append one log whose volume is
      the count over the device's factor, answer the reporter with that log's
      payload, then send the same payload once to each owner's group. */
  ghost predicate Reported(db: Db, id: string, count: nat, now: int, createdAt: int, h: Handled)
    requires id in db.devices
  {
    && StoredReport(db, id, count, now, createdAt, h.db)
    && var p := Payload(id, count, h.db.logs[|db.logs|].liters, createdAt);
       && |h.actions| == 1 + |db.devices[id].owners|
       && h.actions[0] == Send(Ok(p))
       && FansOut(h.actions[1..], db.devices[id].owners, NewWaterLog(p))
  }

  /** The frames one action writes. A group send reaches every channel in
      the group at that moment, through the group-event handler. */
  ghost function Dispatch(groups: Groups, self: Channel, a: Action): seq<Delivery>
  {
    match a
    case Send(reply) => [Delivery(self, reply)]
    case GroupSend(g, e) => GroupDeliveries(groups, g, e)
  }

  /** The frames a group event writes: one per member, each carrying the
      event's data unwrapped. */
  ghost function GroupDeliveries(groups: Groups, g: string, e: Event): (ds: seq<Delivery>)
    ensures |ds| == |Members(groups, g)|
    ensures forall i :: 0 <= i < |ds| ==> ds[i].reply == Ok(e.data) && ds[i].channel in Members(groups, g)
    ensures forall c :: c in Members(groups, g) ==> exists i :: 0 <= i < |ds| && ds[i].channel == c
    ensures forall i, j :: 0 <= i < j < |ds| ==> ds[i].channel != ds[j].channel
  {
    var cs := Enumerate(Members(groups, g));
    var reply := OnNewWaterLog(e);
    var ds := seq(|cs|, i requires 0 <= i < |cs| => Delivery(cs[i], reply));
    assert forall i :: 0 <= i < |ds| ==> ds[i] == Delivery(cs[i], reply);
    assert forall i :: 0 <= i < |ds| ==> cs[i] in cs;
    assert forall c :: c in Members(groups, g) ==> c in cs;
    ds
  }

  /** The frames a sequence of actions writes, in order. */
  ghost function Perform(groups: Groups, self: Channel, acts: seq<Action>): seq<Delivery>
  {
    if acts == [] then [] else Dispatch(groups, self, acts[0]) + Perform(groups, self, acts[1..])
  }

  /** The channels a sequence of frames was written to. */
  ghost function Recipients(ds: seq<Delivery>): set<Channel>
  {
    set d | d in ds :: d.channel
  }

  /** Group events all carrying `e` write only `e`'s data, and reach exactly
      the members of the addressed groups. */
  lemma {:induction false} PerformGroupSends(groups: Groups, self: Channel, acts: seq<Action>, e: Event)
    requires forall i :: 0 <= i < |acts| ==> acts[i].GroupSend? && acts[i].event == e
    ensures forall d :: d in Perform(groups, self, acts) ==> d.reply == Ok(e.data)
    ensures forall c :: c in Recipients(Perform(groups, self, acts)) <==>
      exists i :: 0 <= i < |acts| && c in Members(groups, acts[i].group)
    decreases |acts|
  {
    if acts != [] {
      var rest := acts[1..];
      PerformGroupSends(groups, self, rest, e);
      var head := Dispatch(groups, self, acts[0]);
      var tail := Perform(groups, self, rest);
      assert Perform(groups, self, acts) == head + tail;
      GroupDeliveriesReach(groups, acts[0].group, e);
      RecipientsConcat(head, tail);
      forall c
        ensures c in Recipients(head + tail) <==> exists i :: 0 <= i < |acts| && c in Members(groups, acts[i].group)
      {
        AddressedSplit(groups, acts, c);
      }
    }
  }

  /** The channels of two runs of frames together are the channels of each. */
  lemma RecipientsConcat(a: seq<Delivery>, b: seq<Delivery>)
    ensures Recipients(a + b) == Recipients(a) + Recipients(b)
  {
  }

  /** A channel is in a group addressed by a non-empty run of group sends iff
      it is in the first one's group or in a group addressed by the rest. */
  lemma AddressedSplit(groups: Groups, acts: seq<Action>, c: Channel)
    requires acts != [] && forall i :: 0 <= i < |acts| ==> acts[i].GroupSend?
    ensures (exists i :: 0 <= i < |acts| && c in Members(groups, acts[i].group)) <==>
      (c in Members(groups, acts[0].group) ||
       exists i :: 0 <= i < |acts[1..]| && c in Members(groups, acts[1..][i].group))
  {
    var rest := acts[1..];
    if exists i :: 0 <= i < |rest| && c in Members(groups, rest[i].group) {
      var i :| 0 <= i < |rest| && c in Members(groups, rest[i].group);
      assert rest[i] == acts[i + 1];
    }
    if exists i :: 0 <= i < |acts| && c in Members(groups, acts[i].group) {
      var i :| 0 <= i < |acts| && c in Members(groups, acts[i].group);
      if i > 0 {
        assert acts[i] == rest[i - 1];
      }
    }
  }

  /** A group event reaches exactly the group's members. */
  lemma GroupDeliveriesReach(groups: Groups, g: string, e: Event)
    ensures Recipients(GroupDeliveries(groups, g, e)) == Members(groups, g)
    ensures forall d :: d in GroupDeliveries(groups, g, e) ==> d.reply == Ok(e.data)
  {
    var ds := GroupDeliveries(groups, g, e);
    forall c | c in Members(groups, g)
      ensures c in Recipients(ds)
    {
      var i :| 0 <= i < |ds| && ds[i].channel == c;
      assert ds[i] in ds;
    }
  }

  /** Group events that send `e` once to each owner's group write only `e`'s
      data, and reach exactly the channels in the owners' groups. */
  lemma FanOutAudience(groups: Groups, self: Channel, acts: seq<Action>, owners: set<UserId>, e: Event)
    requires FansOut(acts, owners, e)
    ensures forall d :: d in Perform(groups, self, acts) ==> d.reply == Ok(e.data)
    ensures forall c :: c in Recipients(Perform(groups, self, acts)) <==>
      exists o :: o in owners && c in Members(groups, GroupName(o))
  {
    forall i | 0 <= i < |acts|
      ensures acts[i].GroupSend? && acts[i].event == e
    {
      var o :| o in owners && acts[i] == GroupSend(GroupName(o), e);
    }
    PerformGroupSends(groups, self, acts, e);
    forall c
      ensures c in Recipients(Perform(groups, self, acts)) <==>
        exists o :: o in owners && c in Members(groups, GroupName(o))
    {
      if c in Recipients(Perform(groups, self, acts)) {
        var i :| 0 <= i < |acts| && c in Members(groups, acts[i].group);
        var o :| o in owners && acts[i] == GroupSend(GroupName(o), e);
        assert c in Members(groups, GroupName(o));
      }
      if exists o :: o in owners && c in Members(groups, GroupName(o)) {
        var o :| o in owners && c in Members(groups, GroupName(o));
        assert GroupSend(GroupName(o), e) in acts;
        var i :| 0 <= i < |acts| && acts[i] == GroupSend(GroupName(o), e);
        assert c in Members(groups, acts[i].group);
      }
    }
  }

  /** The relay after a handler: its store changes applied and the frames
      of its actions written; the registry is untouched. */
  ghost function Apply(r: Relay, self: Channel, h: Handled): Relay
  {
    Relay(h.db, r.groups, r.outbox + Perform(r.groups, self, h.actions))
  }

  /** What a report for the stored device `id` does to the relay: `last_seen`
      set and no other device touched, one log appended with the count over
      the device's factor, the `ok` frame written to the reporter first, then
      the same payload, unwrapped, to exactly the channels in the groups of
      the device's owners, and no group membership changed. The frames after
      the reply are exactly those of one group send per owner, so each
      channel gets the payload once per owner whose group it is in. */
  ghost predicate Relayed(r: Relay, self: Channel, id: string, count: nat, now: int, createdAt: int, r': Relay)
    requires id in r.db.devices
  {
    && StoredReport(r.db, id, count, now, createdAt, r'.db)
    && r'.groups == r.groups
    && |r'.outbox| > |r.outbox|
    && r'.outbox[..|r.outbox|] == r.outbox
    && var p := Payload(id, count, r'.db.logs[|r.db.logs|].liters, createdAt);
       var out := r'.outbox[|r.outbox|..];
       && out[0] == Delivery(self, Ok(p))
       && (forall i :: 1 <= i < |out| ==> out[i].reply == Ok(p))
       && (forall c :: c in Recipients(out[1..]) <==>
             exists o :: o in r.db.devices[id].owners && c in Members(r.groups, GroupName(o)))
       && (exists acts :: FansOut(acts, r.db.devices[id].owners, NewWaterLog(p))
                          && out[1..] == Perform(r.groups, self, acts))
  }

  /** One telemetry frame through the whole relay. A malformed frame changes
      nothing; an unknown device yields one error frame to the reporter and
      nothing else; a known device is `Relayed`. */
  ghost function Receive(r: Relay, s: Session, m: Inbound, now: int, createdAt: int): (r': Relay)
    requires ValidDb(r.db)
    ensures ValidDb(r'.db)
    ensures !WellFormed(m) ==> r' == r
    ensures WellFormed(m) && m.deviceId.value !in r.db.devices ==>
      r' == r.(outbox := r.outbox + [Delivery(s.channel, Error(UnknownDeviceMessage(m.deviceId.value)))])
    ensures WellFormed(m) && m.deviceId.value in r.db.devices ==>
      Relayed(r, s.channel, m.deviceId.value, m.count.value, now, createdAt, r')
  {
    var h := HandleReceive(r.db, m, now, createdAt);
    if !WellFormed(m) then r
    else if m.deviceId.value !in r.db.devices then
      var reply := Error(UnknownDeviceMessage(m.deviceId.value));
      assert Perform(r.groups, s.channel, h.actions) == [Delivery(s.channel, reply)] by {
        assert h.actions == [Send(reply)] && h.actions[1..] == [];
      }
      Apply(r, s.channel, h)
    else
      ReportRelayed(r, s.channel, m, now, createdAt);
      Apply(r, s.channel, h)
  }

  /** A report for a stored device, through the relay, is `Relayed`. */
  lemma ReportRelayed(r: Relay, self: Channel, m: Inbound, now: int, createdAt: int)
    requires ValidDb(r.db) && WellFormed(m) && m.deviceId.value in r.db.devices
    ensures Relayed(r, self, m.deviceId.value, m.count.value, now, createdAt,
                    Apply(r, self, HandleReceive(r.db, m, now, createdAt)))
  {
    var h := HandleReceive(r.db, m, now, createdAt);
    var r' := Apply(r, self, h);
    var d := r.db.devices[m.deviceId.value];
    var p := Payload(m.deviceId.value, m.count.value, h.db.logs[|r.db.logs|].liters, createdAt);
    assert Reported(r.db, m.deviceId.value, m.count.value, now, createdAt, h);
    ReportFrames(r.groups, self, h.actions, d.owners, p);
    var out := r'.outbox[|r.outbox|..];
    assert out == Perform(r.groups, self, h.actions);
    assert FansOut(h.actions[1..], d.owners, NewWaterLog(p)) && out[1..] == Perform(r.groups, self, h.actions[1..]);
  }

  /** The frames of a report: the `ok` frame to the reporter, then the same
      payload to exactly the members of the owners' groups. */
  lemma ReportFrames(groups: Groups, self: Channel, acts: seq<Action>, owners: set<UserId>, p: Payload)
    requires |acts| >= 1 && acts[0] == Send(Ok(p)) && FansOut(acts[1..], owners, NewWaterLog(p))
    ensures var out := Perform(groups, self, acts);
      && |out| >= 1 && out[0] == Delivery(self, Ok(p))
      && out[1..] == Perform(groups, self, acts[1..])
      && (forall i :: 1 <= i < |out| ==> out[i].reply == Ok(p))
      && (forall c :: c in Recipients(out[1..]) <==>
            exists o :: o in owners && c in Members(groups, GroupName(o)))
  {
    var rest := acts[1..];
    var out := Perform(groups, self, acts);
    assert out == [Delivery(self, Ok(p))] + Perform(groups, self, rest);
    assert out[1..] == Perform(groups, self, rest);
    FanOutAudience(groups, self, rest, owners, NewWaterLog(p));
    forall i | 1 <= i < |out|
      ensures out[i].reply == Ok(p)
    {
      assert out[i] in out[1..];
    }
  }
}
