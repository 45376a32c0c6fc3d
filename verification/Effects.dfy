/** What each portal transaction does and when it is refused, said row by row, with the conditions
    and comparisons written out. */
module Effects {
  import opened Base
  import opened Policy
  import opened Catalog
  import opened Network
  import opened Snapshots
  import opened Deliveries
  import opened Portal
  import Records

  // ---- rows before and after -------------------------------------------

  /** The device has lost its stored key, and nothing else. */
  predicate KeyDropped(d: Device, e: Device) {
    && (e.user, e.name, e.key, e.host, e.state, e.version) == (d.user, d.name, d.key, d.host, d.state, d.version)
    && e.delivery == if d.delivery.None? then None
                     else Some(Delivery(None, d.delivery.value.expires, d.delivery.value.consumed))
  }

  /** The device was revoked, one version later, and has lost its stored key. */
  predicate DeviceEnded(d: Device, e: Device) {
    && (e.state, e.version) == (DeviceRevoked, d.version + 1)
    && KeyDropped(d, e.(state := d.state, version := d.version))
  }

  /** The grant ended in this state, one version later, with one history row, its route kept. */
  predicate GrantEnded(g: Grant, h: Grant, state: GrantState) {
    && (h.device, h.target, h.place, h.expires) == (g.device, g.target, g.place, g.expires)
    && (h.state, h.version) == (state, g.version + 1)
    && h.rows == g.rows + [GrantRow(state, g.place, g.expires)]
  }

  /** Exactly the devices `gone` were revoked, those already revoked lost their keys only, exactly
      their pending and approved grants were revoked, and nothing else of the network changed. */
  ghost predicate Gone(net: Net, after: Net, gone: set<nat>) {
    && after.targets == net.targets && after.status == net.status && after.released == net.released
    && |after.devices| == |net.devices| && |after.grants| == |net.grants|
    && (forall i :: 0 <= i < |net.devices| ==>
          if i !in gone then after.devices[i] == net.devices[i]
          else if net.devices[i].state == DeviceRevoked then KeyDropped(net.devices[i], after.devices[i])
          else DeviceEnded(net.devices[i], after.devices[i]))
    && (forall i :: 0 <= i < |net.grants| ==>
          if net.grants[i].device in gone && (net.grants[i].state == Pending || net.grants[i].state == Approved)
          then GrantEnded(net.grants[i], after.grants[i], Revoked)
          else after.grants[i] == net.grants[i])
  }

  /** Exactly the approved grants whose time has come ended as expired, and nothing else of grants
      changed; devices at most lost keys, exactly when the download's time has come, or the device
      is revoked, or its owner disabled. */
  ghost predicate Swept(db: Db, after: Net, grants: seq<Grant>) {
    var net := db.net;
    && after.targets == net.targets && after.status == net.status && after.released == net.released
    && |after.devices| == |net.devices| && |grants| == |net.grants|
    && (forall i :: 0 <= i < |net.devices| ==>
          var d := net.devices[i];
          if d.delivery.Some? && (d.delivery.value.expires <= db.clock || d.state == DeviceRevoked
                                  || (d.user < |db.people| && !db.people[d.user].enabled))
          then KeyDropped(d, after.devices[i]) else after.devices[i] == d)
    && (forall i :: 0 <= i < |net.grants| ==>
          var g := net.grants[i];
          if g.state == Approved && !(g.expires.Some? && g.expires.value > db.clock)
          then GrantEnded(g, grants[i], Expired) else grants[i] == g)
  }

  /** The record ended in this state, one version later, with one history row and an open follow-up. */
  predicate RecordEnded(r: Record, s: Record, state: RecordState) {
    && (s.user, s.service, s.granted, s.expires) == (r.user, r.service, r.granted, r.expires)
    && (s.state, s.version) == (state, r.version + 1)
    && s.rows == r.rows + [RecordRow(state, r.granted, r.expires)]
    && s.followups == if true in r.followups then r.followups else r.followups + [true]
  }

  /** Only the network changed, or only the access records. */
  predicate OnlyNet(db: Db, after: Db) {
    after == db.(net := after.net)
  }

  predicate OnlyRecords(db: Db, after: Db) {
    after == db.(records := after.records)
  }

  // ---- devices ---------------------------------------------------------

  lemma RetireMeans(net: Net, gone: set<nat>)
    ensures Gone(net, Retire(net, gone), gone)
  {
    hide KeyDropped, DeviceEnded, GrantEnded, Emptied, Close;
    forall i | 0 <= i < |net.devices| && i in gone
      ensures if net.devices[i].state == DeviceRevoked then KeyDropped(net.devices[i], Retire(net, gone).devices[i])
              else DeviceEnded(net.devices[i], Retire(net, gone).devices[i])
    {
      EmptiedMeans(net.devices[i]);
    }
    forall i | 0 <= i < |net.grants|
      ensures GrantEnded(net.grants[i], Close(net.grants[i], Revoked, ByDevice), Revoked)
    {
      ClosedMeans(net.grants[i], Revoked, ByDevice);
    }
  }

  lemma EmptiedMeans(d: Device)
    ensures KeyDropped(d, Emptied(d))
    ensures DeviceEnded(d, Emptied(d).(state := DeviceRevoked, version := d.version + 1))
  {
  }

  lemma ClosedMeans(g: Grant, state: GrantState, closing: Closing)
    ensures GrantEnded(g, Close(g, state, closing), state)
  {
  }

  /** Revoking a device: by its owner or an administrator, at the version seen, once. It ends with
      its key and its open grants, and nothing else changes. */
  lemma RevocationMeans(db: Db, op: Op)
    requires op.RevokeDevice?
    ensures Apply(db, op).Ok? <==>
      && op.id < |db.net.devices| && db.net.devices[op.id].version == op.version
      && db.net.devices[op.id].state != DeviceRevoked
      && (op.u.role == Admin || db.net.devices[op.id].user == op.u.id)
    ensures Apply(db, op).Ok? ==> var after := Apply(db, op).value;
      && OnlyNet(db, after) && Gone(db.net, after.net, {op.id})
      && after.net.devices[op.id].state == DeviceRevoked && NoSecret(after.net.devices[op.id])
  {
    hide Retire, Gone;
    if Apply(db, op).Ok? {
      RetireMeans(db.net, {op.id});
      EndedAt(db.net, Retire(db.net, {op.id}), {op.id}, op.id);
    }
  }

  lemma EndedAt(net: Net, after: Net, gone: set<nat>, id: nat)
    requires Gone(net, after, gone) && id in gone && id < |net.devices|
    ensures id < |after.devices| && after.devices[id].state == DeviceRevoked && NoSecret(after.devices[id])
  {
  }

  /** The member's devices that are not revoked. */
  function CurrentOf(devices: seq<Device>, user: nat): set<nat> {
    set i | 0 <= i < |devices| && devices[i].user == user && devices[i].state != DeviceRevoked
  }

  lemma {:induction false} CurrentCounted(devices: seq<Device>, user: nat)
    ensures CurrentDevices(devices, user) == |CurrentOf(devices, user)|
  {
    if devices != [] {
      var last := |devices| - 1;
      CurrentCounted(devices[..last], user);
      var d := devices[last];
      if d.user == user && d.state != DeviceRevoked {
        assert CurrentOf(devices, user) == CurrentOf(devices[..last], user) + {last};
      } else {
        assert CurrentOf(devices, user) == CurrentOf(devices[..last], user);
      }
    }
  }

  /** Enrolment: for an enabled member with fewer than ten current devices, under a key no device
      ever had, at the least address from 2 to 254 no device ever had. */
  ghost predicate MayEnrol(net: Net, people: seq<User>, user: nat, key: string) {
    && user < |people| && people[user].enabled && |CurrentOf(net.devices, user)| < 10
    && (exists h :: 2 <= h <= 254 && FreeAt(net.devices, h))
    && forall i :: 0 <= i < |net.devices| ==> net.devices[i].key != key
  }

  predicate FreeAt(devices: seq<Device>, host: int) {
    forall i :: 0 <= i < |devices| ==> devices[i].host != host
  }

  predicate LeastFree(devices: seq<Device>, host: int) {
    2 <= host <= 254 && FreeAt(devices, host) && forall h :: 2 <= h < host ==> !FreeAt(devices, h)
  }

  lemma EnrollExactly(net: Net, people: seq<User>, u: Actor, name: string, key: string)
    ensures Enroll(net, people, u, name, key).Ok? <==> MayEnrol(net, people, u.id, key)
    ensures Enroll(net, people, u, name, key).Ok? ==> var after := Enroll(net, people, u, name, key).value;
      && after == net.(devices := after.devices) && |after.devices| == |net.devices| + 1
      && after.devices[..|net.devices|] == net.devices
      && var d := after.devices[|net.devices|];
         && d == Device(u.id, name, key, d.host, DeviceRequested, 1, None) && LeastFree(net.devices, d.host)
  {
    hide FreeHost, CurrentDevices;
    CurrentCounted(net.devices, u.id);
    FreeHostIsFree(net.devices, 2);
    var host := FreeHost(net.devices, 2);
    forall h: int ensures HostUsed(net.devices, h) <==> !FreeAt(net.devices, h) {}
    if host.Some? {
      assert FreeAt(net.devices, host.value);
    }
  }

  lemma EnrolmentMeans(db: Db, op: Op)
    requires op.EnrollDevice?
    ensures Apply(db, op).Ok? <==> ValidKey(op.key) && MayEnrol(db.net, db.people, op.u.id, op.key)
    ensures Apply(db, op).Ok? ==> var after := Apply(db, op).value;
      && OnlyNet(db, after) && after.net == db.net.(devices := after.net.devices)
      && |after.net.devices| == |db.net.devices| + 1 && after.net.devices[..|db.net.devices|] == db.net.devices
      && var d := after.net.devices[|db.net.devices|];
         && d == Device(op.u.id, op.name, op.key, d.host, DeviceRequested, 1, None) && LeastFree(db.net.devices, d.host)
  {
    hide Enroll, MayEnrol, LeastFree, ValidKey;
    EnrollExactly(db.net, db.people, op.u, op.name, op.key);
  }

  // ---- expiry and requests ---------------------------------------------

  lemma ExpireMeans(db: Db)
    ensures Swept(db, Expire(db.net, db.people, db.clock), Expire(db.net, db.people, db.clock).grants)
  {
  }

  /** Reconciliation ends what is overdue and nothing else: approvals whose time has not come stay
      as they are, the live approvals are the same, every covered pair stays covered and none is
      added, and the policy of the moment is the same. */
  lemma ReconciliationMeans(db: Db)
    requires Inv(db)
    ensures Apply(db, Op.Reconcile).Ok?
    ensures var after := Apply(db, Op.Reconcile).value;
      && after == db.(net := after.net, records := after.records)
      && Swept(db, after.net, after.net.grants)
      && LiveGrants(after.net.grants, db.clock) == LiveGrants(db.net.grants, db.clock)
      && OverdueEnded(db.records, after.records, db.clock)
      && (forall user: nat, service: nat ::
            Held(after.records, user, service, db.clock) == Held(db.records, user, service, db.clock))
      && after.Current() == db.Current()
  {
    hide Inv, Swept, Good, Expire, Held, OverdueEnded, SnapshotOf, LiveGrants;
    ExpireMeans(db);
    var after := Apply(db, Op.Reconcile).value;
    OverdueMeans(db.records, db.clock);
    SweptLive(db, after.net);
    forall user: nat, service: nat
      ensures Held(after.records, user, service, db.clock) == Held(db.records, user, service, db.clock)
    {
      SameCover(db.records, after.records, db.clock, user, service);
    }
    SamePolicy(db, after);
  }

  /** Exactly the active records whose time has come ended as expired. */
  ghost predicate OverdueEnded(records: seq<Record>, after: seq<Record>, now: Time) {
    |after| == |records| && forall i :: 0 <= i < |records| ==>
      var r := records[i];
      if r.state == RecordActive && r.expires.Some? && r.expires.value <= now
      then RecordEnded(r, after[i], RecordExpired) else after[i] == r
  }

  lemma OverdueMeans(records: seq<Record>, now: Time)
    ensures OverdueEnded(records, Records.ExpireRecords(records, now), now)
  {
  }

  lemma SweptLive(db: Db, after: Net)
    requires Swept(db, after, after.grants)
    ensures LiveGrants(after.grants, db.clock) == LiveGrants(db.net.grants, db.clock)
  {
  }

  lemma SameCover(records: seq<Record>, after: seq<Record>, now: Time, user: nat, service: nat)
    requires OverdueEnded(records, after, now)
    ensures Held(after, user, service, now) == Held(records, user, service, now)
  {
    if i :| 0 <= i < |records| && HeldBy(records[i], user, service, now) {
      assert HeldBy(after[i], user, service, now);
    }
    if i :| 0 <= i < |after| && HeldBy(after[i], user, service, now) {
      assert HeldBy(records[i], user, service, now);
    }
  }

  /** A sweep changes no selected grant, and of devices nothing that is in the policy. */
  lemma SamePolicy(db: Db, after: Db)
    requires Swept(db, after.net, after.net.grants)
    requires (after.clock, after.people, after.services) == (db.clock, db.people, db.services)
    ensures after.Current() == db.Current()
  {
    hide Swept, PeersOf;
    SweptLengths(db, after.net);
    SamePeers(db, after, |db.net.devices|);
  }

  lemma SweptLengths(db: Db, after: Net)
    requires Swept(db, after, after.grants)
    ensures |after.devices| == |db.net.devices| && |after.grants| == |db.net.grants|
  {
  }

  lemma {:induction false} SamePeers(db: Db, after: Db, m: nat)
    requires Swept(db, after.net, after.net.grants) && m <= |db.net.devices| == |after.net.devices|
    requires (after.clock, after.people, after.services) == (db.clock, db.people, db.services)
    ensures PeersOf(after.Joined(), db.clock, m) == PeersOf(db.Joined(), db.clock, m)
  {
    hide RulesOf;
    if m > 0 {
      SamePeers(db, after, m - 1);
      SameRules(db, after, m - 1, |db.net.grants|);
    }
  }

  lemma {:induction false} SameRules(db: Db, after: Db, device: nat, n: nat)
    requires Swept(db, after.net, after.net.grants) && n <= |db.net.grants|
    requires (after.clock, after.people, after.services) == (db.clock, db.people, db.services)
    ensures |after.net.grants| == |db.net.grants|
    ensures RulesOf(after.Joined(), device, db.clock, n) == RulesOf(db.Joined(), device, db.clock, n)
  {
    hide Swept, Selected;
    SweptLengths(db, after.net);
    if n > 0 {
      SameRules(db, after, device, n - 1);
      SameSelection(db, after, n - 1);
    }
  }

  lemma SameSelection(db: Db, after: Db, i: nat)
    requires Swept(db, after.net, after.net.grants) && i < |db.net.grants|
    requires (after.clock, after.people, after.services) == (db.clock, db.people, db.services)
    ensures var g, h := db.net.grants[i], after.net.grants[i];
      && g.device == h.device && Selected(after.Joined(), h, db.clock) == Selected(db.Joined(), g, db.clock)
      && (Selected(db.Joined(), g, db.clock) ==> h == g)
  {
  }

  /** Asking for a destination: for a current device of one's own, once at a time; an approval whose
      time has come does not stand in the way. It sweeps as reconciliation does and adds the one
      pending request. */
  lemma AskingMeans(db: Db, op: Op)
    requires op.RequestNetwork?
    ensures Apply(db, op).Ok? <==>
      && op.offered && op.device < |db.net.devices| && op.target < |db.net.targets|
      && db.net.devices[op.device].user == op.u.id && db.net.devices[op.device].state != DeviceRevoked
      && op.u.id < |db.people| && db.people[op.u.id].enabled
      && forall i :: 0 <= i < |db.net.grants| ==>
           var g := db.net.grants[i];
           g.device == op.device && g.target == op.target ==>
             g.state != Pending && !(g.state == Approved && g.expires.Some? && g.expires.value > db.clock)
    ensures Apply(db, op).Ok? ==> var after := Apply(db, op).value;
      && OnlyNet(db, after) && |after.net.grants| == |db.net.grants| + 1
      && Swept(db, after.net, after.net.grants[..|db.net.grants|])
      && after.net.grants[|db.net.grants|]
         == Grant(op.device, op.target, Pending, NOWHERE, None, 1, Open, [GrantRow(Pending, NOWHERE, None)])
  {
    hide Swept, Expire;
    var swept := Expire(db.net, db.people, db.clock);
    ExpireMeans(db);
    SweptFrame(db, swept);
    forall i | 0 <= i < |db.net.grants| ensures SweptOpen(db, i, swept.grants[i]) {
      SweptAt(db, swept, i);
    }
    if Apply(db, op).Ok? {
      assert Apply(db, op).value.net.grants[..|db.net.grants|] == swept.grants;
      SweptMore(db, swept, Apply(db, op).value.net);
    }
  }

  lemma SweptFrame(db: Db, after: Net)
    requires Swept(db, after, after.grants)
    ensures |after.devices| == |db.net.devices| && |after.grants| == |db.net.grants| && after.targets == db.net.targets
    ensures forall i :: 0 <= i < |db.net.grants| ==>
      after.grants[i].device == db.net.grants[i].device && after.grants[i].target == db.net.grants[i].target
  {
  }

  predicate SweptOpen(db: Db, i: nat, h: Grant)
    requires i < |db.net.grants|
  {
    var g := db.net.grants[i];
    IsOpen(h) <==> g.state == Pending || (g.state == Approved && g.expires.Some? && g.expires.value > db.clock)
  }

  lemma SweptAt(db: Db, after: Net, i: nat)
    requires Swept(db, after, after.grants) && i < |db.net.grants|
    ensures |after.grants| == |db.net.grants| && SweptOpen(db, i, after.grants[i])
  {
  }

  lemma SweptMore(db: Db, swept: Net, after: Net)
    requires Swept(db, swept, swept.grants) && after == swept.(grants := after.grants)
    ensures Swept(db, after, swept.grants)
  {
  }

  // ---- decisions -------------------------------------------------------

  /** What an approval needs, of the destination as it is now. */
  ghost predicate MayApprove(db: Db, op: Op)
    requires op.DecideNetwork? && op.id < |db.net.grants|
  {
    var g := db.net.grants[op.id];
    && g.target < |db.net.targets| && g.device < |db.net.devices|
    && var t, d := db.net.targets[g.target], db.net.devices[g.device];
       && op.asked < op.until <= op.asked + 365 * 86400
       && |set i | 0 <= i < |db.net.grants| && db.net.grants[i].state == Approved
                   && db.net.grants[i].expires.Some? && db.net.grants[i].expires.value > db.clock| < 1024
       && t.version == op.targetVersion && t.enabled && ValidDestination(t.place.cidr, t.place.protocol, t.place.ports)
       && t.service < |db.services| && db.services[t.service].published && !db.services[t.service].archived
       && d.state != DeviceRevoked && d.user < |db.people| && db.people[d.user].enabled
  }

  /** Deciding: an administrator, at the version seen, from pending to approved or denied, or from
      approved to revoked. */
  lemma DecisionsExactly(db: Db, op: Op)
    requires Inv(db) && op.DecideNetwork?
    ensures Apply(db, op).Ok? <==>
      && op.u.role == Admin && op.id < |db.net.grants| && db.net.grants[op.id].version == op.version
      && var was := db.net.grants[op.id].state;
         || (was == Pending && op.state == Approved && MayApprove(db, op))
         || (was == Pending && op.state == Denied)
         || (was == Approved && op.state == Revoked)
  {
    hide ValidDestination, GoodDevice, DistinctDevices, OneOpenEach, GoodPacks, Balanced, Records.GoodRecords;
    if op.id < |db.net.grants| {
      assert GoodGrant(db.net.grants[op.id], db.net);
    }
  }

  /** A denial or revocation ends one grant and blanks its route; its history gets the grant as it
      was and as it is, and nothing else changes. */
  lemma ClosingMeans(db: Db, op: Op)
    requires op.DecideNetwork? && op.state != Approved && Apply(db, op).Ok?
    ensures var after := Apply(db, op).value;
      && op.id < |db.net.grants| && OnlyNet(db, after) && after.net == db.net.(grants := after.net.grants)
      && |after.net.grants| == |db.net.grants|
      && (forall i :: 0 <= i < |db.net.grants| && i != op.id ==> after.net.grants[i] == db.net.grants[i])
      && var g, h := db.net.grants[op.id], after.net.grants[op.id];
         && (h.device, h.target, h.state, h.version) == (g.device, g.target, op.state, g.version + 1)
         && h.place == NOWHERE && h.expires == None
         && h.rows == g.rows + [GrantRow(g.state, g.place, g.expires), GrantRow(op.state, NOWHERE, None)]
  {
    hide LiveGrants, ValidDestination;
  }

  /** What an approval changes: the grant, and its device, which is admitted. */
  lemma AdmissionMeans(db: Db, op: Op)
    requires op.DecideNetwork? && op.state == Approved && Apply(db, op).Ok?
    ensures var after := Apply(db, op).value;
      && op.id < |db.net.grants| && OnlyNet(db, after)
      && var g := db.net.grants[op.id];
         && g.target < |db.net.targets| && g.device < |db.net.devices|
         && var place, d := db.net.targets[g.target].place, db.net.devices[g.device];
            && after.net == db.net.(
              devices := db.net.devices[g.device := d.(state := DeviceApproved, version := d.version + 1)],
              grants := db.net.grants[op.id :=
                                        g.(state := Approved, place := place, expires := Some(op.until),
                                           version := g.version + 1,
                                           rows := g.rows + [GrantRow(Approved, place, Some(op.until))])])
  {
    hide LiveGrants, ValidDestination;
  }

  /** Saving a destination: an administrator, for a service that is not archived, as it was seen. */
  lemma TargetMeans(db: Db, op: Op)
    requires op.SaveTarget?
    ensures Apply(db, op).Ok? <==>
      && op.u.role == Admin && ValidDestination(op.place.cidr, op.place.protocol, op.place.ports)
      && op.service < |db.services| && !db.services[op.service].archived
      && (op.row.Some? ==>
            && op.row.value < |db.net.targets| && db.net.targets[op.row.value].service == op.service
            && db.net.targets[op.row.value].version == op.version)
    ensures Apply(db, op).Ok? ==> var after := Apply(db, op).value;
      && OnlyNet(db, after) && after.net == db.net.(targets := after.net.targets)
      && var i := if op.row.Some? then op.row.value else |db.net.targets|;
         && |after.net.targets| == |db.net.targets| + (if op.row.Some? then 0 else 1)
         && after.net.targets[i] == Target(op.service, op.place, op.enabled, if op.row.Some? then op.version + 1 else 1)
         && forall k :: 0 <= k < |db.net.targets| && k != i ==> after.net.targets[k] == db.net.targets[k]
  {
    hide ValidDestination;
  }

  // ---- packs -----------------------------------------------------------

  /** The caller is the account as it is now. */
  predicate SameAccount(people: seq<User>, u: Actor) {
    u.id < |people| && people[u.id] == User(u.role, true, u.generation)
  }

  /** The device a pack replaces: the caller's own, current, at the version seen. */
  predicate MayReplace(net: Net, u: Actor, replace: Option<(nat, nat)>) {
    replace.Some? ==>
      && replace.value.0 < |net.devices|
      && var d := net.devices[replace.value.0];
         d.user == u.id && d.version == replace.value.1 && d.state != DeviceRevoked
  }

  function Replaced(replace: Option<(nat, nat)>): set<nat> {
    if replace.Some? then {replace.value.0} else {}
  }

  /** No current device of the member but the one replaced has this name, whatever its case. */
  predicate NameFree(net: Net, user: nat, gone: set<nat>, name: string) {
    forall i :: 0 <= i < |net.devices| && i !in gone ==>
      net.devices[i].user == user && net.devices[i].state != DeviceRevoked ==> !SameName(net.devices[i].name, name)
  }

  /** Room for one more device once those are gone: the key and the address must be new to all. */
  ghost predicate RoomWithout(net: Net, people: seq<User>, user: nat, gone: set<nat>, key: string) {
    && user < |people| && people[user].enabled && |CurrentOf(net.devices, user) - gone| < 10
    && (exists h :: 2 <= h <= 254 && FreeAt(net.devices, h))
    && forall i :: 0 <= i < |net.devices| ==> net.devices[i].key != key
  }

  lemma GoneRoom(net: Net, kept: Net, people: seq<User>, gone: set<nat>, user: nat, name: string, key: string)
    requires Gone(net, kept, gone)
    ensures NameTaken(kept.devices, user, name) <==> !NameFree(net, user, gone, name)
    ensures MayEnrol(kept, people, user, key) <==> RoomWithout(net, people, user, gone, key)
    ensures forall h :: LeastFree(kept.devices, h) <==> LeastFree(net.devices, h)
    ensures |kept.devices| == |net.devices| && |kept.grants| == |net.grants|
  {
    hide Gone, NameTaken, NameFree, CurrentOf, FreeAt;
    GoneFrame(net, kept, gone, user, key);
    forall h ensures FreeAt(kept.devices, h) <==> FreeAt(net.devices, h) {
      FreeAfter(net, kept, gone, h);
    }
    GoneNames(net, kept, gone, user, name);
  }

  lemma GoneFrame(net: Net, kept: Net, gone: set<nat>, user: nat, key: string)
    requires Gone(net, kept, gone)
    ensures |kept.devices| == |net.devices| && |kept.grants| == |net.grants|
    ensures CurrentOf(kept.devices, user) == CurrentOf(net.devices, user) - gone
    ensures forall i :: 0 <= i < |net.devices| ==> kept.devices[i].key == net.devices[i].key
  {
    hide GrantEnded;
  }

  lemma FreeAfter(net: Net, kept: Net, gone: set<nat>, host: int)
    requires Gone(net, kept, gone)
    ensures FreeAt(kept.devices, host) <==> FreeAt(net.devices, host)
  {
  }

  lemma GoneNames(net: Net, kept: Net, gone: set<nat>, user: nat, name: string)
    requires Gone(net, kept, gone)
    ensures NameTaken(kept.devices, user, name) <==> !NameFree(net, user, gone, name)
  {
    hide SameName;
  }

  /** Making a pack: for the account as it is now, an enabled destination of a service it may see, a
      name free among its devices, and room for one more; a device it replaces is retired first. */
  lemma PackMeans(db: Db, op: Op)
    requires op.CreatePack?
    ensures Apply(db, op).Ok? <==>
      && ValidKey(op.key) && SameAccount(db.people, op.u)
      && op.target < |db.net.targets| && db.net.targets[op.target].enabled
      && PackServiceAllowed(db.services, db.categories, db.records, op.u, db.net.targets[op.target].service, db.clock)
      && MayReplace(db.net, op.u, op.replace)
      && NameFree(db.net, op.u.id, Replaced(op.replace), op.name)
      && RoomWithout(db.net, db.people, op.u.id, Replaced(op.replace), op.key)
    ensures Apply(db, op).Ok? ==> PackMade(db, op, Apply(db, op).value)
  {
    hide ValidKey, PackServiceAllowed, Retire, Enroll, NameTaken, NameFree, RoomWithout, Gone, MayEnrol, LeastFree;
    var gone := Replaced(op.replace);
    var kept := if op.replace.Some? then Retire(db.net, gone) else db.net;
    RetireMeans(db.net, gone);
    NoneGone(db.net);
    assert Gone(db.net, kept, gone);
    GoneRoom(db.net, kept, db.people, gone, op.u.id, op.name, op.key);
    EnrollExactly(kept, db.people, op.u, op.name, op.key);
    if Apply(db, op).Ok? {
      var after := Apply(db, op).value;
      var id, m := |db.net.devices|, |db.net.grants|;
      assert after.net.devices[..id] == kept.devices && after.net.grants[..m] == kept.grants;
      assert after.net.(devices := kept.devices, grants := kept.grants) == kept;
    }
  }

  lemma NoneGone(net: Net)
    ensures Gone(net, net, {})
  {
  }

  /** The one replaced is retired, and one device, sealed in its delivery for thirty days, and one
      pending request for it are added. */
  ghost predicate PackMade(db: Db, op: Op, after: Db)
    requires op.CreatePack?
  {
    var id, m := |db.net.devices|, |db.net.grants|;
    && OnlyNet(db, after) && |after.net.devices| == id + 1 && |after.net.grants| == m + 1
    && Gone(db.net, after.net.(devices := after.net.devices[..id], grants := after.net.grants[..m]),
            Replaced(op.replace))
    && LeastFree(db.net.devices, after.net.devices[id].host)
    && after.net.devices[id]
       == Device(op.u.id, op.name, op.key, after.net.devices[id].host, DeviceRequested, 1,
                 Some(Delivery(Some(op.secret), db.clock + 30 * 86400, false)))
    && after.net.grants[m] == Grant(id, op.target, Pending, NOWHERE, None, 1, Open, [GrantRow(Pending, NOWHERE, None)])
  }

  /** When a pack can be handed out, and what that changes: its key leaves the portal and the
      download is over. Its routes are in `ReleaseKeeps`. */
  lemma HandOutExactly(db: Db, u: Actor, id: nat)
    requires Inv(db)
    ensures Apply(db, ConsumePack(u, id)).Ok? <==>
      && SameAccount(db.people, u)
      && id < |db.net.devices| && db.net.devices[id].user == u.id && db.net.devices[id].state == DeviceApproved
      && db.net.devices[id].delivery.Some?
      && var x, s := db.net.devices[id].delivery.value, db.net.status;
         && x.secret.Some? && !x.consumed && db.clock < x.expires
         && s.seen.Some? && s.seen.value <= db.clock <= s.seen.value + 20
         && s.revision == db.Current().revision && ValidKey(s.key)
         && exists c :: Routed(db, u, id, c)
    ensures Apply(db, ConsumePack(u, id)).Ok? ==> var after := Apply(db, ConsumePack(u, id)).value;
      && OnlyNet(db, after) && |after.net.released| == |db.net.released| + 1
      && var d := db.net.devices[id];
         after.net == db.net.(
           devices := db.net.devices[id := d.(delivery := Some(Delivery(None, d.delivery.value.expires, true)))],
           released := db.net.released + [after.net.released[|db.net.released|]])
  {
    hide Good, Records.GoodRecords, Routed, SnapshotOf, RulesFor, Permitted, ValidKey;
    if id < |db.net.devices| {
      var rules := Permitted(db, u, RulesFor(db.Current().peers, id + 1));
      if rules != [] {
        assert rules[0].cidr in Routes(rules);
        RoutesExactly(db, u, id, rules[0].cidr);
      }
      if c :| Routed(db, u, id, c) {
        RoutesExactly(db, u, id, c);
      }
    }
  }

  // ---- accounts --------------------------------------------------------

  /** Another account is a usable administrator's. */
  predicate AnotherAdministrator(people: seq<User>, user: nat) {
    exists i :: 0 <= i < |people| && i != user && people[i].role == Admin && people[i].enabled
  }

  lemma LastAdministrator(people: seq<User>, user: nat)
    requires user < |people| && people[user].role == Admin && people[user].enabled
    ensures |Admins(people)| <= 1 <==> !AnotherAdministrator(people, user)
  {
    var all := Admins(people);
    assert user in all;
    if AnotherAdministrator(people, user) {
      var i :| 0 <= i < |people| && i != user && people[i].role == Admin && people[i].enabled;
      SubsetCardinality({user, i}, all);
    } else {
      SubsetCardinality(all, {user});
    }
  }

  /** Saving a member: refused only for the last usable administrator. The account gets its role and
      status and a new generation; disabling ends exactly its devices, their grants and its access. */
  lemma MemberMeans(db: Db, op: Op)
    requires op.SaveMember?
    ensures Apply(db, op).Ok? <==>
      && op.user < |db.people|
      && (db.people[op.user].role == Admin && db.people[op.user].enabled && !(op.role == Admin && op.enabled)
          ==> AnotherAdministrator(db.people, op.user))
    ensures Apply(db, op).Ok? ==> var after := Apply(db, op).value;
      && after == db.(people := after.people, net := after.net, records := after.records)
      && after.people == db.people[op.user := User(op.role, op.enabled, db.people[op.user].generation + 1)]
      && (op.enabled ==> after.net == db.net && after.records == db.records)
      && (!op.enabled ==>
            && Gone(db.net, after.net, set i | 0 <= i < |db.net.devices| && db.net.devices[i].user == op.user)
            && AccessGone(db.records, after.records, op.user))
  {
    hide Gone, Retire, AccessGone, Admins, AnotherAdministrator;
    if op.user < |db.people| && db.people[op.user].role == Admin && db.people[op.user].enabled {
      LastAdministrator(db.people, op.user);
    }
    var gone := set i | 0 <= i < |db.net.devices| && db.net.devices[i].user == op.user;
    RetireMeans(db.net, gone);
    RevokedMeans(db.records, op.user);
  }

  /** Exactly the member's active records ended as revoked. */
  ghost predicate AccessGone(records: seq<Record>, after: seq<Record>, user: nat) {
    |after| == |records| && forall i :: 0 <= i < |records| ==>
      if records[i].user == user && records[i].state == RecordActive
      then RecordEnded(records[i], after[i], RecordRevoked) else after[i] == records[i]
  }

  lemma RevokedMeans(records: seq<Record>, user: nat)
    ensures AccessGone(records, Records.RevokeRecords(records, user), user)
  {
  }

  predicate OfAccounts(op: Op) {
    OfPeople(op) || op.Acknowledge?
  }

  /** The transactions that touch no device, grant or access. */
  lemma AccountsMean(db: Db, op: Op)
    requires OfAccounts(op)
    ensures Apply(db, op).Ok? <==>
      match op
      case Wait(until) => db.clock <= until
      case NewGeneration(user) => user < |db.people|
      case Recover(user) => user < |db.people| && db.people[user].role == Admin
      case SaveService(row, _) => row.Some? ==> row.value < |db.services|
      case SaveCategory(row, _) => row.Some? ==> row.value < |db.categories|
      case Acknowledge(_, key) => ValidKey(key)
      case _ => true
    ensures Apply(db, op).Ok? ==> var after := Apply(db, op).value;
      match op
      case Wait(until) => after == db.(clock := until)
      case AddUser(role) => after == db.(people := db.people + [User(role, true, 1)])
      case NewGeneration(user) =>
        var u := db.people[user];
        after == db.(people := db.people[user := User(u.role, u.enabled, u.generation + 1)])
      case Recover(user) =>
        after == db.(people := db.people[user := User(Admin, true, db.people[user].generation + 1)])
      case SaveService(row, saved) =>
        after == db.(services := if row.Some? then db.services[row.value := saved] else db.services + [saved])
      case SaveCategory(row, kept) =>
        after == db.(categories := if row.Some? then db.categories[row.value := kept] else db.categories + [kept])
      case Acknowledge(revision, key) =>
        after == db.(net := db.net.(status := Status(revision, key, Some(db.clock))))
      case _ => false
  {
    hide ValidKey;
  }

  // ---- access ----------------------------------------------------------

  /** The pair's record is active from now until this expiry, one version later or as a new row. */
  ghost predicate AccessGiven(records: seq<Record>, after: seq<Record>, i: nat, user: nat, service: nat,
                              expires: Option<Time>, now: Time)
  {
    && i < |after|
    && (if i < |records| then
          && |after| == |records| && records[i].user == user && records[i].service == service
          && after[i] == records[i].(state := RecordActive, granted := now, expires := expires,
                                     version := records[i].version + 1,
                                     rows := records[i].rows + [RecordRow(RecordActive, now, expires)])
        else
          && i == |records| && |after| == |records| + 1
          && (forall k :: 0 <= k < |records| ==> records[k].user != user || records[k].service != service)
          && after[i] == Record(user, service, RecordActive, now, expires, 1,
                                [RecordRow(RecordActive, now, expires)], []))
    && forall k :: 0 <= k < |records| && k != i ==> after[k] == records[k]
  }

  /** Granting access: to an enabled member, to a published service. The form must carry the version
      of the pair's record, or zero when there is none. */
  lemma GrantMeans(db: Db, op: Op)
    requires Inv(db) && (op.Fulfil? || op.GrantAccess?)
    ensures Apply(db, op).Ok? <==>
      && op.user < |db.people| && db.people[op.user].enabled
      && op.service < |db.services| && db.services[op.service].published && !db.services[op.service].archived
      && (op.GrantAccess? ==>
            || (op.version == 0 && forall i :: 0 <= i < |db.records| ==>
                  db.records[i].user != op.user || db.records[i].service != op.service)
            || exists i :: 0 <= i < |db.records| && db.records[i].user == op.user
                           && db.records[i].service == op.service && db.records[i].version == op.version)
    ensures Apply(db, op).Ok? ==> var after := Apply(db, op).value;
      && OnlyRecords(db, after)
      && exists i :: AccessGiven(db.records, after.records, i, op.user, op.service, op.expires, db.clock)
  {
    hide Good, Records.GoodRecord;
    Records.FindRecordFinds(db.records, op.user, op.service);
    VersionsStart(db);
    var found := Records.FindRecord(db.records, op.user, op.service);
    if Apply(db, op).Ok? {
      var i := if found.Some? then found.value else |db.records|;
      assert AccessGiven(db.records, Apply(db, op).value.records, i, op.user, op.service, op.expires, db.clock);
    }
  }

  lemma VersionsStart(db: Db)
    requires Inv(db)
    ensures forall i :: 0 <= i < |db.records| ==> db.records[i].version >= 1
  {
    hide Good;
    forall i | 0 <= i < |db.records| ensures db.records[i].version >= 1 {
      assert Records.GoodRecord(db.records[i], db.people);
    }
  }

  /** Ending access by hand: an active record, at the version seen. */
  lemma EndingMeans(db: Db, op: Op)
    requires op.CloseAccess?
    ensures Apply(db, op).Ok? <==>
      && op.id < |db.records| && db.records[op.id].version == op.version
      && db.records[op.id].state == RecordActive && op.closed != RecordActive
    ensures Apply(db, op).Ok? ==> var after := Apply(db, op).value;
      && OnlyRecords(db, after) && |after.records| == |db.records|
      && RecordEnded(db.records[op.id], after.records[op.id], op.closed)
      && forall i :: 0 <= i < |db.records| && i != op.id ==> after.records[i] == db.records[i]
  {
  }

  /** Completing a follow-up: an open one, and that alone. */
  lemma CompletionMeans(db: Db, op: Op)
    requires op.CompleteFollowup?
    ensures Apply(db, op).Ok? <==>
      op.id < |db.records| && op.followup < |db.records[op.id].followups| && db.records[op.id].followups[op.followup]
    ensures Apply(db, op).Ok? ==> var after := Apply(db, op).value;
      && OnlyRecords(db, after)
      && var r := db.records[op.id];
         after.records == db.records[op.id := r.(followups := r.followups[op.followup := false])]
  {
  }
}
