/** The portal's transactions as the portal runs them: row updates in order, on a transaction's own
    view of the tables, and then a commit of all of them or of none. */
module Stores {
  import opened Base
  import opened Prefixes
  import opened Policy
  import opened Catalog
  import opened Records
  import opened Network
  import opened Snapshots
  import opened Deliveries
  import opened Portal
  import Accounts

  /** A transaction is refused exactly where the state machine refuses; otherwise it commits what
      the state machine says, or changes nothing when the database does not accept the commit. */
  ghost predicate Settles(before: Db, op: Op, accepting: bool, o: Commitment, after: Db) {
    var r := Apply(before, op);
    && o == (if r.Rejected? then Refused else if accepting then Committed else RolledBack)
    && after == (if o == Committed then r.value else before)
  }

  // ---- single statements -----------------------------------------------

  function SetRevoked(devices: seq<Device>, gone: set<nat>): seq<Device> {
    seq(|devices|, i requires 0 <= i < |devices| =>
      if i in gone && devices[i].state != DeviceRevoked
      then devices[i].(state := DeviceRevoked, version := devices[i].version + 1) else devices[i])
  }

  function DropSecrets(devices: seq<Device>, gone: set<nat>): seq<Device> {
    seq(|devices|, i requires 0 <= i < |devices| => if i in gone then Emptied(devices[i]) else devices[i])
  }

  /** One history row for every open grant of these devices. */
  function LogRevoked(grants: seq<Grant>, gone: set<nat>): seq<Grant> {
    seq(|grants|, i requires 0 <= i < |grants| =>
      var g := grants[i];
      if g.device in gone && IsOpen(g) then g.(rows := g.rows + [GrantRow(Revoked, g.place, g.expires)]) else g)
  }

  function SetGrantsRevoked(grants: seq<Grant>, gone: set<nat>): seq<Grant> {
    seq(|grants|, i requires 0 <= i < |grants| =>
      var g := grants[i];
      if g.device in gone && IsOpen(g) then g.(state := Revoked, version := g.version + 1, closing := ByDevice) else g)
  }

  function LogExpired(grants: seq<Grant>, now: Time): seq<Grant> {
    seq(|grants|, i requires 0 <= i < |grants| =>
      var g := grants[i];
      if Lapsed(g, now) then g.(rows := g.rows + [GrantRow(Expired, g.place, g.expires)]) else g)
  }

  function SetGrantsExpired(grants: seq<Grant>, now: Time): seq<Grant> {
    seq(|grants|, i requires 0 <= i < |grants| =>
      var g := grants[i];
      if Lapsed(g, now) then g.(state := Expired, version := g.version + 1, closing := ByTime) else g)
  }

  /** In whatever order devices, grants and deliveries are updated, the outcome is the same as long
      as the history is written before the grants close. */
  lemma RetiredInSteps(net: Net, gone: set<nat>)
    ensures var grants := SetGrantsRevoked(LogRevoked(net.grants, gone), gone);
      && net.(devices := DropSecrets(SetRevoked(net.devices, gone), gone), grants := grants) == Retire(net, gone)
      && net.(devices := SetRevoked(DropSecrets(net.devices, gone), gone), grants := grants) == Retire(net, gone)
  {
  }

  function DropSpoiled(devices: seq<Device>, people: seq<User>, now: Time): seq<Device> {
    seq(|devices|, i requires 0 <= i < |devices| =>
      if Spoiled(devices[i], people, now) then Emptied(devices[i]) else devices[i])
  }

  method ExpireNetwork(net: Net, people: seq<User>, now: Time) returns (after: Net)
    ensures after == Expire(net, people, now)
  {
    after := net.(devices := DropSpoiled(net.devices, people, now));
    after := after.(grants := LogExpired(after.grants, now));
    after := after.(grants := SetGrantsExpired(after.grants, now));
    assert after.grants == Expire(net, people, now).grants;
  }

  // ---- enrolment -------------------------------------------------------

  method InsertDevice(net: Net, people: seq<User>, u: Actor, name: string, key: string) returns (r: Result<Net>)
    ensures r == Enroll(net, people, u, name, key)
  {
    if !(u.id < |people|) || !people[u.id].enabled {
      return Rejected;
    }
    if CurrentDevices(net.devices, u.id) >= 10 {
      return Rejected;
    }
    var used: map<int, bool> := map[];
    for i := 0 to |net.devices|
      invariant forall h :: h in used <==> exists k :: 0 <= k < i && net.devices[k].host == h
    {
      used := used[net.devices[i].host := true];
    }
    var host := 2;
    while host < 255 && host in used
      invariant 2 <= host <= 255 && FreeHost(net.devices, 2) == FreeHost(net.devices, host)
    {
      host := host + 1;
    }
    if host == 255 {
      return Rejected;
    }
    if KeyUsed(net.devices, key) {
      return Rejected;
    }
    r := Ok(net.(devices := net.devices + [Device(u.id, name, key, host, DeviceRequested, 1, None)]));
  }

  // ---- delivery --------------------------------------------------------

  method FindPeer(peers: seq<Peer>, id: int) returns (rules: seq<Rule>)
    ensures rules == RulesFor(peers, id)
  {
    rules := [];
    for k := 0 to |peers|
      invariant rules == RulesFor(peers[..k], id)
    {
      assert peers[..k + 1][..k] == peers[..k];
      if peers[k].id == id {
        rules := peers[k].rules;
      }
    }
    assert peers[..|peers|] == peers;
  }

  method PermittedRules(db: Db, u: Actor, rules: seq<Rule>) returns (permitted: seq<Rule>)
    ensures permitted == Permitted(db, u, rules)
  {
    hide Permits;
    permitted := [];
    for k := 0 to |rules|
      invariant permitted == Permitted(db, u, rules[..k])
    {
      assert rules[..k + 1][..k] == rules[..k];
      if Permits(db, u, rules[k]) {
        permitted := permitted + [rules[k]];
      }
    }
    assert rules[..|rules|] == rules;
  }

  method CollectRoutes(rules: seq<Rule>) returns (routes: set<Cidr>)
    ensures routes == Routes(rules)
  {
    routes := {};
    for k := 0 to |rules|
      invariant routes == Routes(rules[..k])
    {
      assert rules[..k + 1] == rules[..k] + [rules[k]];
      routes := routes + {rules[k].cidr};
    }
    assert rules[..|rules|] == rules;
  }

  // ---- the store -------------------------------------------------------

  class Store {
    var db: Db
    var links: set<(nat, Accounts.Link)>   // outstanding links, with the member each is for
    var accepting: bool                    // whether the database will accept the next commit

    constructor (accepting: bool)
      ensures db == EMPTY && links == {} && this.accepting == accepting
    {
      db, links, this.accepting := EMPTY, {}, accepting;
    }

    method Commit(tx: Db) returns (o: Commitment)
      modifies this`db
      ensures o == (if accepting then Committed else RolledBack) && db == (if accepting then tx else old(db))
    {
      o := RolledBack;
      if accepting {
        db := tx;
        o := Committed;
      }
    }

    method EnrollDevice(u: Actor, name: string, key: string) returns (o: Commitment)
      modifies this`db
      ensures Settles(old(db), Op.EnrollDevice(u, name, key), accepting, o, db)
    {
      hide ValidKey, Enroll;
      if !ValidKey(key) {
        return Refused;
      }
      var r := InsertDevice(db.net, db.people, u, name, key);
      if r.Rejected? {
        return Refused;
      }
      o := Commit(db.(net := r.value));
    }

    /** `offered` was found before the transaction and may be stale. */
    method RequestNetwork(u: Actor, offered: bool, device: nat, target: nat) returns (o: Commitment)
      modifies this`db
      ensures Settles(old(db), Op.RequestNetwork(u, offered, device, target), accepting, o, db)
    {
      hide Expire, ValidKey;
      if !offered {
        return Refused;
      }
      var net := db.net;
      if !(device < |net.devices| && net.devices[device].user == u.id && net.devices[device].state != DeviceRevoked)
        || !(u.id < |db.people| && db.people[u.id].enabled) {
        return Refused;
      }
      net := ExpireNetwork(net, db.people, db.clock);
      if !(target < |net.targets|) || OpenGrantExists(net.grants, device, target) {
        SweepFrame(db.net, db.people, db.clock);
        return Refused;
      }
      SweepFrame(db.net, db.people, db.clock);
      net := net.(grants := net.grants + [Network.Grant(device, target, Pending, NOWHERE, None, 1, Open, [])]);
      var g := net.grants[|net.grants| - 1];
      net := net.(grants := net.grants[|net.grants| - 1 :=
                        g.(rows := g.rows + [GrantRow(g.state, g.place, g.expires)])]);
      assert net.grants[|net.grants| - 1] == NewGrant(device, target);
      assert net.grants == Expire(db.net, db.people, db.clock).grants + [NewGrant(device, target)];
      o := Commit(db.(net := net));
    }

    method DecideNetwork(u: Actor, id: nat, version: nat, targetVersion: nat, state: GrantState, until: Time,
                         asked: Time)
      returns (o: Commitment)
      modifies this`db
      ensures Settles(old(db), Op.DecideNetwork(u, id, version, targetVersion, state, until, asked), accepting, o, db)
    {
      hide ValidDestination, ValidKey, LiveGrants;
      if u.role != Admin || (state != Approved && state != Denied && state != Revoked)
        || !ExpiryAllowed(state, until, asked) {
        return Refused;
      }
      var net := db.net;
      if !(id < |net.grants| && net.grants[id].version == version)
        || !(net.grants[id].target < |net.targets| && net.grants[id].device < |net.devices|) {
        return Refused;
      }
      var g := net.grants[id];
      if !((g.state == Pending && (state == Approved || state == Denied))
         || (g.state == Approved && state == Revoked)) {
        return Refused;
      }
      var place, expires := NOWHERE, None;
      if state == Approved {
        var t, d := net.targets[g.target], net.devices[g.device];
        if |LiveGrants(net.grants, db.clock)| >= 1024 || t.version != targetVersion {
          return Refused;
        }
        if !(d.user < |db.people| && db.people[d.user].enabled) || d.state == DeviceRevoked || !t.enabled
          || !(t.service < |db.services| && db.services[t.service].published && !db.services[t.service].archived) {
          return Refused;
        }
        var fine := Destination(t.place.cidr, t.place.protocol, t.place.ports);
        if !fine {
          return Refused;
        }
        net := net.(devices := net.devices[g.device := d.(state := DeviceApproved, version := d.version + 1)]);
        place, expires := t.place, Some(until);
      } else {
        g := g.(rows := g.rows + [GrantRow(g.state, g.place, g.expires)], closing := ByDecision);
      }
      g := g.(state := state, place := place, expires := expires, version := g.version + 1);
      g := g.(rows := g.rows + [GrantRow(g.state, g.place, g.expires)]);
      assert state != Approved ==> g == CloseByDecision(net.grants[id], state);
      o := Commit(db.(net := net.(grants := net.grants[id := g])));
    }

    method RevokeDevice(u: Actor, id: nat, version: nat) returns (o: Commitment)
      modifies this`db
      ensures Settles(old(db), Op.RevokeDevice(u, id, version), accepting, o, db)
    {
      hide Retire, SetRevoked, DropSecrets, LogRevoked, SetGrantsRevoked, ValidKey;
      var net := db.net;
      if !(id < |net.devices| && net.devices[id].version == version) || net.devices[id].state == DeviceRevoked
        || (u.role != Admin && net.devices[id].user != u.id) {
        return Refused;
      }
      RetiredInSteps(net, {id});
      net := net.(devices := SetRevoked(net.devices, {id}));
      net := net.(grants := LogRevoked(net.grants, {id}));
      net := net.(grants := SetGrantsRevoked(net.grants, {id}));
      net := net.(devices := DropSecrets(net.devices, {id}));
      o := Commit(db.(net := net));
    }

    method SaveNetworkTarget(u: Actor, row: Option<nat>, service: nat, place: Place, enabled: bool, version: nat)
      returns (o: Commitment)
      modifies this`db
      ensures Settles(old(db), SaveTarget(u, row, service, place, enabled, version), accepting, o, db)
    {
      hide ValidDestination, ValidKey;
      if u.role != Admin {
        return Refused;
      }
      var fine := Destination(place.cidr, place.protocol, place.ports);
      if !fine || !(service < |db.services|) || db.services[service].archived {
        return Refused;
      }
      var net := db.net;
      if row.None? {
        net := net.(targets := net.targets + [Target(service, place, enabled, 1)]);
      } else {
        var t := row.value;
        if !(t < |net.targets| && net.targets[t].service == service && net.targets[t].version == version) {
          return Refused;
        }
        net := net.(targets := net.targets[t :=
                           net.targets[t].(place := place, enabled := enabled, version := version + 1)]);
      }
      o := Commit(db.(net := net));
    }

    method CreatePackDevice(u: Actor, name: string, target: nat, replace: Option<(nat, nat)>, key: string,
                            secret: string)
      returns (o: Commitment)
      requires ValidKey(key)   // the key pair is generated here
      modifies this`db
      ensures Settles(old(db), CreatePack(u, name, target, replace, key, secret), accepting, o, db)
    {
      hide ValidKey, Enroll, Retire, NameTaken, PackServiceAllowed, SetRevoked, DropSecrets, LogRevoked,
           SetGrantsRevoked;
      var net := db.net;
      if !PackOwner(db.people, u) || !(target < |net.targets|) || !net.targets[target].enabled
        || !PackAllowed(db, u, target) {
        return Refused;
      }
      if replace.Some? {
        var gone := {replace.value.0};
        if !Replaceable(net, u, replace.value.0, replace.value.1) {
          return Refused;
        }
        RetiredInSteps(net, gone);
        net := net.(grants := LogRevoked(net.grants, gone));
        net := net.(grants := SetGrantsRevoked(net.grants, gone));
        net := net.(devices := SetRevoked(net.devices, gone));
        net := net.(devices := DropSecrets(net.devices, gone));
      }
      if NameTaken(net.devices, u.id, name) {
        return Refused;
      }
      var r := InsertDevice(net, db.people, u, name, key);
      if r.Rejected? {
        return Refused;
      }
      assert |r.value.devices| > 0 by { EnrollAdds(net, db.people, u, name, key); }
      net := r.value;
      var id := |net.devices| - 1;
      var sealed := Delivery(Some(secret), db.clock + 30 * 86400, false);
      net := net.(devices := net.devices[id := net.devices[id].(delivery := Some(sealed))]);
      net := net.(grants := net.grants + [NewGrant(id, target)]);
      o := Commit(db.(net := net));
    }

    method ConsumePack(u: Actor, id: nat) returns (o: Commitment, pack: Option<Pack>)
      modifies this`db
      ensures Settles(old(db), Op.ConsumePack(u, id), accepting, o, db)
      ensures pack.Some? <==> o == Committed
      ensures o == Committed ==> db.net.released == old(db.net.released) + [pack.value]
    {
      hide PackOwner, RulesFor, Permitted, Routes, SnapshotOf, ValidKey;
      pack := None;
      if !PackOwner(db.people, u) || !Offers(db, u, id) {
        return Refused, None;
      }
      var snapshot := VpnSnapshot(db.Joined(), db.clock);
      if !Confirmed(db, snapshot.revision) {
        return Refused, None;
      }
      var rules := FindPeer(snapshot.peers, id + 1);
      rules := PermittedRules(db, u, rules);
      if |rules| == 0 {
        return Refused, None;
      }
      var routes := CollectRoutes(rules);
      var net := db.net;
      var d := net.devices[id];
      var built := Pack(id, d.delivery.value.secret.value, routes);
      net := net.(devices := net.devices[id :=
                           d.(delivery := Some(d.delivery.value.(secret := None, consumed := true)))],
                  released := net.released + [built]);
      o := Commit(db.(net := net));
      if o == Committed {
        pack := Some(built);
      }
    }

    /** The first half of an acknowledgment: whether it names the policy of this moment. */
    method IsCurrent(revision: Revision) returns (current: bool)
      ensures current <==> revision == db.Current().revision
    {
      var snapshot := VpnSnapshot(db.Joined(), db.clock);
      current := snapshot.revision == revision;
    }

    /** The second half, in a transaction of its own, possibly much later. */
    method RecordAcknowledgment(revision: Revision, key: string) returns (o: Commitment)
      modifies this`db
      ensures Settles(old(db), Acknowledge(revision, key), accepting, o, db)
    {
      hide ValidKey;
      if !ValidKey(key) {
        return Refused;
      }
      o := Commit(db.(net := db.net.(status := Status(revision, key, Some(db.clock)))));
    }

    method SaveMember(user: nat, role: Role, enabled: bool) returns (o: Commitment)
      modifies this`db, this`links
      ensures Settles(old(db), Op.SaveMember(user, role, enabled), accepting, o, db)
      ensures links == if o == Committed && !enabled then (set l | l in old(links) && l.0 != user) else old(links)
    {
      hide Retire, SetRevoked, DropSecrets, LogRevoked, SetGrantsRevoked, Admins;
      if !(user < |db.people|) {
        return Refused;
      }
      var was := db.people[user];
      if was.role == Admin && was.enabled && (!enabled || role != Admin) && |Admins(db.people)| <= 1 {
        return Refused;
      }
      var tx := db.(people := db.people[user := User(role, enabled, was.generation + 1)]);
      var left := links;
      if !enabled {
        var gone := DevicesOf(tx.net.devices, user);
        RetiredInSteps(tx.net, gone);
        var net := tx.net.(devices := DropSecrets(tx.net.devices, gone));
        net := net.(grants := LogRevoked(net.grants, gone));
        net := net.(grants := SetGrantsRevoked(net.grants, gone));
        net := net.(devices := SetRevoked(net.devices, gone));
        left := links - (set l | l in links && l.0 == user);
        var records := RevokeAll(tx.records, user);
        tx := tx.(net := net, records := records);
      }
      o := Commit(tx);
      if o == Committed {
        links := left;
      }
    }

    method SaveAccess(user: nat, service: nat, version: nat, expires: Option<Time>) returns (o: Commitment)
      modifies this`db
      ensures Settles(old(db), Op.GrantAccess(user, service, version, expires), accepting, o, db)
    {
      hide Records.GrantAccess, ValidKey;
      FindRecordFinds(db.records, user, service);
      var found := FindRecord(db.records, user, service);
      var current := if found.Some? then db.records[found.value].version else 0;
      if current != version {
        return Refused;
      }
      var r := Upsert(db.people, db.services, db.records, user, service, expires, db.clock);
      if r.Rejected? {
        return Refused;
      }
      o := Commit(db.(records := r.value));
    }

    method EndAccess(id: nat, version: nat, state: RecordState) returns (o: Commitment)
      modifies this`db
      ensures Settles(old(db), CloseAccess(id, version, state), accepting, o, db)
    {
      hide ValidKey;
      if state == RecordActive
        || !(id < |db.records| && db.records[id].version == version && db.records[id].state == RecordActive) {
        return Refused;
      }
      var r := db.records[id].(state := state, version := version + 1);
      r := r.(followups := WithFollowup(r.followups));
      r := r.(rows := r.rows + [RowOf(r)]);
      o := Commit(db.(records := db.records[id := r]));
    }

    method CompleteOne(id: nat, followup: nat) returns (o: Commitment)
      modifies this`db
      ensures Settles(old(db), CompleteFollowup(id, followup), accepting, o, db)
    {
      hide ValidKey;
      if !(id < |db.records| && followup < |db.records[id].followups| && db.records[id].followups[followup]) {
        return Refused;
      }
      var r := db.records[id];
      o := Commit(db.(records := db.records[id := r.(followups := r.followups[followup := false])]));
    }

    method ReconcileAll() returns (o: Commitment)
      modifies this`db
      ensures Settles(old(db), Op.Reconcile, accepting, o, db)
    {
      hide Expire, ExpireRecords, ValidKey;
      var net := ExpireNetwork(db.net, db.people, db.clock);
      var records := Records.Reconcile(db.records, db.clock);
      o := Commit(db.(net := net, records := records));
    }
  }

  lemma SweepFrame(net: Net, people: seq<User>, now: Time)
    ensures Expire(net, people, now).targets == net.targets && |Expire(net, people, now).devices| == |net.devices|
  {
  }

  lemma EnrollAdds(net: Net, people: seq<User>, u: Actor, name: string, key: string)
    requires Enroll(net, people, u, name, key).Ok?
    ensures |Enroll(net, people, u, name, key).value.devices| == |net.devices| + 1
  {
  }

  /** The three statements that end a disabled member's access: follow-ups, history, records. */
  method RevokeAll(records: seq<Record>, user: nat) returns (after: seq<Record>)
    ensures after == RevokeRecords(records, user)
  {
    after := seq(|records|, i requires 0 <= i < |records| =>
      if records[i].user == user && records[i].state == RecordActive
      then records[i].(followups := WithFollowup(records[i].followups)) else records[i]);
    var noted := after;
    after := seq(|noted|, i requires 0 <= i < |noted| =>
      if noted[i].user == user && noted[i].state == RecordActive
      then noted[i].(rows := noted[i].rows + [RecordRow(RecordRevoked, noted[i].granted, noted[i].expires)])
      else noted[i]);
    var written := after;
    after := seq(|written|, i requires 0 <= i < |written| =>
      if written[i].user == user && written[i].state == RecordActive
      then written[i].(state := RecordRevoked, version := written[i].version + 1) else written[i]);
  }
}
