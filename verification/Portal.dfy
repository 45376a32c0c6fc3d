/** The portal as a state machine: every transaction over accounts, catalog, access and devices. */
module Portal {
  import opened Base
  import opened Policy
  import opened Catalog
  import opened Records
  import opened Network
  import opened Snapshots
  import opened Deliveries
  import Requests

  /** One committed or refused transaction, or the passing of time. `offered` is what the handler
      found before its transaction, `asked` the moment it checked the chosen expiry, `id` a row to
      change or, absent, a row to add. `Fulfil` is the grant made by a request that is fulfilled. */
  datatype Op =
    | Wait(until: Time)
    | AddUser(role: Role)
    | NewGeneration(user: nat)
    | SaveMember(user: nat, role: Role, enabled: bool)
    | Recover(user: nat)
    | SaveService(row: Option<nat>, saved: Service)
    | SaveCategory(row: Option<nat>, kept: Category)
    | Fulfil(user: nat, service: nat, expires: Option<Time>)
    | GrantAccess(user: nat, service: nat, version: nat, expires: Option<Time>)
    | CloseAccess(id: nat, version: nat, closed: RecordState)
    | CompleteFollowup(id: nat, followup: nat)
    | Reconcile
    | EnrollDevice(u: Actor, name: string, key: string)
    | RequestNetwork(u: Actor, offered: bool, device: nat, target: nat)
    | DecideNetwork(u: Actor, id: nat, version: nat, targetVersion: nat, state: GrantState, until: Time, asked: Time)
    | RevokeDevice(u: Actor, id: nat, version: nat)
    | SaveTarget(u: Actor, row: Option<nat>, service: nat, place: Place, enabled: bool, version: nat)
    | CreatePack(u: Actor, name: string, target: nat, replace: Option<(nat, nat)>, key: string, secret: string)
    | ConsumePack(u: Actor, id: nat)
    | Acknowledge(revision: Revision, key: string)

  function Admins(people: seq<User>): set<nat> {
    set i | 0 <= i < |people| && people[i].role == Admin && people[i].enabled
  }

  function WithUser(db: Db, id: nat, u: User): Db
    requires id < |db.people|
  {
    db.(people := db.people[id := u])
  }

  function MemberSaved(db: Db, id: nat, role: Role, enabled: bool): Result<Db> {
    if !(id < |db.people|) then Rejected
    else
      var was := db.people[id];
      if was.role == Admin && was.enabled && (!enabled || role != Admin) && |Admins(db.people)| <= 1 then Rejected
      else
        var saved := WithUser(db, id, User(role, enabled, was.generation + 1));
        Ok(if enabled then saved
           else saved.(net := DisableMember(db.net, id), records := RevokeRecords(db.records, id)))
  }

  function Recovered(db: Db, id: nat): Result<Db> {
    if !(id < |db.people|) || db.people[id].role != Admin then Rejected
    else Ok(WithUser(db, id, User(Admin, true, db.people[id].generation + 1)))
  }

  function Placed<T>(rows: seq<T>, row: Option<nat>, value: T): Result<seq<T>> {
    match row
    case None => Ok(rows + [value])
    case Some(i) => if i < |rows| then Ok(rows[i := value]) else Rejected
  }

  function OnNet(db: Db, net: Result<Net>): Result<Db> {
    if net.Ok? then Ok(db.(net := net.value)) else Rejected
  }

  function OnRecords(db: Db, records: Result<seq<Record>>): Result<Db> {
    if records.Ok? then Ok(db.(records := records.value)) else Rejected
  }

  function Reconciled(db: Db): Db {
    db.(net := Expire(db.net, db.people, db.clock), records := ExpireRecords(db.records, db.clock))
  }

  const YEAR: Time := 365 * 86400

  predicate ExpiryAllowed(state: GrantState, until: Time, asked: Time) {
    state == Approved ==> asked < until <= asked + YEAR
  }

  predicate PackAllowed(db: Db, u: Actor, target: nat) {
    target < |db.net.targets|
    && PackServiceAllowed(db.services, db.categories, db.records, u,
    db.net.targets[target].service, db.clock)
  }

  ghost function Apply(db: Db, op: Op): Result<Db> {
    match op
    case Wait(until) => if until < db.clock then Rejected else Ok(db.(clock := until))
    case AddUser(role) => Ok(db.(people := db.people + [User(role, true, 1)]))
    case NewGeneration(id) =>
      if !(id < |db.people|) then Rejected
      else Ok(WithUser(db, id, db.people[id].(generation := db.people[id].generation + 1)))
    case SaveMember(id, role, enabled) => MemberSaved(db, id, role, enabled)
    case Recover(id) => Recovered(db, id)
    case SaveService(row, s) =>
      var rows := Placed(db.services, row, s);
      if rows.Ok? then Ok(db.(services := rows.value)) else Rejected
    case SaveCategory(row, c) =>
      var rows := Placed(db.categories, row, c);
      if rows.Ok? then Ok(db.(categories := rows.value)) else Rejected
    case Fulfil(user, service, expires) =>
      OnRecords(db, Records.GrantAccess(db.people, db.services, db.records, user, service, expires, db.clock))
    case GrantAccess(user, service, version, expires) =>
      OnRecords(db, GrantForm(db.people, db.services, db.records, user, service, version, expires, db.clock))
    case CloseAccess(id, version, state) => OnRecords(db, CloseForm(db.records, id, version, state))
    case CompleteFollowup(id, k) => OnRecords(db, Records.CompleteFollowup(db.records, id, k))
    case Reconcile => Ok(Reconciled(db))
    case EnrollDevice(u, name, key) =>
      if !ValidKey(key) then Rejected else OnNet(db, Enroll(db.net, db.people, u, name, key))
    case RequestNetwork(u, offered, device, target) =>
      if !offered then Rejected else OnNet(db, RequestGrant(db.net, db.people, u, device, target, db.clock))
    case DecideNetwork(u, id, version, targetVersion, state, until, asked) =>
      if !ExpiryAllowed(state, until, asked) then Rejected
      else OnNet(db, Decide(db.net, db.people, db.services, u, id, version, targetVersion, state, until, db.clock))
    case RevokeDevice(u, id, version) => OnNet(db, Network.RevokeDevice(db.net, u, id, version))
    case SaveTarget(u, row, service, place, enabled, version) =>
      OnNet(db, Network.SaveTarget(db.net, db.services, u, row, service, place, enabled, version))
    case CreatePack(u, name, target, replace, key, secret) =>
      if !ValidKey(key) then Rejected
      else OnNet(db, Network.CreatePack(db.net, db.people, u, PackAllowed(db, u, target),
                                        name, target, replace, key, secret, db.clock))
    case ConsumePack(u, id) => Release(db, u, id)
    case Acknowledge(revision, key) =>
      if !ValidKey(key) then Rejected
      else Ok(db.(net := db.net.(status := Status(revision, key, Some(db.clock)))))
  }

  /** The pair an operation grants access to, if it is a grant. */
  function Grants(op: Op): Option<(nat, nat)> {
    match op
    case Fulfil(user, service, _) => Some((user, service))
    case GrantAccess(user, service, _, _) => Some((user, service))
    case _ => None
  }

  // ---- the invariant ---------------------------------------------------

  ghost predicate Inv(db: Db) {
    Good(db.net, db.people, db.clock) && GoodRecords(db.records, db.people)
  }

  const EMPTY: Db := Db(0, [], [], [], [], Net([], [], [], Status(Blank, "", None), []))

  lemma EmptyIsGood()
    ensures Inv(EMPTY)
  {
  }

  /** Accounts are never deleted; a disabled one has nothing to lose. */
  ghost predicate PeopleKept(people: seq<User>, after: seq<User>, net: Net, records: seq<Record>) {
    && |people| <= |after|
    && forall i :: 0 <= i < |people| && !after[i].enabled ==>
         !people[i].enabled
         || ((forall d :: 0 <= d < |net.devices| && net.devices[d].user == i ==> net.devices[d].state == DeviceRevoked)
             && (forall r :: 0 <= r < |records| && records[r].user == i ==> records[r].state != RecordActive))
  }

  lemma PeopleChange(db: Db, after: seq<User>)
    requires Inv(db) && PeopleKept(db.people, after, db.net, db.records)
    ensures Inv(db.(people := after))
  {
  }

  lemma StayingPut(records: seq<Record>)
    ensures Stepped(records, records, None)
  {
  }

  predicate OfPeople(op: Op) {
    op.Wait? || op.AddUser? || op.NewGeneration? || op.Recover? || op.SaveService? || op.SaveCategory?
  }

  predicate OfRecords(op: Op) {
    op.Fulfil? || op.GrantAccess? || op.CloseAccess? || op.CompleteFollowup?
  }

  predicate OfDevices(op: Op) {
    op.EnrollDevice? || op.RequestNetwork? || op.DecideNetwork? || op.RevokeDevice? || op.SaveTarget? || op.CreatePack?
  }

  lemma PeopleStep(db: Db, op: Op)
    requires Inv(db) && OfPeople(op) && Apply(db, op).Ok?
    ensures var after := Apply(db, op).value;
      Inv(after) && after.net == db.net && after.records == db.records
  {
    hide Good, GoodRecords;
    if op.Wait? {
      TimeKeeps(db.net, db.people, db.clock, op.until);
    } else {
      PeopleChange(db, Apply(db, op).value.people);
    }
  }

  lemma MemberStep(db: Db, id: nat, role: Role, enabled: bool)
    requires Inv(db) && MemberSaved(db, id, role, enabled).Ok?
    ensures var after := MemberSaved(db, id, role, enabled).value;
      Inv(after) && Lasting(db.net, after.net) && Stepped(db.records, after.records, None)
  {
    hide Good, GoodRecords, Lasting, Stepped, Retire, RevokeRecords;
    var after := MemberSaved(db, id, role, enabled).value;
    if enabled {
      LastingStart(db.net);
      StayingPut(db.records);
      PeopleChange(db, after.people);
    } else {
      RetireKeeps(db.net, db.people, db.clock, DevicesOf(db.net.devices, id));
      RevokeRecordsKeeps(db.records, db.people, after.people, id);
      DisabledDevices(db.net, after.net, db.people, after.people, db.clock, id);
    }
  }

  lemma DisabledDevices(net: Net, after: Net, people: seq<User>, people': seq<User>, now: Time, id: nat)
    requires Good(net, people, now) && after == DisableMember(net, id) && Good(after, people, now)
    requires id < |people| == |people'| && forall i :: 0 <= i < |people| && i != id ==> people'[i] == people[i]
    ensures Good(after, people', now)
  {
    hide GoodGrant, DistinctDevices, OneOpenEach, LiveGrants, GoodPacks, ValidKey;
    forall i | 0 <= i < |after.devices| ensures GoodDevice(after.devices[i], people') {
      assert GoodDevice(after.devices[i], people);
      assert after.devices[i].user == net.devices[i].user;
    }
  }

  lemma RecordsStep(db: Db, op: Op)
    requires Inv(db) && OfRecords(op) && Apply(db, op).Ok?
    ensures var after := Apply(db, op).value;
      Inv(after) && after == db.(records := after.records) && Stepped(db.records, after.records, Grants(op))
  {
    hide Good, GoodRecords, Stepped;
    match op
    case Fulfil(user, service, expires) =>
      GrantAccessKeeps(db.people, db.services, db.records, user, service, expires, db.clock);
    case GrantAccess(user, service, version, expires) =>
      GrantAccessKeeps(db.people, db.services, db.records, user, service, expires, db.clock);
    case CloseAccess(id, version, state) => CloseFormKeeps(db.records, db.people, id, version, state);
    case CompleteFollowup(id, k) => CompleteFollowupKeeps(db.records, db.people, id, k);
    case _ =>
  }

  lemma DevicesStep(db: Db, op: Op)
    requires Inv(db) && OfDevices(op) && Apply(db, op).Ok?
    ensures var after := Apply(db, op).value;
      Inv(after) && after == db.(net := after.net) && Lasting(db.net, after.net)
  {
    hide Good, GoodRecords, Lasting, ValidKey, Enroll, RequestGrant, Decide, Network.SaveTarget, Network.CreatePack,
         Retire;
    match op
    case EnrollDevice(u, name, key) => EnrollKeeps(db.net, db.people, db.clock, u, name, key);
    case RequestNetwork(u, _, device, target) => RequestGrantKeeps(db.net, db.people, db.clock, u, device, target);
    case DecideNetwork(u, id, version, targetVersion, state, until, _) =>
      DecideKeeps(db.net, db.people, db.services, db.clock, u, id, version, targetVersion, state, until);
    case RevokeDevice(u, id, version) => RetireKeeps(db.net, db.people, db.clock, {id});
    case SaveTarget(u, row, service, place, enabled, version) =>
      SaveTargetKeeps(db.net, db.people, db.services, db.clock, u, row, service, place, enabled, version);
    case CreatePack(u, name, target, replace, key, secret) =>
      CreatePackKeeps(db.net, db.people, db.clock, u, PackAllowed(db, u, target), name, target, replace, key, secret);
    case _ =>
  }

  lemma AcknowledgeKeeps(db: Db, status: Status)
    requires Inv(db)
    ensures Inv(db.(net := db.net.(status := status))) && Lasting(db.net, db.net.(status := status))
  {
    hide ValidKey, ValidDestination, Balanced, GoodRecords;
  }

  /** Every transaction keeps the invariant, undoes nothing that lasts, and changes access records
      only by settling follow-ups, closing, and granting what it grants. */
  lemma StepKeeps(db: Db, op: Op)
    requires Inv(db) && Apply(db, op).Ok?
    ensures var after := Apply(db, op).value;
      Inv(after) && Lasting(db.net, after.net) && Stepped(db.records, after.records, Grants(op))
  {
    hide Inv, Lasting, Stepped, Good;
    StayingPut(db.records);
    LastingStart(db.net);
    if OfPeople(op) {
      PeopleStep(db, op);
    } else if OfRecords(op) {
      RecordsStep(db, op);
    } else if OfDevices(op) {
      DevicesStep(db, op);
    } else {
      OtherStep(db, op);
    }
  }

  lemma OtherStep(db: Db, op: Op)
    requires Inv(db) && Apply(db, op).Ok?
    requires op.SaveMember? || op.Reconcile? || op.ConsumePack? || op.Acknowledge?
    ensures var after := Apply(db, op).value;
      Inv(after) && Lasting(db.net, after.net) && Stepped(db.records, after.records, Grants(op))
  {
    hide Lasting, Stepped, Good, GoodRecords, Expire, ExpireRecords, MemberSaved, Release;
    StayingPut(db.records);
    match op
    case SaveMember(id, role, enabled) => MemberStep(db, id, role, enabled);
    case Reconcile =>
      ExpireKeeps(db.net, db.people, db.clock);
      ExpireRecordsKeeps(db.records, db.people, db.clock);
    case ConsumePack(u, id) =>
      ReleaseKeeps(db, u, id);
      ReleaseFrame(db, u, id);
    case Acknowledge(revision, key) => AcknowledgeKeeps(db, Status(revision, key, Some(db.clock)));
    case _ =>
  }

  lemma ReleaseFrame(db: Db, u: Actor, id: nat)
    requires Release(db, u, id).Ok?
    ensures Release(db, u, id).value == db.(net := Release(db, u, id).value.net)
  {
  }

  // ---- runs ------------------------------------------------------------

  ghost function Perform(db: Db, op: Op): Db {
    var r := Apply(db, op);
    if r.Ok? then r.value else db
  }

  ghost function Run(db: Db, ops: seq<Op>): Db {
    if ops == [] then db else Perform(Run(db, ops[..|ops| - 1]), ops[|ops| - 1])
  }

  /** Main theorem. In every state the portal can reach, whatever transactions committed and in
      whatever order, the device, grant and access tables are consistent, nothing final was undone
      since the run began, and the policy of the moment passes the gateway's validator. */
  lemma {:induction false} EveryReachableState(db: Db, ops: seq<Op>)
    requires Inv(db)
    ensures Inv(Run(db, ops)) && Lasting(db.net, Run(db, ops).net)
    ensures ValidSnapshot(Run(db, ops).Current())
  {
    hide Inv, Lasting, Apply, ValidSnapshot, SnapshotOf, Good;
    if ops == [] {
      LastingStart(db.net);
    } else {
      var before, op := Run(db, ops[..|ops| - 1]), ops[|ops| - 1];
      EveryReachableState(db, ops[..|ops| - 1]);
      if Apply(before, op).Ok? {
        StepKeeps(before, op);
        LastingTwice(db.net, before.net, Run(db, ops).net);
      }
    }
    CurrentIsValid(Run(db, ops));
  }

  lemma CurrentIsValid(db: Db)
    requires Inv(db)
    ensures ValidSnapshot(db.Current())
  {
    hide Good, GoodRecords, ValidSnapshot, SnapshotOf;
    SnapshotIsValid(db.Joined(), db.clock);
  }

  /** What the invariant says of devices: addresses and keys are never shared, revoked devices and
      disabled accounts have nothing left, and an approved grant stands on an approved device of an
      enabled account. */
  lemma DevicesAndGrants(ops: seq<Op>)
    ensures var db := Run(EMPTY, ops);
      && (forall i, j :: 0 <= i < j < |db.net.devices| ==>
            db.net.devices[i].host != db.net.devices[j].host && db.net.devices[i].key != db.net.devices[j].key)
      && (forall i :: 0 <= i < |db.net.devices| ==>
            var d := db.net.devices[i];
            && d.user < |db.people| && (!db.people[d.user].enabled ==> d.state == DeviceRevoked)
            && (d.state == DeviceRevoked ==> NoSecret(d)))
      && (forall i :: 0 <= i < |db.net.grants| ==>
            var g := db.net.grants[i];
            && g.device < |db.net.devices|
            && (IsOpen(g) ==> db.net.devices[g.device].state != DeviceRevoked)
            && (g.state == Approved ==>
                  db.net.devices[g.device].state == DeviceApproved && db.people[db.net.devices[g.device].user].enabled))
  {
    hide ValidKey, ValidDestination, Balanced, LiveGrants, OneOpenEach, GoodPacks, GoodRecords, Lasting, Run,
         SnapshotOf, ValidSnapshot;
    EmptyIsGood();
    EveryReachableState(EMPTY, ops);
    var db := Run(EMPTY, ops);
    forall i | 0 <= i < |db.net.devices| ensures GoodDevice(db.net.devices[i], db.people) {}
    forall i | 0 <= i < |db.net.grants| ensures GoodGrant(db.net.grants[i], db.net) {}
  }

  /** The ledgers balance: an access record has one history row per version and a network grant
      too, but one more when a decision denied or revoked it; the last row is the row as it is. */
  lemma LedgersBalance(ops: seq<Op>)
    ensures var db := Run(EMPTY, ops);
      && (forall i :: 0 <= i < |db.records| ==>
            var r := db.records[i];
            && |r.rows| == r.version >= 1 && r.rows[r.version - 1] == RecordRow(r.state, r.granted, r.expires)
            && OneOpenAtMost(r.followups))
      && (forall i :: 0 <= i < |db.net.grants| ==>
            var g := db.net.grants[i];
            && |g.rows| == g.version + (if g.closing == ByDecision then 1 else 0) && |g.rows| > 0
            && g.rows[|g.rows| - 1] == GrantRow(g.state, g.place, g.expires))
  {
    hide ValidKey, ValidDestination, GoodDevice, LiveGrants, OneOpenEach, GoodPacks, Lasting, Run, SnapshotOf,
         ValidSnapshot;
    EmptyIsGood();
    EveryReachableState(EMPTY, ops);
    var db := Run(EMPTY, ops);
    forall i | 0 <= i < |db.records| ensures GoodRecord(db.records[i], db.people) {}
    forall i | 0 <= i < |db.net.grants| ensures Balanced(db.net.grants[i]) {
      assert GoodGrant(db.net.grants[i], db.net);
    }
  }

  /** An approval is an administrator's, of the destination as it was reviewed, to end within a year
      of the moment the expiry was checked; it admits the device and touches no other row. */
  lemma ApprovalMeans(db: Db, op: Op)
    requires op.DecideNetwork? && op.state == Approved && Apply(db, op).Ok?
    ensures op.id < |db.net.grants| && op.u.role == Admin
    ensures var g, after := db.net.grants[op.id], Apply(db, op).value;
      && g.state == Pending && g.version == op.version && g.target < |db.net.targets| && g.device < |db.net.devices|
      && db.net.targets[g.target].version == op.targetVersion
      && |after.net.grants| == |db.net.grants| && |after.net.devices| == |db.net.devices|
      && var h := after.net.grants[op.id];
         && h.state == Approved && h.place == db.net.targets[g.target].place && h.expires == Some(op.until)
         && op.asked < op.until <= op.asked + 365 * 86400
         && after.net.devices[g.device].state == DeviceApproved
         && (forall i :: 0 <= i < |db.net.grants| && i != op.id ==> after.net.grants[i] == db.net.grants[i])
         && (forall i :: 0 <= i < |db.net.devices| && i != g.device ==> after.net.devices[i] == db.net.devices[i])
         && after.net.targets == db.net.targets
  {
    hide ValidDestination, LiveGrants;
  }

  // ---- at most ten devices ---------------------------------------------

  ghost predicate TenEach(devices: seq<Device>) {
    forall user: nat :: CurrentDevices(devices, user) <= 10
  }

  lemma {:induction false} FewerCurrent(devices: seq<Device>, after: seq<Device>, user: nat)
    requires DevicesLast(devices, after) && |after| == |devices|
    ensures CurrentDevices(after, user) <= CurrentDevices(devices, user)
  {
    if devices != [] {
      var n := |devices| - 1;
      assert devices[n] == devices[..n + 1][n];
      FewerCurrent(devices[..n], after[..n], user);
    }
  }

  /** Enrolment adds one device, to a member who has fewer than ten. */
  lemma EnrollTen(net: Net, people: seq<User>, u: Actor, name: string, key: string)
    requires TenEach(net.devices) && Enroll(net, people, u, name, key).Ok?
    ensures TenEach(Enroll(net, people, u, name, key).value.devices)
  {
    hide FreeHost, KeyUsed;
    var after := Enroll(net, people, u, name, key).value.devices;
    forall user: nat ensures CurrentDevices(after, user) <= 10 {
      assert after[..|after| - 1] == net.devices;
      assert CurrentDevices(net.devices, user) <= 10;
    }
  }

  lemma LastingTen(net: Net, after: Net)
    requires Lasting(net, after) && |after.devices| == |net.devices| && TenEach(net.devices)
    ensures TenEach(after.devices)
  {
    forall user: nat ensures CurrentDevices(after.devices, user) <= 10 {
      FewerCurrent(net.devices, after.devices, user);
    }
  }

  lemma CreatePackTen(db: Db, op: Op)
    requires Inv(db) && op.CreatePack? && TenEach(db.net.devices) && Apply(db, op).Ok?
    ensures TenEach(Apply(db, op).value.net.devices)
  {
    hide Good, GoodRecords, TenEach, Enroll, Retire, NameTaken, PackServiceAllowed, ValidKey;
    var gone := if op.replace.Some? then {op.replace.value.0} else {};
    var kept := if op.replace.Some? then Retire(db.net, gone) else db.net;
    RetireKeeps(db.net, db.people, db.clock, gone);
    RetireFrame(db.net, gone);
    LastingTen(db.net, Retire(db.net, gone));
    EnrollTen(kept, db.people, op.u, op.name, op.key);
    var more := Enroll(kept, db.people, op.u, op.name, op.key).value;
    DeliverTen(more.devices, Apply(db, op).value.net.devices);
  }

  lemma RetireFrame(net: Net, gone: set<nat>)
    ensures |Retire(net, gone).devices| == |net.devices|
  {
  }

  lemma DeliverTen(devices: seq<Device>, after: seq<Device>)
    requires TenEach(devices) && |after| == |devices|
    requires forall i :: 0 <= i < |devices| ==> after[i] == devices[i].(delivery := after[i].delivery)
    ensures TenEach(after)
  {
    forall user: nat ensures CurrentDevices(after, user) <= 10 {
      SameCurrent(devices, after, user);
    }
  }

  lemma {:induction false} SameCurrent(devices: seq<Device>, after: seq<Device>, user: nat)
    requires |after| == |devices|
    requires forall i :: 0 <= i < |devices| ==> after[i] == devices[i].(delivery := after[i].delivery)
    ensures CurrentDevices(after, user) == CurrentDevices(devices, user)
  {
    if devices != [] {
      SameCurrent(devices[..|devices| - 1], after[..|devices| - 1], user);
    }
  }

  lemma SameDevices(db: Db, op: Op)
    requires Apply(db, op).Ok? && !op.EnrollDevice? && !op.CreatePack?
    ensures |Apply(db, op).value.net.devices| == |db.net.devices|
  {
    hide PackOwner, PackServiceAllowed, ValidKey, ValidDestination, SnapshotOf, RulesFor, Permitted, Admins, LiveGrants;
  }

  lemma StepTen(db: Db, op: Op)
    requires Inv(db) && TenEach(db.net.devices) && Apply(db, op).Ok?
    ensures TenEach(Apply(db, op).value.net.devices)
  {
    hide Good, GoodRecords, TenEach, Enroll, ValidKey;
    if op.EnrollDevice? {
      EnrollTen(db.net, db.people, op.u, op.name, op.key);
    } else if op.CreatePack? {
      CreatePackTen(db, op);
    } else {
      hide Apply;
      StepKeeps(db, op);
      SameDevices(db, op);
      LastingTen(db.net, Apply(db, op).value.net);
    }
  }

  /** No member ever has more than ten devices that are not revoked, replaced ones included. */
  lemma {:induction false} AtMostTenDevices(ops: seq<Op>, user: nat)
    ensures CurrentDevices(Run(EMPTY, ops).net.devices, user) <= 10
  {
    hide Run;
    AlwaysTen(ops);
  }

  lemma {:induction false} AlwaysTen(ops: seq<Op>)
    ensures TenEach(Run(EMPTY, ops).net.devices)
  {
    if ops == [] {
      assert EMPTY.net.devices == [];
    } else {
      hide Inv, TenEach, Apply, SnapshotOf, ValidSnapshot, Lasting;
      var before := Run(EMPTY, ops[..|ops| - 1]);
      AlwaysTen(ops[..|ops| - 1]);
      EmptyIsGood();
      EveryReachableState(EMPTY, ops[..|ops| - 1]);
      if Apply(before, ops[|ops| - 1]).Ok? {
        StepTen(before, ops[|ops| - 1]);
      }
    }
  }

  // ---- access ----------------------------------------------------------

  predicate Accesses(db: Db, user: nat, service: nat) {
    user < |db.people| && db.people[user].enabled && Covered(db.records, user, Some(service), db.clock)
  }

  /** Access rises only by grant: not by time, approval, resolution of a support request,
      re-enabling an account or recovering one. */
  lemma AccessRisesByGrant(db: Db, op: Op, user: nat, service: nat)
    requires Inv(db) && Apply(db, op).Ok?
    requires !Accesses(db, user, service) && Accesses(Apply(db, op).value, user, service)
    ensures Grants(op) == Some((user, service))
  {
    hide Good, Lasting, Apply, Stepped;
    StepKeeps(db, op);
    ClockRises(db, op);
    var after := Apply(db, op).value;
    CoveredIsEnabled(db, user, service);
    CoverRisesByGrant(db.records, after.records, Grants(op), user, service, db.clock, after.clock);
  }

  /** A disabled account holds no access, so enabling it again cannot bring any back. */
  lemma CoveredIsEnabled(db: Db, user: nat, service: nat)
    requires Inv(db)
    ensures Covered(db.records, user, Some(service), db.clock) ==> user < |db.people| && db.people[user].enabled
  {
  }

  lemma ClockRises(db: Db, op: Op)
    requires Apply(db, op).Ok?
    ensures db.clock <= Apply(db, op).value.clock
  {
    hide Release, MemberSaved, Decide, Network.CreatePack, Network.SaveTarget, PackServiceAllowed;
    if op.ConsumePack? {
      ReleaseFrame(db, op.u, op.id);
    } else if op.SaveMember? {
      MemberClock(db, op.user, op.role, op.enabled);
    }
  }

  lemma MemberClock(db: Db, id: nat, role: Role, enabled: bool)
    requires MemberSaved(db, id, role, enabled).Ok?
    ensures MemberSaved(db, id, role, enabled).value.clock == db.clock
  {
  }

  /** A record that stops being active has exactly one open follow-up at that moment. */
  lemma LeavingOpensFollowup(db: Db, op: Op, i: nat)
    requires Inv(db) && Apply(db, op).Ok? && i < |db.records| && db.records[i].state == RecordActive
    ensures var after := Apply(db, op).value;
      i < |after.records|
      && (after.records[i].state != RecordActive ==> exists k :: OnlyOpen(after.records[i].followups, k))
  {
    hide Good, Lasting, Apply, OnlyOpen;
    StepKeeps(db, op);
    var after := Apply(db, op).value;
    if after.records[i].state != RecordActive {
      LeavingIsFollowed(db.records, after.records, after.people, Grants(op), i);
    }
  }

  /** A request commit touches access only by fulfilling, and then does exactly what `Fulfil` does. */
  lemma RequestsGrantByFulfilling(db: Db, d: Requests.Desk, u: Actor, id: nat, r: Requests.Request, version: int,
                                  target: Requests.State, expires: Option<Time>)
    requires d.people == db.people && d.services == db.services && d.records == db.records
    requires Requests.TransitionCommit(d, u, id, r, version, target, expires, db.clock).Ok?
    ensures var records := Requests.TransitionCommit(d, u, id, r, version, target, expires, db.clock).value.records;
      if r.kind == Requests.Access && r.state == Requests.SetupPending && target == Requests.Fulfilled
      then Apply(db, Fulfil(r.user, r.service, expires)) == Ok(db.(records := records))
      else records == db.records
  {
    hide Requests.Indexed, Records.GrantAccess;
  }

  /** Reconciling twice at one instant is reconciling once. */
  lemma ReconciledTwice(db: Db)
    ensures Reconciled(Reconciled(db)) == Reconciled(db)
  {
  }

  // ---- administrators --------------------------------------------------

  /** Once there is a usable administrator, there always is. */
  lemma {:induction false} AdministratorRemains(db: Db, ops: seq<Op>)
    requires Admins(db.people) != {}
    ensures Admins(Run(db, ops).people) != {}
  {
    hide Apply, Admins;
    if ops != [] {
      var before := Run(db, ops[..|ops| - 1]);
      AdministratorRemains(db, ops[..|ops| - 1]);
      if Apply(before, ops[|ops| - 1]).Ok? {
        AdministratorKept(before, ops[|ops| - 1]);
      }
    }
  }

  lemma AdministratorKept(db: Db, op: Op)
    requires Admins(db.people) != {} && Apply(db, op).Ok?
    ensures Admins(Apply(db, op).value.people) != {}
  {
    hide Apply, MemberSaved;
    PeopleFrame(db, op);
    if op.SaveMember? {
      SavedAdministrator(db, op.user, op.role, op.enabled);
    } else {
      var a :| a in Admins(db.people);
      StaysAdministrator(db.people, Apply(db, op).value.people, a);
    }
  }

  /** Only saving a member takes a role or an enabled account away. */
  lemma PeopleFrame(db: Db, op: Op)
    requires Apply(db, op).Ok?
    ensures var people := Apply(db, op).value.people;
      if op.SaveMember? then
        MemberSaved(db, op.user, op.role, op.enabled).Ok?
        && op.user < |db.people| && people == db.people[op.user := people[op.user]]
        && people == MemberSaved(db, op.user, op.role, op.enabled).value.people
      else
        |db.people| <= |people| && forall i :: 0 <= i < |db.people| ==>
          db.people[i].role == Admin && db.people[i].enabled ==> people[i].role == Admin && people[i].enabled
  {
    hide Release, Decide, Network.CreatePack, Network.SaveTarget, PackServiceAllowed, Admins;
    if op.ConsumePack? {
      ReleaseFrame(db, op.u, op.id);
    }
  }

  lemma StaysAdministrator(people: seq<User>, after: seq<User>, a: nat)
    requires a in Admins(people) && |people| <= |after|
    requires people[a].role == Admin && people[a].enabled ==> after[a].role == Admin && after[a].enabled
    ensures a in Admins(after)
  {
  }

  lemma SavedAdministrator(db: Db, id: nat, role: Role, enabled: bool)
    requires Admins(db.people) != {} && MemberSaved(db, id, role, enabled).Ok?
    ensures Admins(MemberSaved(db, id, role, enabled).value.people) != {}
  {
    var after := MemberSaved(db, id, role, enabled).value.people;
    var a :| a in Admins(db.people);
    if a !in Admins(after) {
      SubsetCardinality({a}, Admins(db.people));
      var others := Admins(db.people) - {a};
      assert |others| > 0;
      var b :| b in others;
      assert b in Admins(after);
    }
  }
}
