/** The portal's device, target, grant and delivery tables: transactions and what they keep. */
module Network {
  import opened Base
  import opened Policy
  import opened Prefixes
  import opened Catalog

  datatype Place = Place(cidr: Cidr, protocol: string, ports: string)

  const NOWHERE: Place := Place(Malformed(""), "", "")

  datatype Target = Target(service: nat, place: Place, enabled: bool, version: nat)

  datatype DeviceState = DeviceRequested | DeviceApproved | DeviceRevoked

  /** A one-time connection pack: the sealed private key until it is handed out or discarded. */
  datatype Delivery = Delivery(secret: Option<string>, expires: Time, consumed: bool)

  /** `host` is the last octet of the device's address 10.77.0.x. */
  datatype Device = Device(user: nat, name: string, key: string, host: int, state: DeviceState, version: nat,
                           delivery: Option<Delivery>)

  datatype GrantState = Pending | Approved | Denied | Revoked | Expired
  datatype GrantRow = GrantRow(state: GrantState, place: Place, expires: Option<Time>)

  /** Which operation closed a grant; the database does not store this. */
  datatype Closing = Open | ByDecision | ByDevice | ByTime

  /** A network grant with its history rows, oldest first. */
  datatype Grant = Grant(device: nat, target: nat, state: GrantState, place: Place, expires: Option<Time>, version: nat,
                         closing: Closing, rows: seq<GrantRow>)

  /** What the gateway last acknowledged. */
  datatype Status = Status(revision: Revision, key: string, seen: Option<Time>)

  /** A pack as it left the portal. */
  datatype Pack = Pack(device: nat, secret: string, routes: set<Cidr>)

  datatype Net = Net(targets: seq<Target>, devices: seq<Device>, grants: seq<Grant>, status: Status,
                     released: seq<Pack>)

  predicate IsOpen(g: Grant) {
    g.state == Pending || g.state == Approved
  }

  // ---- statements shared by several transactions -----------------------

  function Close(g: Grant, state: GrantState, closing: Closing): Grant {
    g.(state := state, version := g.version + 1, closing := closing,
       rows := g.rows + [GrantRow(state, g.place, g.expires)])
  }

  function Emptied(d: Device): Device {
    if d.delivery.Some? then d.(delivery := Some(d.delivery.value.(secret := None))) else d
  }

  /** The devices `gone` are revoked, their stored keys discarded and their open grants revoked. */
  function Retire(net: Net, gone: set<nat>): Net {
    net.(devices := seq(|net.devices|, i requires 0 <= i < |net.devices| =>
                      var d := net.devices[i];
                      if i !in gone then d
                      else if d.state == DeviceRevoked then Emptied(d)
                      else Emptied(d).(state := DeviceRevoked, version := d.version + 1)),
         grants := seq(|net.grants|, i requires 0 <= i < |net.grants| =>
                      var g := net.grants[i];
                      if g.device in gone && IsOpen(g) then Close(g, Revoked, ByDevice) else g))
  }

  predicate Lapsed(g: Grant, now: Time) {
    g.state == Approved && (g.expires.None? || g.expires.value <= now)
  }

  predicate Spoiled(d: Device, people: seq<User>, now: Time) {
    && d.delivery.Some?
    && (d.delivery.value.expires <= now || d.state == DeviceRevoked || (d.user < |people| && !people[d.user].enabled))
  }

  /** Expired grants close and spoiled deliveries lose their keys. */
  function Expire(net: Net, people: seq<User>, now: Time): Net {
    net.(devices := seq(|net.devices|, i requires 0 <= i < |net.devices| =>
                      if Spoiled(net.devices[i], people, now) then Emptied(net.devices[i]) else net.devices[i]),
         grants := seq(|net.grants|, i requires 0 <= i < |net.grants| =>
                      if Lapsed(net.grants[i], now) then Close(net.grants[i], Expired, ByTime) else net.grants[i]))
  }

  predicate HostUsed(devices: seq<Device>, host: int) {
    exists i :: 0 <= i < |devices| && devices[i].host == host
  }

  /** The least host address from `from` on that no device ever had. */
  function FreeHost(devices: seq<Device>, from: int): Option<int>
    decreases 255 - from
  {
    if from >= 255 then None else if HostUsed(devices, from) then FreeHost(devices, from + 1) else Some(from)
  }

  function CurrentDevices(devices: seq<Device>, user: nat): nat {
    if devices == [] then 0
    else
      var d := devices[|devices| - 1];
      CurrentDevices(devices[..|devices| - 1], user) + if d.user == user && d.state != DeviceRevoked then 1 else 0
  }

  predicate KeyUsed(devices: seq<Device>, key: string) {
    exists i :: 0 <= i < |devices| && devices[i].key == key
  }

  predicate OpenGrantExists(grants: seq<Grant>, device: nat, target: nat) {
    exists i :: 0 <= i < |grants| && grants[i].device == device && grants[i].target == target && IsOpen(grants[i])
  }

  function NewGrant(device: nat, target: nat): Grant {
    Grant(device, target, Pending, NOWHERE, None, 1, Open, [GrantRow(Pending, NOWHERE, None)])
  }

  function LiveGrants(grants: seq<Grant>, now: Time): set<nat> {
    set i | 0 <= i < |grants| && grants[i].state == Approved && grants[i].expires.Some? && grants[i].expires.value > now
  }

  // ---- transactions ----------------------------------------------------

  function Enroll(net: Net, people: seq<User>, u: Actor, name: string, key: string): Result<Net> {
    if !(u.id < |people|) || !people[u.id].enabled then Rejected
    else if CurrentDevices(net.devices, u.id) >= 10 then Rejected
    else
      var host := FreeHost(net.devices, 2);
      if host.None? || KeyUsed(net.devices, key) then Rejected
      else Ok(net.(devices := net.devices + [Device(u.id, name, key, host.value, DeviceRequested, 1, None)]))
  }

  function RequestGrant(net: Net, people: seq<User>, u: Actor, device: nat, target: nat, now: Time): Result<Net> {
    if !(device < |net.devices| && net.devices[device].user == u.id
         && net.devices[device].state != DeviceRevoked) then Rejected
    else if !(u.id < |people| && people[u.id].enabled) then Rejected
    else
      var swept := Expire(net, people, now);
      if !(target < |net.targets|) || OpenGrantExists(swept.grants, device, target) then Rejected
      else Ok(swept.(grants := swept.grants + [NewGrant(device, target)]))
  }

  ghost function Approve(net: Net, people: seq<User>, services: seq<Service>, id: nat, targetVersion: nat,
                         expires: Time, now: Time): Result<Net>
    requires id < |net.grants| && net.grants[id].target < |net.targets| && net.grants[id].device < |net.devices|
  {
    var g := net.grants[id];
    var t, d := net.targets[g.target], net.devices[g.device];
    if |LiveGrants(net.grants, now)| >= 1024 || t.version != targetVersion then Rejected
    else if !(d.user < |people| && people[d.user].enabled) || d.state == DeviceRevoked then Rejected
    else if !(t.service < |services| && services[t.service].published && !services[t.service].archived)
         || !t.enabled then Rejected
    else if !ValidDestination(t.place.cidr, t.place.protocol, t.place.ports) then Rejected
    else
      var approved := g.(state := Approved, place := t.place, expires := Some(expires), version := g.version + 1,
                         rows := g.rows + [GrantRow(Approved, t.place, Some(expires))]);
      Ok(net.(devices := net.devices[g.device := d.(state := DeviceApproved, version := d.version + 1)],
              grants := net.grants[id := approved]))
  }

  /** A denial or revocation records the grant as it was and as it is, and blanks its route. */
  function CloseByDecision(g: Grant, state: GrantState): Grant {
    g.(state := state, place := NOWHERE, expires := None, version := g.version + 1, closing := ByDecision,
       rows := g.rows + [GrantRow(g.state, g.place, g.expires), GrantRow(state, NOWHERE, None)])
  }

  ghost function Decide(net: Net, people: seq<User>, services: seq<Service>, u: Actor, id: nat, version: nat,
                        targetVersion: nat,
                        state: GrantState, expires: Time, now: Time): Result<Net>
  {
    if u.role != Admin || !(id < |net.grants| && net.grants[id].version == version) then Rejected
    else if !(net.grants[id].target < |net.targets| && net.grants[id].device < |net.devices|) then Rejected
    else
      match (net.grants[id].state, state)
      case (Pending, Approved) => Approve(net, people, services, id, targetVersion, expires, now)
      case (Pending, Denied) => Ok(net.(grants := net.grants[id := CloseByDecision(net.grants[id], Denied)]))
      case (Approved, Revoked) => Ok(net.(grants := net.grants[id := CloseByDecision(net.grants[id], Revoked)]))
      case _ => Rejected
  }

  function RevokeDevice(net: Net, u: Actor, id: nat, version: nat): Result<Net> {
    if !(id < |net.devices| && net.devices[id].version == version) then Rejected
    else if net.devices[id].state == DeviceRevoked || (u.role != Admin && net.devices[id].user != u.id) then Rejected
    else Ok(Retire(net, {id}))
  }

  ghost function SaveTarget(net: Net, services: seq<Service>, u: Actor, id: Option<nat>, service: nat,
                            place: Place, enabled: bool, version: nat): Result<Net> {
    if u.role != Admin || !ValidDestination(place.cidr, place.protocol, place.ports) then Rejected
    else if !(service < |services|) || services[service].archived then Rejected
    else
      match id
      case None => Ok(net.(targets := net.targets + [Target(service, place, enabled, 1)]))
      case Some(t) =>
        if !(t < |net.targets| && net.targets[t].service == service && net.targets[t].version == version) then Rejected
        else Ok(net.(targets := net.targets[t := Target(service, place, enabled, version + 1)]))
  }

  predicate NameTaken(devices: seq<Device>, user: nat, name: string) {
    exists i :: 0 <= i < |devices| && devices[i].user == user
      && devices[i].state != DeviceRevoked && SameName(devices[i].name, name)
  }

  /** The account is still the one that was authenticated. */
  predicate PackOwner(people: seq<User>, u: Actor) {
    u.id < |people| && people[u.id].enabled && people[u.id].role == u.role && people[u.id].generation == u.generation
  }

  /** `replace`, when given, names the caller's device to retire and the version it was seen at. */
  function CreatePack(net: Net, people: seq<User>, u: Actor, allowed: bool, name: string, target: nat,
                      replace: Option<(nat, nat)>, key: string, secret: string, now: Time): Result<Net>
  {
    if !PackOwner(people, u) || !(target < |net.targets|) || !net.targets[target].enabled || !allowed then Rejected
    else if replace.Some? && !Replaceable(net, u, replace.value.0, replace.value.1) then Rejected
    else
      var kept := if replace.Some? then Retire(net, {replace.value.0}) else net;
      if NameTaken(kept.devices, u.id, name) then Rejected
      else
        match Enroll(kept, people, u, name, key)
        case Rejected => Rejected
        case Ok(more) =>
          var id := |more.devices| - 1;
          if !(0 <= id) then Rejected
          else
            var d := more.devices[id].(delivery := Some(Delivery(Some(secret), now + 30 * 86400, false)));
            Ok(more.(devices := more.devices[id := d], grants := more.grants + [NewGrant(id, target)]))
  }

  predicate Replaceable(net: Net, u: Actor, id: nat, version: nat) {
    id < |net.devices| && net.devices[id].user == u.id && net.devices[id].version == version
    && net.devices[id].state != DeviceRevoked
  }

  function DevicesOf(devices: seq<Device>, user: nat): set<nat> {
    set i | 0 <= i < |devices| && devices[i].user == user
  }

  /** The network half of disabling a member. */
  function DisableMember(net: Net, user: nat): Net {
    Retire(net, DevicesOf(net.devices, user))
  }

  // ---- the invariant ---------------------------------------------------

  predicate NoSecret(d: Device) {
    d.delivery.None? || d.delivery.value.secret.None?
  }

  ghost predicate GoodDevice(d: Device, people: seq<User>) {
    && 2 <= d.host <= 254 && ValidKey(d.key) && d.user < |people|
    && (d.state == DeviceRevoked ==> NoSecret(d))
    && (!people[d.user].enabled ==> d.state == DeviceRevoked)
    && (d.delivery.Some? && d.delivery.value.consumed ==> NoSecret(d))
  }

  /** Hosts and keys are never shared, whatever became of the devices. */
  ghost predicate DistinctDevices(devices: seq<Device>) {
    forall i, j :: 0 <= i < j < |devices| ==> devices[i].host != devices[j].host && devices[i].key != devices[j].key
  }

  /** The ledger: the last history row is the grant's current state, and there is one row per
      version, one more for a grant closed by a decision. */
  ghost predicate Balanced(g: Grant) {
    && |g.rows| == g.version + (if g.closing == ByDecision then 1 else 0)
    && |g.rows| > 0 && g.rows[|g.rows| - 1] == GrantRow(g.state, g.place, g.expires)
    && (IsOpen(g) <==> g.closing == Open)
  }

  ghost predicate GoodGrant(g: Grant, net: Net) {
    && g.device < |net.devices| && g.target < |net.targets|
    && Balanced(g)
    && (IsOpen(g) ==> net.devices[g.device].state != DeviceRevoked)
    && (g.state == Approved ==>
          && net.devices[g.device].state == DeviceApproved
          && ValidDestination(g.place.cidr, g.place.protocol, g.place.ports) && g.expires.Some?)
  }

  ghost predicate OneOpenEach(grants: seq<Grant>) {
    forall i, j :: 0 <= i < j < |grants| && IsOpen(grants[i]) && IsOpen(grants[j]) ==>
      grants[i].device != grants[j].device || grants[i].target != grants[j].target
  }

  ghost predicate GoodPacks(net: Net) {
    && (forall k :: 0 <= k < |net.released| ==>
          var id := net.released[k].device;
          id < |net.devices| && net.devices[id].delivery.Some? && net.devices[id].delivery.value.consumed)
    && (forall j, k :: 0 <= j < k < |net.released| ==> net.released[j].device != net.released[k].device)
  }

  ghost predicate Good(net: Net, people: seq<User>, now: Time) {
    && (forall i :: 0 <= i < |net.devices| ==> GoodDevice(net.devices[i], people))
    && DistinctDevices(net.devices)
    && (forall i :: 0 <= i < |net.grants| ==> GoodGrant(net.grants[i], net))
    && OneOpenEach(net.grants)
    && |LiveGrants(net.grants, now)| <= 1024
    && GoodPacks(net)
  }

  /** A device keeps its owner, key and address for ever, a revoked one stays revoked, a consumed
      delivery stays consumed. */
  ghost predicate DevicesLast(devices: seq<Device>, after: seq<Device>) {
    && |devices| <= |after|
    && forall i :: 0 <= i < |devices| ==>
         var d, e := devices[i], after[i];
         && d.user == e.user && d.key == e.key && d.host == e.host && d.version <= e.version
         && (d.state == DeviceRevoked ==> e.state == DeviceRevoked)
         && (d.delivery.Some? ==> e.delivery.Some?)
         && (d.delivery.Some? && d.delivery.value.consumed ==> e.delivery.value.consumed)
  }

  /** The grant itself, or the grant on its way: a closed grant is never touched again. */
  ghost predicate GrantLasts(g: Grant, h: Grant) {
    g.device == h.device && g.target == h.target && g.version <= h.version && (IsOpen(g) || g == h)
  }

  ghost predicate GrantsLast(grants: seq<Grant>, after: seq<Grant>) {
    |grants| <= |after| && forall i :: 0 <= i < |grants| ==> GrantLasts(grants[i], after[i])
  }

  /** What never changes back. */
  ghost predicate Lasting(net: Net, after: Net) {
    && DevicesLast(net.devices, after.devices) && GrantsLast(net.grants, after.grants)
    && net.released <= after.released
  }

  lemma LastingTwice(a: Net, b: Net, c: Net)
    requires Lasting(a, b) && Lasting(b, c)
    ensures Lasting(a, c)
  {
  }

  // ---- every transaction keeps it --------------------------------------

  lemma FewerLive(grants: seq<Grant>, after: seq<Grant>, now: Time, later: Time)
    requires LiveGrants(after, later) <= LiveGrants(grants, now)
    requires |LiveGrants(grants, now)| <= 1024
    ensures |LiveGrants(after, later)| <= 1024
  {
    SubsetCardinality(LiveGrants(after, later), LiveGrants(grants, now));
  }

  /** Time alone keeps the invariant: live approvals only lapse. */
  lemma TimeKeeps(net: Net, people: seq<User>, now: Time, later: Time)
    requires Good(net, people, now) && now <= later
    ensures Good(net, people, later)
  {
    FewerLive(net.grants, net.grants, now, later);
  }

  /** A device as it was, or emptied, or revoked and emptied. */
  ghost predicate DeviceKept(d: Device, e: Device) {
    || e == d || e == Emptied(d)
    || (d.state != DeviceRevoked && e == Emptied(d).(state := DeviceRevoked, version := d.version + 1))
  }

  /** A grant as it was, or closed by something other than a decision. */
  ghost predicate GrantKept(g: Grant, h: Grant) {
    h == g || (IsOpen(g) && (h == Close(g, Revoked, ByDevice) || h == Close(g, Expired, ByTime)))
  }

  lemma SweepDevices(net: Net, after: Net, people: seq<User>)
    requires forall i :: 0 <= i < |net.devices| ==> GoodDevice(net.devices[i], people)
    requires DistinctDevices(net.devices) && GoodPacks(net)
    requires after.released == net.released && |after.devices| == |net.devices|
    requires forall i :: 0 <= i < |net.devices| ==> DeviceKept(net.devices[i], after.devices[i])
    ensures forall i :: 0 <= i < |after.devices| ==> GoodDevice(after.devices[i], people)
    ensures DistinctDevices(after.devices) && GoodPacks(after) && DevicesLast(net.devices, after.devices)
  {
    hide ValidKey;
  }

  /** The device of a grant that stays open keeps its state. */
  ghost predicate NoneStranded(net: Net, after: Net)
    requires |after.devices| == |net.devices| && |after.grants| == |net.grants|
  {
    forall i :: 0 <= i < |net.grants| && IsOpen(after.grants[i]) && net.grants[i].device < |net.devices| ==>
      after.devices[net.grants[i].device].state == net.devices[net.grants[i].device].state
  }

  lemma SweepGrants(net: Net, after: Net)
    requires forall i :: 0 <= i < |net.grants| ==> GoodGrant(net.grants[i], net)
    requires after.targets == net.targets
    requires |after.devices| == |net.devices| && |after.grants| == |net.grants|
    requires forall i :: 0 <= i < |net.grants| ==> GrantKept(net.grants[i], after.grants[i])
    requires NoneStranded(net, after)
    ensures forall i :: 0 <= i < |after.grants| ==> GoodGrant(after.grants[i], after)
    ensures forall i :: 0 <= i < |after.grants| ==> after.grants[i] == net.grants[i] || !IsOpen(after.grants[i])
    ensures GrantsLast(net.grants, after.grants)
  {
  }

  /** Closing some grants and emptying or revoking some devices keeps the invariant, provided no
      open grant is left on a revoked device. */
  lemma SweepKeeps(net: Net, after: Net, people: seq<User>, now: Time)
    requires Good(net, people, now)
    requires after == net.(devices := after.devices, grants := after.grants)
    requires |after.devices| == |net.devices| && |after.grants| == |net.grants|
    requires forall i :: 0 <= i < |net.devices| ==> DeviceKept(net.devices[i], after.devices[i])
    requires forall i :: 0 <= i < |net.grants| ==> GrantKept(net.grants[i], after.grants[i])
    requires NoneStranded(net, after)
    ensures Good(after, people, now) && Lasting(net, after)
  {
    hide GoodDevice, GoodGrant, DeviceKept, GrantKept, GoodPacks, DistinctDevices, GrantsLast, DevicesLast;
    SweepDevices(net, after, people);
    SweepGrants(net, after);
    FewerLive(net.grants, after.grants, now, now);
  }

  lemma RetireKeeps(net: Net, people: seq<User>, now: Time, gone: set<nat>)
    requires Good(net, people, now)
    ensures Good(Retire(net, gone), people, now) && Lasting(net, Retire(net, gone))
    ensures forall i :: 0 <= i < |net.devices| && i in gone ==> Retire(net, gone).devices[i].state == DeviceRevoked
  {
    hide GoodDevice, Balanced, LiveGrants, DistinctDevices, OneOpenEach, GoodPacks, ValidDestination, DevicesLast,
         GrantsLast;
    SweepKeeps(net, Retire(net, gone), people, now);
  }

  lemma ExpireKeeps(net: Net, people: seq<User>, now: Time)
    requires Good(net, people, now)
    ensures Good(Expire(net, people, now), people, now) && Lasting(net, Expire(net, people, now))
  {
    hide GoodDevice, Balanced, LiveGrants, DistinctDevices, OneOpenEach, GoodPacks, ValidDestination, DevicesLast,
         GrantsLast;
    SweepKeeps(net, Expire(net, people, now), people, now);
  }

  lemma {:induction false} FreeHostIsFree(devices: seq<Device>, from: int)
    requires 2 <= from
    ensures var h := FreeHost(devices, from);
      && (h.Some? ==> from <= h.value <= 254 && !HostUsed(devices, h.value)
                      && forall i :: from <= i < h.value ==> HostUsed(devices, i))
      && (h.None? ==> forall i :: from <= i < 255 ==> HostUsed(devices, i))
    decreases 255 - from
  {
    if from < 255 && HostUsed(devices, from) {
      FreeHostIsFree(devices, from + 1);
    }
  }

  lemma NewDeviceKeeps(net: Net, people: seq<User>, now: Time, d: Device)
    requires Good(net, people, now)
    requires GoodDevice(d, people) && !HostUsed(net.devices, d.host) && !KeyUsed(net.devices, d.key)
    ensures var after := net.(devices := net.devices + [d]);
      Good(after, people, now) && Lasting(net, after)
  {
    hide GoodDevice, Balanced, ValidDestination;
    var after := net.(devices := net.devices + [d]);
    assert forall i :: 0 <= i < |net.devices| ==> after.devices[i] == net.devices[i];
    FewerLive(net.grants, after.grants, now, now);
    forall i | 0 <= i < |after.grants| ensures GoodGrant(after.grants[i], after) {
      assert GoodGrant(net.grants[i], net);
    }
  }

  lemma EnrollKeeps(net: Net, people: seq<User>, now: Time, u: Actor, name: string, key: string)
    requires Good(net, people, now) && ValidKey(key)
    requires Enroll(net, people, u, name, key).Ok?
    ensures Good(Enroll(net, people, u, name, key).value, people, now)
    ensures Lasting(net, Enroll(net, people, u, name, key).value)
  {
    hide ValidKey, Good, FreeHost, HostUsed, KeyUsed;
    FreeHostIsFree(net.devices, 2);
    NewDeviceKeeps(net, people, now, Device(u.id, name, key, FreeHost(net.devices, 2).value, DeviceRequested, 1, None));
  }

  lemma NewGrantKeeps(net: Net, people: seq<User>, now: Time, device: nat, target: nat)
    requires Good(net, people, now)
    requires device < |net.devices| && target < |net.targets| && net.devices[device].state != DeviceRevoked
    requires !OpenGrantExists(net.grants, device, target)
    ensures var after := net.(grants := net.grants + [NewGrant(device, target)]);
      Good(after, people, now) && Lasting(net, after)
  {
    hide ValidDestination, ValidKey;
    var after := net.(grants := net.grants + [NewGrant(device, target)]);
    FewerLive(net.grants, after.grants, now, now);
  }

  lemma RequestGrantKeeps(net: Net, people: seq<User>, now: Time, u: Actor, device: nat, target: nat)
    requires Good(net, people, now)
    requires RequestGrant(net, people, u, device, target, now).Ok?
    ensures Good(RequestGrant(net, people, u, device, target, now).value, people, now)
    ensures Lasting(net, RequestGrant(net, people, u, device, target, now).value)
  {
    var swept := Expire(net, people, now);
    ExpireKeeps(net, people, now);
    NewGrantKeeps(swept, people, now, device, target);
    LastingTwice(net, swept, RequestGrant(net, people, u, device, target, now).value);
  }

  /** One device approved, or untouched. */
  ghost predicate DeviceAdmitted(d: Device, e: Device) {
    e == d || (d.state != DeviceRevoked && e == d.(state := DeviceApproved, version := d.version + 1))
  }

  lemma AdmitDevice(net: Net, people: seq<User>, id: nat, d: Device)
    requires forall i :: 0 <= i < |net.devices| ==> GoodDevice(net.devices[i], people)
    requires DistinctDevices(net.devices) && GoodPacks(net)
    requires id < |net.devices| && DeviceAdmitted(net.devices[id], d)
    ensures var after := net.(devices := net.devices[id := d]);
      && (forall i :: 0 <= i < |after.devices| ==> GoodDevice(after.devices[i], people))
      && DistinctDevices(after.devices) && GoodPacks(after) && DevicesLast(net.devices, after.devices)
  {
    hide ValidKey;
    var after := net.(devices := net.devices[id := d]);
    assert GoodDevice(net.devices[id], people);
  }

  /** Replacing one open grant, and possibly approving its device. */
  lemma DecisionKeeps(net: Net, people: seq<User>, now: Time, id: nat, d: Device, g: Grant)
    requires Good(net, people, now) && id < |net.grants| && IsOpen(net.grants[id])
    requires GrantLasts(net.grants[id], g) && DeviceAdmitted(net.devices[net.grants[id].device], d)
    requires GoodGrant(g, net.(devices := net.devices[g.device := d]))
    requires IsOpen(g) ==> |LiveGrants(net.grants, now)| < 1024
    ensures var after := net.(devices := net.devices[g.device := d], grants := net.grants[id := g]);
      Good(after, people, now) && Lasting(net, after)
  {
    hide Balanced, GoodDevice, DistinctDevices, GoodPacks, DevicesLast, ValidDestination;
    var after := net.(devices := net.devices[g.device := d], grants := net.grants[id := g]);
    AdmitDevice(net, people, g.device, d);
    assert after.released == net.(devices := after.devices).released;
    PacksStay(net.(devices := after.devices), after);
    var live := LiveGrants(net.grants, now);
    if IsOpen(g) {
      assert LiveGrants(after.grants, now) <= live + {id};
      SubsetCardinality(LiveGrants(after.grants, now), live + {id});
    } else {
      FewerLive(net.grants, after.grants, now, now);
    }
    forall i | 0 <= i < |after.grants| ensures GoodGrant(after.grants[i], after) {
      assert GoodGrant(net.grants[i], net);
    }
  }

  lemma PacksStay(net: Net, after: Net)
    requires GoodPacks(net) && after.devices == net.devices && after.released == net.released
    ensures GoodPacks(after)
  {
  }

  lemma DecideKeeps(net: Net, people: seq<User>, services: seq<Service>, now: Time, u: Actor, id: nat, version: nat,
                    targetVersion: nat, state: GrantState, expires: Time)
    requires Good(net, people, now)
    requires Decide(net, people, services, u, id, version, targetVersion, state, expires, now).Ok?
    ensures Good(Decide(net, people, services, u, id, version, targetVersion, state, expires, now).value, people, now)
    ensures Lasting(net, Decide(net, people, services, u, id, version, targetVersion, state, expires, now).value)
  {
    hide ValidDestination, ValidKey, DistinctDevices, OneOpenEach, GoodPacks, LiveGrants, DevicesLast, GrantsLast;
    var after := Decide(net, people, services, u, id, version, targetVersion, state, expires, now).value;
    var dev := net.grants[id].device;
    assert GoodGrant(net.grants[id], net) && GoodDevice(net.devices[dev], people);
    assert net.devices == net.devices[dev := net.devices[dev]];
    DecisionKeeps(net, people, now, id, after.devices[dev], after.grants[id]);
    assert after == net.(devices := net.devices[dev := after.devices[dev]],
                         grants := net.grants[id := after.grants[id]]);
  }

  lemma SaveTargetKeeps(net: Net, people: seq<User>, services: seq<Service>, now: Time, u: Actor, id: Option<nat>,
                        service: nat, place: Place, enabled: bool, version: nat)
    requires Good(net, people, now)
    requires SaveTarget(net, services, u, id, service, place, enabled, version).Ok?
    ensures Good(SaveTarget(net, services, u, id, service, place, enabled, version).value, people, now)
    ensures Lasting(net, SaveTarget(net, services, u, id, service, place, enabled, version).value)
  {
    hide ValidDestination, ValidKey;
  }

  lemma CreatePackKeeps(net: Net, people: seq<User>, now: Time, u: Actor, allowed: bool, name: string, target: nat,
                        replace: Option<(nat, nat)>, key: string, secret: string)
    requires Good(net, people, now) && ValidKey(key)
    requires CreatePack(net, people, u, allowed, name, target, replace, key, secret, now).Ok?
    ensures Good(CreatePack(net, people, u, allowed, name, target, replace, key, secret, now).value, people, now)
    ensures Lasting(net, CreatePack(net, people, u, allowed, name, target, replace, key, secret, now).value)
  {
    hide Good, Lasting, Enroll, NameTaken;
    var after := CreatePack(net, people, u, allowed, name, target, replace, key, secret, now).value;
    var kept := if replace.Some? then Retire(net, {replace.value.0}) else net;
    if replace.Some? {
      RetireKeeps(net, people, now, {replace.value.0});
    } else {
      LastingStart(net);
    }
    EnrollKeeps(kept, people, now, u, name, key);
    var more := Enroll(kept, people, u, name, key).value;
    NewDevice(kept, people, now, u, name, key);
    var id := |more.devices| - 1;
    var delivery := Delivery(Some(secret), now + 30 * 86400, false);
    var sealed := more.(devices := more.devices[id := more.devices[id].(delivery := Some(delivery))]);
    SealKeeps(more, people, now, id, delivery);
    NewGrantKeeps(sealed, people, now, id, target);
    LastingTwice(net, kept, more);
    LastingTwice(net, more, sealed);
    LastingTwice(net, sealed, after);
  }

  lemma LastingStart(net: Net)
    ensures Lasting(net, net)
  {
  }

  /** An enrolled device is new: it has no delivery and no grant. */
  lemma NewDevice(net: Net, people: seq<User>, now: Time, u: Actor, name: string, key: string)
    requires Good(net, people, now) && Enroll(net, people, u, name, key).Ok?
    ensures var more := Enroll(net, people, u, name, key).value;
      && |more.devices| == |net.devices| + 1
      && more.devices[|net.devices|].state == DeviceRequested && more.devices[|net.devices|].delivery.None?
      && more.targets == net.targets && more.grants == net.grants
      && forall target :: !OpenGrantExists(more.grants, |net.devices|, target)
  {
  }

  lemma SealKeeps(net: Net, people: seq<User>, now: Time, id: nat, delivery: Delivery)
    requires Good(net, people, now) && id < |net.devices| && !delivery.consumed
    requires net.devices[id].state != DeviceRevoked && net.devices[id].delivery.None?
    ensures var after := net.(devices := net.devices[id := net.devices[id].(delivery := Some(delivery))]);
      Good(after, people, now) && Lasting(net, after)
  {
    hide ValidDestination, ValidKey;
  }
}
