/** Handing out a connection pack: the conditions, the routes in it, and that it happens once. */
module Deliveries {
  import opened Base
  import opened Prefixes
  import opened Policy
  import opened Catalog
  import opened Network
  import opened Snapshots

  /** Everything the portal stores that these properties speak of. */
  datatype Db = Db(clock: Time, people: seq<User>, services: seq<Service>, categories: seq<Category>,
                   records: seq<Record>, net: Net)
  {
    function Joined(): Tables {
      Tables(net, people, services)
    }

    /** The policy of this moment. */
    function Current(): Snapshot {
      SnapshotOf(Joined(), clock)
    }
  }

  /** A gateway that was heard of at most 20 seconds ago, has the current policy and a key. */
  predicate Confirmed(db: Db, current: Revision) {
    var s := db.net.status;
    s.seen.Some? && 0 <= db.clock - s.seen.value <= 20 && s.revision == current && ValidKey(s.key)
  }

  predicate Offers(db: Db, u: Actor, id: nat) {
    && id < |db.net.devices| && db.net.devices[id].user == u.id && db.net.devices[id].state == DeviceApproved
    && var delivery := db.net.devices[id].delivery;
       delivery.Some? && !delivery.value.consumed && delivery.value.secret.Some? && delivery.value.expires > db.clock
  }

  /** The rules of the last peer with this identifier. */
  function RulesFor(peers: seq<Peer>, id: int): seq<Rule> {
    if peers == [] then []
    else if peers[|peers| - 1].id == id then peers[|peers| - 1].rules
    else RulesFor(peers[..|peers| - 1], id)
  }

  /** The rule's grant is for a service its owner may see at this moment. */
  predicate Permits(db: Db, u: Actor, r: Rule) {
    && 1 <= r.id <= |db.net.grants| && db.net.grants[r.id - 1].target < |db.net.targets|
    && PackServiceAllowed(db.services, db.categories, db.records, u,
                          db.net.targets[db.net.grants[r.id - 1].target].service, db.clock)
  }

  function Permitted(db: Db, u: Actor, rules: seq<Rule>): seq<Rule> {
    if rules == [] then []
    else
      var last := rules[|rules| - 1];
      Permitted(db, u, rules[..|rules| - 1]) + if Permits(db, u, last) then [last] else []
  }

  function Routes(rules: seq<Rule>): set<Cidr> {
    set r | r in rules :: r.cidr
  }

  /** The delivery is consumed, its secret discarded, and the pack is on its way. */
  function Consumed(net: Net, id: nat, pack: Pack): Net
    requires id < |net.devices| && net.devices[id].delivery.Some?
  {
    var d := net.devices[id];
    net.(devices := net.devices[id := d.(delivery := Some(d.delivery.value.(secret := None, consumed := true)))],
         released := net.released + [pack])
  }

  function Release(db: Db, u: Actor, id: nat): Result<Db> {
    if !PackOwner(db.people, u) || !Offers(db, u, id) || !Confirmed(db, db.Current().revision) then Rejected
    else
      var rules := Permitted(db, u, RulesFor(db.Current().peers, id + 1));
      if rules == [] then Rejected
      else Ok(db.(net := Consumed(db.net, id, Pack(id, db.net.devices[id].delivery.value.secret.value, Routes(rules)))))
  }

  lemma {:induction false} PermittedExactly(db: Db, u: Actor, rules: seq<Rule>, r: Rule)
    ensures r in Permitted(db, u, rules) <==> r in rules && Permits(db, u, r)
  {
    if rules != [] {
      hide Permits;
      PermittedExactly(db, u, rules[..|rules| - 1], r);
      assert rules == rules[..|rules| - 1] + [rules[|rules| - 1]];
    }
  }

  lemma RulesForLast(peers: seq<Peer>, p: Peer, id: int)
    ensures RulesFor(peers + [p], id) == if p.id == id then p.rules else RulesFor(peers, id)
  {
  }

  lemma RulesForNext(t: Tables, now: Time, m: nat, id: nat)
    requires m < |t.net.devices|
    ensures RulesFor(PeersOf(t, now, m + 1), id + 1) ==
      if id == m && RulesOf(t, m, now, |t.net.grants|) != [] then RulesOf(t, m, now, |t.net.grants|)
      else RulesFor(PeersOf(t, now, m), id + 1)
  {
    hide RulesOf, RulesFor;
    var rules := RulesOf(t, m, now, |t.net.grants|);
    if rules != [] {
      RulesForLast(PeersOf(t, now, m), PeerOf(m, t.net.devices[m], rules), id + 1);
    } else {
      assert PeersOf(t, now, m + 1) == PeersOf(t, now, m);
    }
  }

  lemma RulesForNone(t: Tables, now: Time, id: nat)
    ensures RulesFor(PeersOf(t, now, 0), id + 1) == []
  {
  }

  /** A device's rules in the policy are those of its selected grants. */
  lemma {:induction false} RulesForDevice(t: Tables, now: Time, m: nat, id: nat)
    requires m <= |t.net.devices| && id < |t.net.devices|
    ensures RulesFor(PeersOf(t, now, m), id + 1) == if id < m then RulesOf(t, id, now, |t.net.grants|) else []
  {
    hide RulesOf, RulesFor, PeersOf;
    if m == 0 {
      RulesForNone(t, now, id);
    } else {
      RulesForDevice(t, now, m - 1, id);
      RulesForNext(t, now, m - 1, id);
    }
  }

  /** The routes of a pack, said without the policy it was built from: the destinations of the
      device's approved, unexpired grants on offered targets whose service its owner may see. */
  ghost predicate Routed(db: Db, u: Actor, id: nat, c: Cidr) {
    exists i :: 0 <= i < |db.net.grants| && RoutedBy(db, u, id, i, c)
  }

  ghost predicate RoutedBy(db: Db, u: Actor, id: nat, i: nat, c: Cidr)
    requires i < |db.net.grants|
  {
    var g := db.net.grants[i];
    && g.device == id && g.place.cidr == c && Offered(db.Joined(), g, db.clock)
    && PackServiceAllowed(db.services, db.categories, db.records, u, db.net.targets[g.target].service, db.clock)
  }

  lemma PermittedIsRouted(db: Db, u: Actor, id: nat, r: Rule)
    requires Good(db.net, db.people, db.clock) && Stands(db.Joined(), db.clock, r) && Permits(db, u, r)
    requires db.net.grants[r.id - 1].device == id
    ensures Routed(db, u, id, r.cidr)
  {
    hide PackServiceAllowed, Good, Selected, Offered;
    FilterIsPlain(db.Joined(), r.id - 1, db.clock);
    assert RoutedBy(db, u, id, r.id - 1, r.cidr);
  }

  lemma RoutesExactly(db: Db, u: Actor, id: nat, c: Cidr)
    requires Good(db.net, db.people, db.clock) && id < |db.net.devices|
    ensures c in Routes(Permitted(db, u, RulesFor(db.Current().peers, id + 1))) <==> Routed(db, u, id, c)
  {
    hide PackServiceAllowed, Good, Stands, Permits, RoutedBy, RulesOf, RulesFor, PeersOf, Permitted;
    var t := db.Joined();
    var rules := RulesOf(t, id, db.clock, |t.net.grants|);
    RulesForDevice(t, db.clock, |t.net.devices|, id);
    RulesOfStand(t, id, db.clock, |t.net.grants|);
    if c in Routes(Permitted(db, u, rules)) {
      var r :| r in Permitted(db, u, rules) && r.cidr == c;
      PermittedExactly(db, u, rules, r);
      PermittedIsRouted(db, u, id, r);
    }
    if Routed(db, u, id, c) {
      var i :| 0 <= i < |db.net.grants| && RoutedBy(db, u, id, i, c);
      RoutedIsThere(db, u, id, i, c);
    }
  }

  lemma RoutedIsThere(db: Db, u: Actor, id: nat, i: nat, c: Cidr)
    requires Good(db.net, db.people, db.clock) && id < |db.net.devices|
    requires i < |db.net.grants| && RoutedBy(db, u, id, i, c)
    ensures c in Routes(Permitted(db, u, RulesOf(db.Joined(), id, db.clock, |db.net.grants|)))
  {
    hide PackServiceAllowed, Good, Selected, RulesOf, Permitted;
    var t := db.Joined();
    FilterIsPlain(t, i, db.clock);
    SelectedIsThere(t, id, db.clock, |t.net.grants|, i);
    var r := RuleOf(i, t.net.grants[i]);
    PermittedExactly(db, u, RulesOf(t, id, db.clock, |t.net.grants|), r);
  }

  lemma ConsumedKeeps(net: Net, people: seq<User>, now: Time, id: nat, pack: Pack)
    requires Good(net, people, now) && pack.device == id < |net.devices|
    requires net.devices[id].delivery.Some? && !net.devices[id].delivery.value.consumed
    ensures Good(Consumed(net, id, pack), people, now) && Lasting(net, Consumed(net, id, pack))
  {
    hide ValidKey, ValidDestination, Balanced;
    var after := Consumed(net, id, pack);
    forall i | 0 <= i < |after.grants| ensures GoodGrant(after.grants[i], after) {
      assert GoodGrant(net.grants[i], net);
    }
    assert LiveGrants(after.grants, now) == LiveGrants(net.grants, now);
  }

  /** What a pack is evidence of: the gateway acknowledged the policy of this moment, and the
      pack's routes are exactly the owner's approved destinations in it. A device whose pack was
      handed out is never handed another. */
  lemma ReleaseKeeps(db: Db, u: Actor, id: nat)
    requires Good(db.net, db.people, db.clock) && Release(db, u, id).Ok?
    ensures var after := Release(db, u, id).value;
      && Good(after.net, db.people, db.clock) && Lasting(db.net, after.net)
      && db.net.status.revision == db.Current().revision
      && |after.net.released| == |db.net.released| + 1
      && var pack := after.net.released[|db.net.released|];
         && pack.device == id && Some(pack.secret) == db.net.devices[id].delivery.value.secret
         && (forall c :: c in pack.routes <==> Routed(db, u, id, c))
         && (forall k :: 0 <= k < |db.net.released| ==> db.net.released[k].device != id)
  {
    hide Good, Lasting, Routed, PackOwner, RulesFor, Permitted, ValidKey, SnapshotOf;
    var rules := Permitted(db, u, RulesFor(db.Current().peers, id + 1));
    var pack := Pack(id, db.net.devices[id].delivery.value.secret.value, Routes(rules));
    ConsumedKeeps(db.net, db.people, db.clock, id, pack);
    forall c ensures c in pack.routes <==> Routed(db, u, id, c) {
      RoutesExactly(db, u, id, c);
    }
    NotReleased(db.net, db.people, db.clock, id);
  }

  /** A pack goes only to the owner, as authenticated and still enabled, of an approved device,
      before the download expires, and within 20 seconds of the gateway's last confirmation. */
  lemma OnlyToItsOwner(db: Db, u: Actor, id: nat)
    requires Release(db, u, id).Ok?
    ensures id < |db.net.devices| && db.net.devices[id].user == u.id < |db.people|
    ensures db.people[u.id].enabled && db.people[u.id].generation == u.generation && db.people[u.id].role == u.role
    ensures db.net.devices[id].state == DeviceApproved
    ensures db.net.devices[id].delivery.Some? && db.clock < db.net.devices[id].delivery.value.expires
    ensures db.net.status.seen.Some? && db.net.status.seen.value <= db.clock <= db.net.status.seen.value + 20
  {
  }

  lemma NotReleased(net: Net, people: seq<User>, now: Time, id: nat)
    requires Good(net, people, now) && id < |net.devices|
    requires net.devices[id].delivery.Some? && !net.devices[id].delivery.value.consumed
    ensures forall k :: 0 <= k < |net.released| ==> net.released[k].device != id
  {
  }
}
