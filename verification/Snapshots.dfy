/** The policy the portal derives from its tables, and why the gateway always accepts it. */
module Snapshots {
  import opened Base
  import opened Prefixes
  import opened Policy
  import opened Catalog
  import opened Network

  /** The tables the policy query joins. */
  datatype Tables = Tables(net: Net, people: seq<User>, services: seq<Service>)

  /** The query's condition over grant, device, account, target and service. */
  predicate Selected(t: Tables, g: Grant, now: Time) {
    && g.state == Approved && g.expires.Some? && g.expires.value > now
    && g.device < |t.net.devices| && g.target < |t.net.targets|
    && var d, target := t.net.devices[g.device], t.net.targets[g.target];
       && d.state == DeviceApproved && d.user < |t.people| && t.people[d.user].enabled
       && target.enabled && target.service < |t.services|
       && t.services[target.service].published && !t.services[target.service].archived
  }

  /** The plain condition: an approved, unexpired grant to an offered destination. */
  predicate Offered(t: Tables, g: Grant, now: Time) {
    && g.state == Approved && g.expires.Some? && g.expires.value > now
    && g.target < |t.net.targets| && t.net.targets[g.target].enabled
    && t.net.targets[g.target].service < |t.services|
    && var s := t.services[t.net.targets[g.target].service]; s.published && !s.archived
  }

  /** In a good state the five-table condition says no more than the plain one. */
  lemma FilterIsPlain(t: Tables, i: nat, now: Time)
    requires Good(t.net, t.people, now) && i < |t.net.grants|
    ensures Selected(t, t.net.grants[i], now) <==> Offered(t, t.net.grants[i], now)
  {
  }

  function RuleOf(id: nat, g: Grant): Rule {
    Rule(id + 1, g.place.cidr, g.place.protocol, g.place.ports,
         if g.expires.Some? then Some(g.expires.value * SECOND) else None)
  }

  function PeerOf(id: nat, d: Device, rules: seq<Rule>): Peer {
    Peer(id + 1, d.key, Ip4(if 0 <= d.host < 256 then 0x0A4D_0000 + d.host else 0, 32), rules)
  }

  /** One line of the query's result: a peer without rules, and one rule. */
  datatype Row = Row(peer: Peer, rule: Rule)

  function RulesOf(t: Tables, device: nat, now: Time, n: nat): seq<Rule>
    requires n <= |t.net.grants|
  {
    if n == 0 then []
    else
      var g := t.net.grants[n - 1];
      RulesOf(t, device, now, n - 1)
      + if g.device == device && Selected(t, g, now) then [RuleOf(n - 1, g)] else []
  }

  function AsRows(peer: Peer, rules: seq<Rule>): seq<Row> {
    if rules == [] then [] else AsRows(peer, rules[..|rules| - 1]) + [Row(peer, rules[|rules| - 1])]
  }

  /** The query's result, ordered by device and grant. */
  function Rows(t: Tables, now: Time, m: nat): seq<Row>
    requires m <= |t.net.devices|
  {
    if m == 0 then []
    else
      Rows(t, now, m - 1)
      + AsRows(PeerOf(m - 1, t.net.devices[m - 1], []), RulesOf(t, m - 1, now, |t.net.grants|))
  }

  /** The peers of the policy: every device with a selected grant, with its selected grants. */
  function PeersOf(t: Tables, now: Time, m: nat): seq<Peer>
    requires m <= |t.net.devices|
  {
    if m == 0 then []
    else
      var rules := RulesOf(t, m - 1, now, |t.net.grants|);
      PeersOf(t, now, m - 1) + if rules == [] then [] else [PeerOf(m - 1, t.net.devices[m - 1], rules)]
  }

  function SnapshotOf(t: Tables, now: Time): Snapshot {
    var peers := PeersOf(t, now, |t.net.devices|);
    Snapshot(Digest(peers), peers)
  }

  // ---- grouping --------------------------------------------------------

  function AddRow(peers: seq<Peer>, row: Row): seq<Peer> {
    if peers == [] || peers[|peers| - 1].id != row.peer.id
    then peers + [row.peer.(rules := row.peer.rules + [row.rule])]
    else
      var last := peers[|peers| - 1];
      peers[..|peers| - 1] + [last.(rules := last.rules + [row.rule])]
  }

  function Grouped(rows: seq<Row>): seq<Peer> {
    if rows == [] then [] else AddRow(Grouped(rows[..|rows| - 1]), rows[|rows| - 1])
  }

  lemma AddToLast(peers: seq<Peer>, p: Peer, row: Row)
    requires p.id == row.peer.id
    ensures AddRow(peers + [p], row) == peers + [p.(rules := p.rules + [row.rule])]
  {
  }

  lemma {:induction false} GroupOnePeer(rows: seq<Row>, peer: Peer, rules: seq<Rule>)
    requires peer.rules == []
    requires Grouped(rows) == [] || Grouped(rows)[|Grouped(rows)| - 1].id != peer.id
    ensures Grouped(rows + AsRows(peer, rules)) ==
      Grouped(rows) + if rules == [] then [] else [peer.(rules := rules)]
  {
    hide AddRow;
    var all := rows + AsRows(peer, rules);
    if rules == [] {
      assert all == rows;
    } else {
      var front, last := rules[..|rules| - 1], rules[|rules| - 1];
      GroupOnePeer(rows, peer, front);
      assert all[..|all| - 1] == rows + AsRows(peer, front);
      assert all[|all| - 1] == Row(peer, last);
      assert rules == front + [last];
      AddToLast(Grouped(rows), peer.(rules := front), Row(peer, last));
      AddAsNew(Grouped(rows), Row(peer, last));
      assert Grouped(rows) + [] == Grouped(rows);
    }
  }

  lemma AddAsNew(peers: seq<Peer>, row: Row)
    requires peers == [] || peers[|peers| - 1].id != row.peer.id
    ensures AddRow(peers, row) == peers + [row.peer.(rules := row.peer.rules + [row.rule])]
  {
  }

  lemma {:induction false} PeerIdsAreSmall(t: Tables, now: Time, m: nat)
    requires m <= |t.net.devices|
    ensures |PeersOf(t, now, m)| <= m
    ensures forall k :: 0 <= k < |PeersOf(t, now, m)| ==> 1 <= PeersOf(t, now, m)[k].id <= m
  {
    if m > 0 {
      PeerIdsAreSmall(t, now, m - 1);
    }
  }

  lemma GroupNext(t: Tables, now: Time, m: nat)
    requires m < |t.net.devices| && Grouped(Rows(t, now, m)) == PeersOf(t, now, m)
    ensures Grouped(Rows(t, now, m + 1)) == PeersOf(t, now, m + 1)
  {
    hide RulesOf, Grouped, AsRows;
    PeerIdsAreSmall(t, now, m);
    GroupOnePeer(Rows(t, now, m), PeerOf(m, t.net.devices[m], []), RulesOf(t, m, now, |t.net.grants|));
  }

  lemma {:induction false} GroupedRows(t: Tables, now: Time, m: nat)
    requires m <= |t.net.devices|
    ensures Grouped(Rows(t, now, m)) == PeersOf(t, now, m)
  {
    if m > 0 {
      hide Grouped, Rows, PeersOf;
      GroupedRows(t, now, m - 1);
      GroupNext(t, now, m - 1);
    }
  }

  /** The grouping loop over the query's result. */
  method VpnSnapshot(t: Tables, now: Time) returns (out: Snapshot)
    ensures out == SnapshotOf(t, now)
  {
    hide PeersOf, Rows;
    var rows := Rows(t, now, |t.net.devices|);
    var peers: seq<Peer> := [];
    for k := 0 to |rows|
      invariant peers == Grouped(rows[..k])
    {
      assert rows[..k + 1][..k] == rows[..k];
      var row := rows[k];
      if |peers| == 0 || peers[|peers| - 1].id != row.peer.id {
        peers := peers + [row.peer];
      }
      var i := |peers| - 1;
      peers := peers[..i] + [peers[i].(rules := peers[i].rules + [row.rule])];
    }
    assert rows[..|rows|] == rows;
    GroupedRows(t, now, |t.net.devices|);
    out := Snapshot(Blank, peers);
    out := out.(revision := out.Hash());
  }

  // ---- what the policy contains ----------------------------------------

  /** A rule stands for the grant it is numbered after. */
  ghost predicate Stands(t: Tables, now: Time, r: Rule) {
    && 1 <= r.id <= |t.net.grants|
    && Selected(t, t.net.grants[r.id - 1], now) && r == RuleOf(r.id - 1, t.net.grants[r.id - 1])
  }

  lemma RulesOfNext(t: Tables, device: nat, now: Time, n: nat)
    requires n < |t.net.grants|
    ensures var g := t.net.grants[n];
      RulesOf(t, device, now, n + 1)
      == RulesOf(t, device, now, n) + if g.device == device && Selected(t, g, now) then [RuleOf(n, g)] else []
  {
  }

  lemma NoneOf(t: Tables, device: nat, now: Time)
    ensures RulesOf(t, device, now, 0) == []
  {
  }

  lemma OwnNext(t: Tables, device: nat, now: Time, rules: seq<Rule>, n: nat)
    requires n < |t.net.grants| && t.net.grants[n].device == device && Selected(t, t.net.grants[n], now)
    requires DistinctRules(rules)
    requires forall r :: r in rules ==> Stands(t, now, r) && r.id <= n && t.net.grants[r.id - 1].device == device
    ensures var more := rules + [RuleOf(n, t.net.grants[n])];
      && DistinctRules(more)
      && forall r :: r in more ==> Stands(t, now, r) && r.id <= n + 1 && t.net.grants[r.id - 1].device == device
  {
    hide Selected;
    forall k | 0 <= k < |rules| ensures rules[k].id <= n {
      assert rules[k] in rules;
    }
  }

  lemma {:induction false} RulesOfStand(t: Tables, device: nat, now: Time, n: nat)
    requires n <= |t.net.grants|
    ensures DistinctRules(RulesOf(t, device, now, n))
    ensures forall r :: r in RulesOf(t, device, now, n) ==>
      Stands(t, now, r) && r.id <= n && t.net.grants[r.id - 1].device == device
  {
    hide Selected, RulesOf, Stands, RuleOf;
    if n == 0 {
      NoneOf(t, device, now);
    } else {
      RulesOfStand(t, device, now, n - 1);
      RulesOfNext(t, device, now, n - 1);
      if t.net.grants[n - 1].device == device && Selected(t, t.net.grants[n - 1], now) {
        OwnNext(t, device, now, RulesOf(t, device, now, n - 1), n - 1);
      } else {
        assert RulesOf(t, device, now, n) == RulesOf(t, device, now, n - 1);
      }
    }
  }

  /** Conversely every selected grant of the device is there. */
  lemma {:induction false} SelectedIsThere(t: Tables, device: nat, now: Time, n: nat, i: nat)
    requires i < n <= |t.net.grants|
    requires t.net.grants[i].device == device && Selected(t, t.net.grants[i], now)
    ensures RuleOf(i, t.net.grants[i]) in RulesOf(t, device, now, n)
  {
    if i < n - 1 {
      SelectedIsThere(t, device, now, n - 1, i);
    }
  }

  ghost predicate PeerIsDevice(t: Tables, now: Time, p: Peer) {
    && 1 <= p.id <= |t.net.devices|
    && p == PeerOf(p.id - 1, t.net.devices[p.id - 1], RulesOf(t, p.id - 1, now, |t.net.grants|))
  }

  lemma {:induction false} PeersAreDevices(t: Tables, now: Time, m: nat)
    requires m <= |t.net.devices|
    ensures forall k :: 0 <= k < |PeersOf(t, now, m)| ==> PeerIsDevice(t, now, PeersOf(t, now, m)[k])
    ensures forall j, k :: 0 <= j < k < |PeersOf(t, now, m)| ==> PeersOf(t, now, m)[j].id < PeersOf(t, now, m)[k].id
  {
    if m > 0 {
      PeersAreDevices(t, now, m - 1);
      PeerIdsAreSmall(t, now, m - 1);
    }
  }

  /** Rules standing for grants of devices below `m`, each for its own. */
  ghost predicate StandApart(t: Tables, now: Time, rules: seq<Rule>, m: nat) {
    && DistinctRules(rules)
    && forall r :: r in rules ==> Stands(t, now, r) && t.net.grants[r.id - 1].device < m
  }

  lemma StandTogether(t: Tables, now: Time, before: seq<Rule>, own: seq<Rule>, m: nat)
    requires StandApart(t, now, before, m) && DistinctRules(own)
    requires forall r :: r in own ==> Stands(t, now, r) && t.net.grants[r.id - 1].device == m
    ensures StandApart(t, now, before + own, m + 1)
  {
  }

  lemma NextDevice(t: Tables, now: Time, m: nat)
    requires m < |t.net.devices|
    ensures AllRules(PeersOf(t, now, m + 1)) == AllRules(PeersOf(t, now, m)) + RulesOf(t, m, now, |t.net.grants|)
  {
    hide RulesOf;
    var before, peers := PeersOf(t, now, m), PeersOf(t, now, m + 1);
    if RulesOf(t, m, now, |t.net.grants|) != [] {
      assert peers[..|peers| - 1] == before;
    } else {
      assert peers == before;
    }
  }

  lemma RulesNext(t: Tables, now: Time, m: nat)
    requires m < |t.net.devices| && StandApart(t, now, AllRules(PeersOf(t, now, m)), m)
    ensures StandApart(t, now, AllRules(PeersOf(t, now, m + 1)), m + 1)
  {
    hide Stands, RulesOf, StandApart, PeersOf, AllRules;
    RulesOfStand(t, m, now, |t.net.grants|);
    StandTogether(t, now, AllRules(PeersOf(t, now, m)), RulesOf(t, m, now, |t.net.grants|), m);
    NextDevice(t, now, m);
  }

  lemma NoRules(t: Tables, now: Time)
    ensures AllRules(PeersOf(t, now, 0)) == []
  {
  }

  lemma {:induction false} SnapshotRules(t: Tables, now: Time, m: nat)
    requires m <= |t.net.devices|
    ensures StandApart(t, now, AllRules(PeersOf(t, now, m)), m)
  {
    hide Stands, RulesOf, PeersOf, AllRules;
    if m == 0 {
      NoRules(t, now);
    } else {
      SnapshotRules(t, now, m - 1);
      RulesNext(t, now, m - 1);
    }
  }

  /** At most as many rules as live approvals. */
  lemma RulesAreFew(t: Tables, now: Time, rules: seq<Rule>)
    requires DistinctRules(rules)
    requires forall r :: r in rules ==> Stands(t, now, r)
    ensures |rules| <= |LiveGrants(t.net.grants, now)|
  {
    var ids := seq(|rules|, k requires 0 <= k < |rules| => rules[k].id - 1);
    DistinctCardinality(ids);
    var live: set<int> := set i | i in LiveGrants(t.net.grants, now);
    assert live == LiveGrants(t.net.grants, now);
    forall i | i in SetOf(ids) ensures i in live {
      var k :| 0 <= k < |ids| && ids[k] == i;
      assert Stands(t, now, rules[k]);
    }
    SubsetCardinality(SetOf(ids), live);
  }

  /** Addresses are never shared, so there are at most 253 devices in all. */
  lemma DevicesAreFew(t: Tables, now: Time)
    requires Good(t.net, t.people, now)
    ensures |t.net.devices| <= 253
  {
    var hosts := seq(|t.net.devices|, i requires 0 <= i < |t.net.devices| => t.net.devices[i].host);
    forall i | 0 <= i < |hosts| ensures 2 <= hosts[i] < 255 {
      assert GoodDevice(t.net.devices[i], t.people);
    }
    DistinctInRange(hosts, 2, 255);
  }

  lemma PeersAreValid(t: Tables, now: Time)
    requires Good(t.net, t.people, now)
    ensures var peers := PeersOf(t, now, |t.net.devices|);
      DistinctPeers(peers) && forall k :: 0 <= k < |peers| ==> ValidPeer(peers[k])
  {
    hide ValidKey, LiveGrants, GoodPacks, OneOpenEach, GoodGrant;
    var peers := PeersOf(t, now, |t.net.devices|);
    PeersAreDevices(t, now, |t.net.devices|);
    forall k | 0 <= k < |peers| ensures ValidPeer(peers[k]) {
      assert PeerIsDevice(t, now, peers[k]);
      assert GoodDevice(t.net.devices[peers[k].id - 1], t.people);
    }
    forall j, k | 0 <= j < k < |peers|
      ensures peers[j].id != peers[k].id && peers[j].key != peers[k].key && peers[j].address != peers[k].address
    {
      var d, e := peers[j].id - 1, peers[k].id - 1;
      assert PeerIsDevice(t, now, peers[j]) && PeerIsDevice(t, now, peers[k]) && d < e;
      assert GoodDevice(t.net.devices[d], t.people) && GoodDevice(t.net.devices[e], t.people);
      assert t.net.devices[d].host != t.net.devices[e].host && t.net.devices[d].key != t.net.devices[e].key;
    }
  }

  /** Main theorem. The policy of every good portal state passes the gateway's validator. */
  lemma SnapshotIsValid(t: Tables, now: Time)
    requires Good(t.net, t.people, now)
    ensures ValidSnapshot(SnapshotOf(t, now))
  {
    hide PeersOf, Stands, Selected, GoodDevice, GoodGrant, DistinctDevices, OneOpenEach, GoodPacks,
         AllRules, ValidRule, ValidPeer, LiveGrants, DistinctPeers, DistinctRules;
    var m := |t.net.devices|;
    var rules := AllRules(PeersOf(t, now, m));
    PeersAreValid(t, now);
    DevicesAreFew(t, now);
    PeerIdsAreSmall(t, now, m);
    SnapshotRules(t, now, m);
    RulesAreFew(t, now, rules);
    forall k | 0 <= k < |rules| ensures ValidRule(rules[k]) {
      StandsIsValid(t, now, rules[k]);
    }
  }

  lemma StandsIsValid(t: Tables, now: Time, r: Rule)
    requires Good(t.net, t.people, now) && Stands(t, now, r)
    ensures ValidRule(r)
  {
  }
}
