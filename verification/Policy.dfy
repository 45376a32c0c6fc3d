/** The portal/gateway protocol: snapshots, their validation and their live part. */
module Policy {
  import opened Base
  import opened Prefixes
  import Ports

  /** Nanoseconds on the wall clock. */
  type Instant = int

  const SECOND: int := 1_000_000_000

  /** `expires` is `None` when the text is not an RFC 3339 time. */
  datatype Rule = Rule(id: int, cidr: Cidr, protocol: string, ports: string, expires: Option<Instant>)
  datatype Peer = Peer(id: int, key: string, address: Cidr, rules: seq<Rule>)

  /** An ideal hash: a digest carries what it was taken of, so two digests are equal
      only for equal peers. `Blank` is the empty text, `Other` any text that is no digest. */
  datatype Revision = Blank | Digest(of: seq<Peer>) | Other(text: string)

  datatype Snapshot = Snapshot(revision: Revision, peers: seq<Peer>)
  {
    function Hash(): Revision {
      Digest(peers)
    }
  }

  // ---- destinations ----------------------------------------------------

  const POOL: Cidr := Ip4(0x0A4D_0000, 24)
  const RESERVED: seq<Cidr> := [POOL, Ip4(0, 8), Ip4(0x7F00_0000, 8), Ip4(0xA9FE_0000, 16), Ip4(0xE000_0000, 3)]

  /** 10.77.0.x, 0.x.x.x, 127.x.x.x, 169.254.x.x and everything from 224.0.0.0 up. */
  predicate Reserved(x: Addr) {
    || 0x0A4D_0000 <= x <= 0x0A4D_00FF
    || x <= 0x00FF_FFFF
    || 0x7F00_0000 <= x <= 0x7FFF_FFFF
    || 0xA9FE_0000 <= x <= 0xA9FE_FFFF
    || 0xE000_0000 <= x
  }

  ghost predicate ValidPorts(ports: string) {
    exists items :: Ports.ValidList(items) && ports == Ports.PrintPorts(items)
  }

  /** What an approved destination may be, said without the checks that decide it. */
  ghost predicate ValidDestination(cidr: Cidr, protocol: string, ports: string) {
    && IsIp4(cidr) && 1 <= cidr.bits && Canonical(cidr)
    && (forall x: Addr :: Contains(cidr, x) ==> !Reserved(x))
    && (protocol == "tcp" || protocol == "udp")
    && ValidPorts(ports)
  }

  lemma TopNibble(x: nat)
    ensures Top(x, 4) == x / 0x10
  {
    assert Top(x, 1) == Top(x / 2, 0) == x / 2;
    assert Top(x, 2) == Top(x / 2, 1) == Top(x / 2 / 2, 0) == x / 4;
    TopTwice(x, 2, 2);
    assert Top(x / 4, 2) == Top(x / 4 / 2, 1) == Top(x / 4 / 2 / 2, 0) == x / 0x10;
  }

  lemma TopByte(x: nat)
    ensures Top(x, 8) == x / 0x100
  {
    TopNibble(x);
    TopNibble(x / 0x10);
    TopTwice(x, 4, 4);
  }

  lemma TopBytes(x: nat)
    ensures Top(x, 8) == x / 0x100 && Top(x, 16) == x / 0x1_0000 && Top(x, 24) == x / 0x100_0000
    ensures Top(x, 29) == x / 0x2000_0000
  {
    TopByte(x);
    TopByte(x / 0x100);
    TopTwice(x, 8, 8);
    TopByte(x / 0x1_0000);
    TopTwice(x, 16, 8);
    TopTwice(x, 24, 5);
    TopNibble(x / 0x100_0000);
    TopTwice(x / 0x100_0000, 4, 1);
  }

  lemma ReservedExactly(x: Addr)
    ensures Reserved(x) <==> exists i :: 0 <= i < |RESERVED| && Contains(RESERVED[i], x)
  {
    TopBytes(x);
    TopBytes(0x0A4D_0000);
    TopBytes(0);
    TopBytes(0x7F00_0000);
    TopBytes(0xA9FE_0000);
    TopBytes(0xE000_0000);
    hide Top;
    assert Contains(RESERVED[0], x) <==> 0x0A4D_0000 <= x <= 0x0A4D_00FF;
    assert Contains(RESERVED[1], x) <==> x <= 0x00FF_FFFF;
    assert Contains(RESERVED[2], x) <==> 0x7F00_0000 <= x <= 0x7FFF_FFFF;
    assert Contains(RESERVED[3], x) <==> 0xA9FE_0000 <= x <= 0xA9FE_FFFF;
    assert Contains(RESERVED[4], x) <==> 0xE000_0000 <= x;
  }

  method Destination(cidr: Cidr, protocol: string, ports: string) returns (ok: bool)
    ensures ok <==> ValidDestination(cidr, protocol, ports)
  {
    if !IsIp4(cidr) || !Canonical(cidr) || cidr.bits == 0 {
      return false;
    }
    for i := 0 to |RESERVED|
      invariant forall x: Addr, k :: 0 <= k < i && Contains(cidr, x) ==> !Contains(RESERVED[k], x)
    {
      OverlapsExactly(cidr, RESERVED[i]);
      if Overlaps(cidr, RESERVED[i]) {
        ghost var x: Addr :| Contains(cidr, x) && Contains(RESERVED[i], x);
        ReservedExactly(x);
        return false;
      }
    }
    forall x: Addr | Contains(cidr, x) ensures !Reserved(x) {
      ReservedExactly(x);
    }
    if protocol != "tcp" && protocol != "udp" {
      return false;
    }
    ok := Ports.CheckPorts(ports);
  }

  // ---- validation ------------------------------------------------------

  predicate IsBase64(c: char) {
    'A' <= c <= 'Z' || 'a' <= c <= 'z' || '0' <= c <= '9' || c == '+' || c == '/'
  }

  /** The standard base64 text of 32 bytes that are not all zero: 43 digits and one pad, the
      last digit carrying four bits of data and two zero bits. */
  predicate ValidKey(key: string) {
    && |key| == 44 && key[43] == '='
    && (forall i :: 0 <= i < 43 ==> IsBase64(key[i]))
    && key[42] in "AEIMQUYcgkosw048"
    && exists i :: 0 <= i < 43 && key[i] != 'A'
  }

  /** A host address of the pool: 10.77.0.2 to 10.77.0.254, alone. */
  predicate PoolAddress(address: Cidr) {
    IsIp4(address) && address.bits == 32 && 0x0A4D_0002 <= address.addr <= 0x0A4D_00FE
  }

  function AllRules(peers: seq<Peer>): seq<Rule> {
    if peers == [] then [] else AllRules(peers[..|peers| - 1]) + peers[|peers| - 1].rules
  }

  ghost predicate ValidPeer(p: Peer) {
    p.id >= 1 && ValidKey(p.key) && PoolAddress(p.address)
  }

  ghost predicate ValidRule(r: Rule) {
    r.id >= 1 && ValidDestination(r.cidr, r.protocol, r.ports) && r.expires.Some?
  }

  ghost predicate DistinctPeers(peers: seq<Peer>) {
    forall i, j :: 0 <= i < j < |peers| ==>
      peers[i].id != peers[j].id && peers[i].key != peers[j].key && peers[i].address != peers[j].address
  }

  ghost predicate DistinctRules(rules: seq<Rule>) {
    forall i, j :: 0 <= i < j < |rules| ==> rules[i].id != rules[j].id
  }

  ghost predicate ValidRuleList(rules: seq<Rule>) {
    && |rules| <= 1024
    && (forall i :: 0 <= i < |rules| ==> ValidRule(rules[i]))
    && DistinctRules(rules)
  }

  ghost predicate ValidPeers(peers: seq<Peer>) {
    && (forall i :: 0 <= i < |peers| ==> ValidPeer(peers[i]))
    && DistinctPeers(peers)
    && ValidRuleList(AllRules(peers))
  }

  ghost predicate ValidSnapshot(s: Snapshot) {
    s.revision == s.Hash() && |s.peers| <= 253 && ValidPeers(s.peers)
  }

  function PoolContains(address: Cidr): bool {
    address.Ip4? && address.bits <= 32 && Contains(POOL, address.addr)
  }

  lemma PoolHosts(address: Cidr)
    ensures PoolAddress(address) <==>
      address.Ip4? && address.bits == 32 && PoolContains(address)
      && address.addr != 0x0A4D_0001 && address.addr != 0x0A4D_0000 && address.addr != 0x0A4D_00FF
  {
    hide Top;
    if address.Ip4? {
      TopBytes(0x0A4D_0000);
      TopBytes(address.addr);
    }
  }

  /** Rules before a peer's own come first in the whole list. */
  lemma {:induction false} AllRulesPrefix(peers: seq<Peer>, k: nat)
    requires k <= |peers|
    ensures AllRules(peers[..k]) <= AllRules(peers)
  {
    if k < |peers| {
      AllRulesPrefix(peers[..|peers| - 1], k);
      assert peers[..|peers| - 1][..k] == peers[..k];
    } else {
      assert peers[..k] == peers;
    }
  }

  lemma AllRulesStep(peers: seq<Peer>, i: nat)
    requires i < |peers|
    ensures AllRules(peers[..i + 1]) == AllRules(peers[..i]) + peers[i].rules
    ensures AllRules(peers[..i]) + peers[i].rules <= AllRules(peers)
  {
    assert peers[..i + 1][..i] == peers[..i];
    AllRulesPrefix(peers, i + 1);
  }

  lemma {:induction false} RuleIsListed(peers: seq<Peer>, i: nat, r: Rule)
    requires i < |peers| && r in peers[i].rules
    ensures r in AllRules(peers)
  {
    AllRulesStep(peers, i);
    var before := AllRules(peers[..i]);
    var k :| 0 <= k < |peers[i].rules| && peers[i].rules[k] == r;
    assert AllRules(peers)[|before| + k] == (before + peers[i].rules)[|before| + k];
  }

  function RuleIds(rules: seq<Rule>): set<int> {
    set r | r in rules :: r.id
  }

  lemma RuleListGrows(rules: seq<Rule>, r: Rule)
    requires ValidRuleList(rules)
    ensures ValidRuleList(rules + [r]) <==> |rules| < 1024 && ValidRule(r) && r.id !in RuleIds(rules)
    ensures RuleIds(rules + [r]) == RuleIds(rules) + {r.id}
  {
    var more := rules + [r];
    forall i | 0 <= i < |rules| ensures rules[i] == more[i] {}
    assert more[|rules|] == r;
    if r.id in RuleIds(rules) {
      var i :| 0 <= i < |rules| && rules[i].id == r.id;
      assert more[i].id == more[|rules|].id;
    }
  }

  lemma ShorterRuleList(rules: seq<Rule>, longer: seq<Rule>)
    requires rules <= longer && ValidRuleList(longer)
    ensures ValidRuleList(rules)
  {
  }

  /** The inner loop: the rules of one peer, after `before` of the peers ahead of it. */
  method ValidateRules(rules: seq<Rule>, ghost before: seq<Rule>, seen: set<int>, total: nat)
    returns (ok: bool, seen': set<int>, total': nat)
    requires ValidRuleList(before) && seen == RuleIds(before) && total == |before|
    ensures ok <==> ValidRuleList(before + rules)
    ensures ok ==> seen' == RuleIds(before + rules) && total' == |before + rules|
  {
    seen', total' := seen, total;
    assert before + rules[..0] == before;
    for j := 0 to |rules|
      invariant ValidRuleList(before + rules[..j])
      invariant seen' == RuleIds(before + rules[..j]) && total' == |before| + j
    {
      var r := rules[j];
      total' := total' + 1;
      ghost var sofar := before + rules[..j];
      assert before + rules[..j + 1] == sofar + [r];
      RuleListGrows(sofar, r);
      var fine := false;
      if !(total' > 1024 || r.id < 1 || r.id in seen') {
        seen' := seen' + {r.id};
        fine := Destination(r.cidr, r.protocol, r.ports);
      }
      if !fine || r.expires.None? {
        if ValidRuleList(before + rules) {
          ShorterRuleList(sofar + [r], before + rules);
        }
        return false, seen', total';
      }
    }
    assert before + rules[..|rules|] == before + rules;
    ok := true;
  }

  /** What the validator remembers of the peers it has passed. */
  datatype Names = Names(keys: set<string>, addresses: set<Cidr>, ids: set<int>, rules: set<int>, total: nat)

  ghost predicate Seen(peers: seq<Peer>, names: Names) {
    && names.keys == (set p | p in peers :: p.key)
    && names.addresses == (set p | p in peers :: p.address)
    && names.ids == (set p | p in peers :: p.id)
    && names.rules == RuleIds(AllRules(peers))
    && names.total == |AllRules(peers)|
  }

  lemma PeerListGrows(peers: seq<Peer>, p: Peer, names: Names)
    requires Seen(peers, names) && DistinctPeers(peers)
    ensures DistinctPeers(peers + [p]) <==> p.key !in names.keys && p.address !in names.addresses && p.id !in names.ids
  {
    var more := peers + [p];
    forall i | 0 <= i < |peers| ensures peers[i] == more[i] {}
    assert more[|peers|] == p;
    if p.key in names.keys || p.address in names.addresses || p.id in names.ids {
      var q :| q in peers && (q.key == p.key || q.address == p.address || q.id == p.id);
      var i :| 0 <= i < |peers| && peers[i] == q;
      assert more[i] == q;
    }
  }

  lemma ValidPeersGrow(peers: seq<Peer>, p: Peer)
    requires ValidPeers(peers)
    ensures AllRules(peers + [p]) == AllRules(peers) + p.rules
    ensures ValidPeers(peers + [p]) <==>
      ValidPeer(p) && DistinctPeers(peers + [p]) && ValidRuleList(AllRules(peers) + p.rules)
  {
    var more := peers + [p];
    assert more[..|peers|] == peers;
    assert more[|peers|] == p;
  }

  lemma {:induction false} ValidPrefix(peers: seq<Peer>, k: nat)
    requires k <= |peers| && ValidPeers(peers)
    ensures ValidPeers(peers[..k])
  {
    AllRulesPrefix(peers, k);
    ShorterRuleList(AllRules(peers[..k]), AllRules(peers));
  }

  lemma SeenGrows(peers: seq<Peer>, p: Peer, names: Names)
    requires Seen(peers, names)
    ensures Seen(peers + [p], Names(names.keys + {p.key}, names.addresses + {p.address}, names.ids + {p.id},
                                    RuleIds(AllRules(peers) + p.rules), |AllRules(peers) + p.rules|))
  {
    var more := peers + [p];
    assert more[..|peers|] == peers && more[|peers|] == p;
    assert forall q :: q in more <==> q in peers || q == p;
  }

  /** The checks of the validator on one peer before it turns to the peer's rules. */
  predicate PeerPasses(p: Peer, names: Names) {
    && p.address.Ip4? && p.address.bits == 32 && PoolContains(p.address)
    && p.address.addr != 0x0A4D_0001 && p.address.addr != 0x0A4D_0000 && p.address.addr != 0x0A4D_00FF
    && ValidKey(p.key) && p.key !in names.keys && p.address !in names.addresses
    && p.id >= 1 && p.id !in names.ids
  }

  lemma PassesExactly(peers: seq<Peer>, p: Peer, names: Names)
    requires Seen(peers, names) && DistinctPeers(peers)
    ensures PeerPasses(p, names) <==> ValidPeer(p) && DistinctPeers(peers + [p])
  {
    PoolHosts(p.address);
    PeerListGrows(peers, p, names);
  }

  method ValidatePeer(p: Peer, ghost before: seq<Peer>, names: Names) returns (ok: bool, names': Names)
    requires ValidPeers(before) && Seen(before, names)
    ensures ok <==> ValidPeers(before + [p])
    ensures ok ==> Seen(before + [p], names')
  {
    PassesExactly(before, p, names);
    ValidPeersGrow(before, p);
    SeenGrows(before, p, names);
    if !PeerPasses(p, names) {
      return false, names;
    }
    var rules, total;
    ok, rules, total := ValidateRules(p.rules, AllRules(before), names.rules, names.total);
    names' := Names(names.keys + {p.key}, names.addresses + {p.address}, names.ids + {p.id}, rules, total);
  }

  /** A peer refused after the ones before it refuses the whole list. */
  lemma RefusedPeer(peers: seq<Peer>, i: nat)
    requires i < |peers| && !ValidPeers(peers[..i] + [peers[i]])
    ensures !ValidPeers(peers)
  {
    assert peers[..i + 1] == peers[..i] + [peers[i]];
    if ValidPeers(peers) {
      ValidPrefix(peers, i + 1);
    }
  }

  method ValidatePeers(peers: seq<Peer>) returns (ok: bool)
    ensures ok <==> ValidPeers(peers)
  {
    var names := Names({}, {}, {}, {}, 0);
    ghost var before: seq<Peer> := [];
    for i := 0 to |peers|
      invariant before == peers[..i]
      invariant ValidPeers(before) && Seen(before, names)
    {
      ok, names := ValidatePeer(peers[i], before, names);
      if !ok {
        RefusedPeer(peers, i);
        return;
      }
      before := before + [peers[i]];
    }
    assert before == peers;
    ok := true;
  }

  method Validate(s: Snapshot) returns (ok: bool)
    ensures ok <==> ValidSnapshot(s)
  {
    if s.revision != s.Hash() || |s.peers| > 253 {
      return false;
    }
    ok := ValidatePeers(s.peers);
  }

  // ---- the unexpired part ----------------------------------------------

  predicate Live(r: Rule, at: Instant) {
    r.expires.Some? && r.expires.value > at
  }

  function LiveRules(rules: seq<Rule>, at: Instant): seq<Rule> {
    if rules == [] then []
    else
      var last := rules[|rules| - 1];
      LiveRules(rules[..|rules| - 1], at) + if Live(last, at) then [last] else []
  }

  function ActivePeers(peers: seq<Peer>, at: Instant): seq<Peer> {
    if peers == [] then []
    else
      var last := peers[|peers| - 1];
      var live := LiveRules(last.rules, at);
      ActivePeers(peers[..|peers| - 1], at) + if live == [] then [] else [last.(rules := live)]
  }

  function ActiveOf(s: Snapshot, at: Instant): Snapshot {
    var peers := ActivePeers(s.peers, at);
    Snapshot(Digest(peers), peers)
  }

  method Active(s: Snapshot, at: Instant) returns (out: Snapshot)
    ensures out == ActiveOf(s, at)
  {
    out := Snapshot(Blank, []);
    for i := 0 to |s.peers|
      invariant out == Snapshot(Blank, ActivePeers(s.peers[..i], at))
    {
      assert s.peers[..i + 1][..i] == s.peers[..i];
      var p := s.peers[i];
      var peer := p.(rules := []);
      for j := 0 to |p.rules|
        invariant peer == p.(rules := LiveRules(p.rules[..j], at))
      {
        assert p.rules[..j + 1][..j] == p.rules[..j];
        var r := p.rules[j];
        if r.expires.Some? && r.expires.value > at {
          peer := peer.(rules := peer.rules + [r]);
        }
      }
      assert p.rules[..|p.rules|] == p.rules;
      if |peer.rules| > 0 {
        out := out.(peers := out.peers + [peer]);
      }
    }
    assert s.peers[..|s.peers|] == s.peers;
    out := out.(revision := out.Hash());
  }

  lemma {:induction false} LiveRulesExactly(rules: seq<Rule>, at: Instant, r: Rule)
    ensures r in LiveRules(rules, at) <==> r in rules && r.expires.Some? && at < r.expires.value
  {
    if rules != [] {
      LiveRulesExactly(rules[..|rules| - 1], at, r);
      assert rules == rules[..|rules| - 1] + [rules[|rules| - 1]];
    }
  }

  /** A peer survives with exactly its unexpired rules, and only if it has one. */
  lemma {:induction false} ActivePeersExactly(peers: seq<Peer>, at: Instant, p: Peer)
    ensures p in ActivePeers(peers, at) <==>
      exists q :: q in peers && p == q.(rules := LiveRules(q.rules, at)) && p.rules != []
  {
    if peers != [] {
      var front, last := peers[..|peers| - 1], peers[|peers| - 1];
      ActivePeersExactly(front, at, p);
      assert forall q :: q in peers <==> q in front || q == last;
    }
  }

  /** The earliest expiry among the rules, if there is a rule. */
  function Earliest(rules: seq<Rule>): Option<Instant> {
    if rules == [] then None
    else
      var before, r := Earliest(rules[..|rules| - 1]), rules[|rules| - 1];
      if r.expires.None? then before
      else if before.None? || r.expires.value < before.value then r.expires
      else before
  }

  lemma {:induction false} EarliestIsLeast(rules: seq<Rule>, r: Rule)
    requires r in rules && r.expires.Some?
    ensures Earliest(rules).Some? && Earliest(rules).value <= r.expires.value
  {
    var front, last := rules[..|rules| - 1], rules[|rules| - 1];
    assert rules == front + [last];
    if r in front {
      EarliestIsLeast(front, r);
    }
  }

  lemma {:induction false} LiveRulesStable(rules: seq<Rule>, at: Instant, later: Instant)
    requires at <= later
    requires forall r :: r in LiveRules(rules, at) ==> Live(r, later)
    ensures LiveRules(rules, later) == LiveRules(rules, at)
  {
    if rules != [] {
      var front, last := rules[..|rules| - 1], rules[|rules| - 1];
      LiveRulesStable(front, at, later);
      if Live(last, at) {
        assert last in LiveRules(rules, at);
      }
    }
  }

  /** Before the earliest expiry of its rules the live part of a policy does not change. */
  lemma {:induction false} ActiveStable(peers: seq<Peer>, at: Instant, later: Instant)
    requires at <= later
    requires forall r :: r in AllRules(ActivePeers(peers, at)) ==> Live(r, later)
    ensures ActivePeers(peers, later) == ActivePeers(peers, at)
  {
    if peers != [] {
      var front, last := peers[..|peers| - 1], peers[|peers| - 1];
      var active, before := ActivePeers(peers, at), ActivePeers(front, at);
      var live := LiveRules(last.rules, at);
      if live == [] {
        assert active == before;
      } else {
        assert active == before + [last.(rules := live)];
        assert active[..|active| - 1] == before;
      }
      ActiveStable(front, at, later);
      LiveRulesStable(last.rules, at, later);
    }
  }

  lemma {:induction false} LiveRulesTwice(rules: seq<Rule>, at: Instant, later: Instant)
    requires at <= later
    ensures LiveRules(LiveRules(rules, at), later) == LiveRules(rules, later)
  {
    if rules != [] {
      var front, last := rules[..|rules| - 1], rules[|rules| - 1];
      LiveRulesTwice(front, at, later);
      var once := LiveRules(rules, at);
      if Live(last, at) {
        assert once[..|once| - 1] == LiveRules(front, at);
      } else {
        assert once == LiveRules(front, at);
      }
    }
  }

  /** Taking the live part again, later, forgets that it was taken before. */
  lemma {:induction false} ActiveTwice(peers: seq<Peer>, at: Instant, later: Instant)
    requires at <= later
    ensures ActivePeers(ActivePeers(peers, at), later) == ActivePeers(peers, later)
  {
    if peers != [] {
      var front, last := peers[..|peers| - 1], peers[|peers| - 1];
      ActiveTwice(front, at, later);
      LiveRulesTwice(last.rules, at, later);
      var once := ActivePeers(peers, at);
      if LiveRules(last.rules, at) != [] {
        assert once[..|once| - 1] == ActivePeers(front, at);
      } else {
        assert once == ActivePeers(front, at);
      }
    }
  }
}
