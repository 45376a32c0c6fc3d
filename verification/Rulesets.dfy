/** The packet filter compiled from a policy, and what it lets through. */
module Rulesets {
  import opened Base
  import opened Prefixes
  import opened Policy
  import Ports

  // ---- the filter language ---------------------------------------------

  datatype Tracking = New | Established | Related | Invalid

  datatype Link = Wg0 | Eth0 | OtherLink(name: string)

  datatype Packet = Packet(input: Link, output: Link, ip6: bool, src: Addr, dst: Addr,
                           protocol: string, sport: int, dport: int, tracking: Tracking)

  /** Set `g<name>` with one element that the kernel drops `timeout` seconds after loading. */
  datatype SetDecl = SetDecl(name: int, element: Addr, timeout: nat)

  datatype Match =
    | Input(link: Link)
    | Output(link: Link)
    | IsIp6
    | IsInvalid
    | IsEstablished
    | SourceInSet(set_: int)
    | DestinationInSet(set_: int)
    | SourceIn(cidr: Cidr)
    | DestinationIn(cidr: Cidr)
    | DestinationPort(protocol: string, ports: string)
    | SourcePort(protocol: string, ports: string)

  datatype Verdict = Accept | Drop

  datatype Statement = Statement(matches: seq<Match>, verdict: Verdict)

  /** A chain is a policy and statements; the first statement that matches decides. */
  datatype Chain = Chain(policy: Verdict, statements: seq<Statement>)

  datatype Table = Table(sets: seq<SetDecl>, input: Chain, forward: Chain)

  predicate InSet(sets: seq<SetDecl>, name: int, x: Addr, loaded: Instant, now: Instant) {
    exists i :: 0 <= i < |sets|
      && sets[i].name == name && sets[i].element == x && now < loaded + sets[i].timeout * SECOND
  }

  predicate Matches(m: Match, sets: seq<SetDecl>, loaded: Instant, now: Instant, p: Packet) {
    match m
    case Input(link) => p.input == link
    case Output(link) => p.output == link
    case IsIp6 => p.ip6
    case IsInvalid => p.tracking == Invalid
    case IsEstablished => p.tracking == Established
    case SourceInSet(name) => !p.ip6 && InSet(sets, name, p.src, loaded, now)
    case DestinationInSet(name) => !p.ip6 && InSet(sets, name, p.dst, loaded, now)
    case SourceIn(cidr) => !p.ip6 && Contains(cidr, p.src)
    case DestinationIn(cidr) => !p.ip6 && Contains(cidr, p.dst)
    case DestinationPort(protocol, ports) => p.protocol == protocol && Ports.Covers(ports, p.dport)
    case SourcePort(protocol, ports) => p.protocol == protocol && Ports.Covers(ports, p.sport)
  }

  predicate AllHold(matches: seq<Match>, holds: Match -> bool) {
    forall i :: 0 <= i < |matches| ==> holds(matches[i])
  }

  function Decide(policy: Verdict, statements: seq<Statement>, fires: Statement -> bool): Verdict {
    if statements == [] then policy
    else if fires(statements[0]) then statements[0].verdict
    else Decide(policy, statements[1..], fires)
  }

  function Holding(sets: seq<SetDecl>, loaded: Instant, now: Instant, p: Packet): Match -> bool {
    (m: Match) => Matches(m, sets, loaded, now, p)
  }

  function Firing(sets: seq<SetDecl>, loaded: Instant, now: Instant, p: Packet): Statement -> bool {
    (s: Statement) => AllHold(s.matches, Holding(sets, loaded, now, p))
  }

  /** Whether a packet is forwarded, `now`, by a table loaded at `loaded`. */
  function Forward(t: Table, loaded: Instant, now: Instant, p: Packet): Verdict {
    Decide(t.forward.policy, t.forward.statements, Firing(t.sets, loaded, now, p))
  }

  /** Whether a packet addressed to the gateway itself is let in. */
  function Local(t: Table, loaded: Instant, now: Instant, p: Packet): Verdict {
    Decide(t.input.policy, t.input.statements, Firing(t.sets, loaded, now, p))
  }

  // ---- the compiler ----------------------------------------------------

  const YEAR: nat := 31_536_000

  /** Whole seconds left, cut off at a year; fewer than one means the rule is not emitted.
      An unreadable expiry counts as long past. */
  function Seconds(r: Rule, at: Instant): int {
    if r.expires.None? then -1
    else
      var left := r.expires.value - at;
      Min(if left >= 0 then left / SECOND else -((-left) / SECOND), YEAR)
  }

  /** One emitted rule: the address of its peer and the timeout of its set. */
  datatype Entry = Entry(rule: Rule, host: Addr, seconds: nat)

  function Host(p: Peer): Addr {
    if p.address.Ip4? then p.address.addr else 0
  }

  function EntriesOf(host: Addr, rules: seq<Rule>, at: Instant): seq<Entry> {
    if rules == [] then []
    else
      var last := rules[|rules| - 1];
      EntriesOf(host, rules[..|rules| - 1], at)
      + if Seconds(last, at) >= 1 then [Entry(last, host, Seconds(last, at))] else []
  }

  /** The rules that reach the filter, in order. */
  function Entries(peers: seq<Peer>, at: Instant): seq<Entry> {
    if peers == [] then []
    else
      var last := peers[|peers| - 1];
      Entries(peers[..|peers| - 1], at) + EntriesOf(Host(last), last.rules, at)
  }

  function Outgoing(r: Rule): Statement {
    Statement([Input(Wg0), Output(Eth0), SourceInSet(r.id), DestinationIn(r.cidr),
               DestinationPort(r.protocol, r.ports)], Accept)
  }

  function Returning(r: Rule): Statement {
    Statement([Input(Eth0), Output(Wg0), DestinationInSet(r.id), SourceIn(r.cidr),
               SourcePort(r.protocol, r.ports), IsEstablished], Accept)
  }

  const GUARDS: seq<Statement> := [Statement([IsIp6], Drop), Statement([IsInvalid], Drop)]
  const LOCAL: Chain := Chain(Accept, [Statement([Input(Wg0)], Drop)])

  function Declare(e: Entry): SetDecl {
    SetDecl(e.rule.id, e.host, e.seconds)
  }

  function Declarations(entries: seq<Entry>): seq<SetDecl> {
    if entries == [] then []
    else Declarations(entries[..|entries| - 1]) + [Declare(entries[|entries| - 1])]
  }

  function Permits(entries: seq<Entry>): seq<Statement> {
    if entries == [] then []
    else
      var r := entries[|entries| - 1].rule;
      Permits(entries[..|entries| - 1]) + [Outgoing(r), Returning(r)]
  }

  function Compile(peers: seq<Peer>, at: Instant): Table {
    var entries := Entries(peers, at);
    Table(Declarations(entries), LOCAL, Chain(Drop, GUARDS + Permits(entries)))
  }

  const DENY: Table := Compile([], 0)

  lemma {:induction false} EntriesOfExactly(host: Addr, rules: seq<Rule>, at: Instant, e: Entry)
    ensures e in EntriesOf(host, rules, at) <==>
      e.host == host && e.rule in rules && e.seconds == Seconds(e.rule, at) && e.seconds >= 1
  {
    if rules != [] {
      EntriesOfExactly(host, rules[..|rules| - 1], at, e);
      assert rules == rules[..|rules| - 1] + [rules[|rules| - 1]];
    }
  }

  /** The filter holds exactly the rules with a second to run, under their peer's address. */
  lemma {:induction false} EntriesExactly(peers: seq<Peer>, at: Instant, e: Entry)
    ensures e in Entries(peers, at) <==>
      exists p :: p in peers && e.host == Host(p) && e.rule in p.rules
                  && e.seconds == Seconds(e.rule, at) && e.seconds >= 1
  {
    if peers != [] {
      var front, last := peers[..|peers| - 1], peers[|peers| - 1];
      EntriesExactly(front, at, e);
      EntriesOfExactly(Host(last), last.rules, at, e);
      assert peers == front + [last];
    }
  }

  lemma {:induction false} EntriesOfLive(host: Addr, rules: seq<Rule>, at: Instant)
    ensures EntriesOf(host, LiveRules(rules, at), at) == EntriesOf(host, rules, at)
  {
    if rules != [] {
      var front, last := rules[..|rules| - 1], rules[|rules| - 1];
      EntriesOfLive(host, front, at);
      var live := LiveRules(rules, at);
      if Live(last, at) {
        assert live[..|live| - 1] == LiveRules(front, at);
      } else {
        assert live == LiveRules(front, at);
      }
    }
  }

  /** Dropping the expired part first does not change the filter. */
  lemma {:induction false} EntriesOfActive(peers: seq<Peer>, at: Instant)
    ensures Entries(ActivePeers(peers, at), at) == Entries(peers, at)
  {
    if peers != [] {
      var front, last := peers[..|peers| - 1], peers[|peers| - 1];
      EntriesOfActive(front, at);
      EntriesOfLive(Host(last), last.rules, at);
      var active := ActivePeers(peers, at);
      if LiveRules(last.rules, at) != [] {
        assert active[..|active| - 1] == ActivePeers(front, at);
      } else {
        assert active == ActivePeers(front, at);
        assert EntriesOf(Host(last), [], at) == [];
      }
    }
  }

  lemma EntryAppended(entries: seq<Entry>, e: Entry)
    ensures Declarations(entries + [e]) == Declarations(entries) + [Declare(e)]
    ensures Permits(entries + [e]) == Permits(entries) + [Outgoing(e.rule), Returning(e.rule)]
  {
  }

  lemma EntriesStep(peers: seq<Peer>, i: nat, at: Instant)
    requires i < |peers|
    ensures Entries(peers[..i + 1], at) == Entries(peers[..i], at) + EntriesOf(Host(peers[i]), peers[i].rules, at)
  {
    assert peers[..i + 1][..i] == peers[..i];
  }

  lemma EntriesOfStep(host: Addr, rules: seq<Rule>, j: nat, at: Instant)
    requires j < |rules|
    ensures EntriesOf(host, rules[..j + 1], at) == EntriesOf(host, rules[..j], at)
      + if Seconds(rules[j], at) >= 1 then [Entry(rules[j], host, Seconds(rules[j], at))] else []
  {
    assert rules[..j + 1][..j] == rules[..j];
  }

  /** One of the two loops of the compiler: it walks peers and rules and skips what is short of a second. */
  method DeclareSets(peers: seq<Peer>, at: Instant) returns (sets: seq<SetDecl>)
    ensures sets == Declarations(Entries(peers, at))
  {
    sets := [];
    ghost var entries: seq<Entry> := [];
    assert Entries(peers[..0], at) == [] && Declarations([]) == [];
    assert forall host :: EntriesOf(host, [], at) == [];
    hide Seconds, Host, Outgoing, Returning, Entries, EntriesOf, Declarations;
    for i := 0 to |peers|
      invariant entries == Entries(peers[..i], at) && sets == Declarations(entries)
    {
      EntriesStep(peers, i, at);
      var p := peers[i];
      ghost var before := entries;
      for j := 0 to |p.rules|
        invariant entries == before + EntriesOf(Host(p), p.rules[..j], at) && sets == Declarations(entries)
      {
        EntriesOfStep(Host(p), p.rules, j, at);
        var seconds := Seconds(p.rules[j], at);
        if seconds < 1 {
          continue;
        }
        EntryAppended(entries, Entry(p.rules[j], Host(p), seconds));
        sets := sets + [SetDecl(p.rules[j].id, Host(p), seconds)];
        entries := entries + [Entry(p.rules[j], Host(p), seconds)];
      }
      assert p.rules[..|p.rules|] == p.rules;
    }
    assert peers[..|peers|] == peers;
  }

  method PermitFlows(peers: seq<Peer>, at: Instant) returns (permits: seq<Statement>)
    ensures permits == Permits(Entries(peers, at))
  {
    permits := [];
    ghost var entries: seq<Entry> := [];
    assert Entries(peers[..0], at) == [] && Permits([]) == [];
    assert forall host :: EntriesOf(host, [], at) == [];
    hide Seconds, Host, Outgoing, Returning, Entries, EntriesOf, Permits;
    for i := 0 to |peers|
      invariant entries == Entries(peers[..i], at) && permits == Permits(entries)
    {
      EntriesStep(peers, i, at);
      var p := peers[i];
      ghost var before := entries;
      for j := 0 to |p.rules|
        invariant entries == before + EntriesOf(Host(p), p.rules[..j], at) && permits == Permits(entries)
      {
        EntriesOfStep(Host(p), p.rules, j, at);
        var r := p.rules[j];
        if Seconds(r, at) < 1 {
          continue;
        }
        EntryAppended(entries, Entry(r, Host(p), Seconds(r, at)));
        permits := permits + [Outgoing(r), Returning(r)];
        entries := entries + [Entry(r, Host(p), Seconds(r, at))];
      }
      assert p.rules[..|p.rules|] == p.rules;
    }
    assert peers[..|peers|] == peers;
  }

  method Ruleset(s: Snapshot, at: Instant) returns (t: Table)
    ensures t == Compile(s.peers, at)
  {
    EntriesOfActive(s.peers, at);
    var active := Active(s, at);
    var sets := DeclareSets(active.peers, at);
    var permits := PermitFlows(active.peers, at);
    t := Table(sets, LOCAL, Chain(Drop, GUARDS + permits));
  }

  // ---- what the filter means -------------------------------------------

  lemma {:induction false} DeclarationsExactly(entries: seq<Entry>)
    ensures |Declarations(entries)| == |entries|
    ensures forall i :: 0 <= i < |entries| ==> Declarations(entries)[i] == Declare(entries[i])
  {
    if entries != [] {
      DeclarationsExactly(entries[..|entries| - 1]);
    }
  }

  /** The rule's timer has not run out: the set was loaded with it and its timeout is not over. */
  predicate Running(r: Rule, at: Instant, loaded: Instant, now: Instant) {
    Seconds(r, at) >= 1 && now < loaded + Seconds(r, at) * SECOND
  }

  /** The packet goes where the rule lets its peer go. */
  predicate Allows(r: Rule, p: Packet) {
    Contains(r.cidr, p.dst) && p.protocol == r.protocol && Ports.Covers(r.ports, p.dport)
  }

  /** The packet comes back from where the rule lets its peer go. */
  predicate Answers(r: Rule, p: Packet) {
    Contains(r.cidr, p.src) && p.protocol == r.protocol && Ports.Covers(r.ports, p.sport)
  }

  /** Some unexpired rule of the peer that owns the source address allows the packet. */
  ghost predicate Requested(peers: seq<Peer>, at: Instant, loaded: Instant, now: Instant, p: Packet) {
    exists peer, r :: peer in peers && r in peer.rules
      && Host(peer) == p.src && Allows(r, p) && Running(r, at, loaded, now)
  }

  ghost predicate Answered(peers: seq<Peer>, at: Instant, loaded: Instant, now: Instant, p: Packet) {
    exists peer, r :: peer in peers && r in peer.rules
      && Host(peer) == p.dst && Answers(r, p) && Running(r, at, loaded, now)
  }

  /** The packet that this one answers. */
  function Mirrored(p: Packet): Packet {
    p.(input := p.output, output := p.input, src := p.dst, dst := p.src, sport := p.dport, dport := p.sport)
  }

  /** The packet itself on its way out of the tunnel, what it answers on its way back in. */
  function RequestOf(p: Packet): Packet {
    if p.input == Wg0 then p else Mirrored(p)
  }

  ghost predicate Distinguished(entries: seq<Entry>) {
    forall i, j :: 0 <= i < j < |entries| ==> entries[i].rule.id != entries[j].rule.id
  }

  /** With distinct names, a set holds its own entry's address and nothing else. */
  lemma SetHoldsOwnEntry(entries: seq<Entry>, k: nat, x: Addr, loaded: Instant, now: Instant)
    requires Distinguished(entries) && k < |entries|
    ensures InSet(Declarations(entries), entries[k].rule.id, x, loaded, now) <==>
      entries[k].host == x && now < loaded + entries[k].seconds * SECOND
  {
    DeclarationsExactly(entries);
    var sets := Declarations(entries);
    assert sets[k] == Declare(entries[k]);
    forall i | 0 <= i < |sets| && i != k ensures sets[i].name != entries[k].rule.id {
      assert sets[i] == Declare(entries[i]);
    }
  }

  predicate Unguarded(p: Packet) {
    !p.ip6 && p.tracking != Invalid
  }

  ghost predicate SomeFires(statements: seq<Statement>, fires: Statement -> bool) {
    exists i :: 0 <= i < |statements| && fires(statements[i])
  }

  /** A chain of accepting statements under a dropping policy accepts when any of them fires. */
  lemma {:induction false} AcceptsWhenSomeFires(statements: seq<Statement>, fires: Statement -> bool)
    requires forall i :: 0 <= i < |statements| ==> statements[i].verdict == Accept
    ensures Decide(Drop, statements, fires) == Accept <==> SomeFires(statements, fires)
  {
    if statements != [] {
      var rest := statements[1..];
      AcceptsWhenSomeFires(rest, fires);
      if SomeFires(rest, fires) {
        var i :| 0 <= i < |rest| && fires(rest[i]);
        assert statements[i + 1] == rest[i];
      }
      if SomeFires(statements, fires) && !fires(statements[0]) {
        var i :| 0 <= i < |statements| && fires(statements[i]);
        assert rest[i - 1] == statements[i];
      }
    }
  }

  lemma {:induction false} PermitsAre(entries: seq<Entry>)
    ensures |Permits(entries)| == 2 * |entries|
    ensures forall k :: 0 <= k < |entries| ==>
      Permits(entries)[2 * k] == Outgoing(entries[k].rule) && Permits(entries)[2 * k + 1] == Returning(entries[k].rule)
    ensures forall i :: 0 <= i < |Permits(entries)| ==> Permits(entries)[i].verdict == Accept
  {
    if entries != [] {
      PermitsAre(entries[..|entries| - 1]);
    }
  }

  lemma SomeFiresInHalf(front: seq<Statement>, back: seq<Statement>, fires: Statement -> bool)
    ensures SomeFires(front + back, fires) <==> SomeFires(front, fires) || SomeFires(back, fires)
  {
    var all := front + back;
    if i :| 0 <= i < |front| && fires(front[i]) {
      assert all[i] == front[i];
    }
    if i :| 0 <= i < |back| && fires(back[i]) {
      assert all[|front| + i] == back[i];
    }
  }

  predicate EntryFires(e: Entry, fires: Statement -> bool) {
    fires(Outgoing(e.rule)) || fires(Returning(e.rule))
  }

  lemma {:induction false} SomePermitFires(entries: seq<Entry>, fires: Statement -> bool)
    ensures SomeFires(Permits(entries), fires) <==> exists k :: 0 <= k < |entries| && EntryFires(entries[k], fires)
  {
    if entries != [] {
      var front, last := entries[..|entries| - 1], entries[|entries| - 1];
      var own := [Outgoing(last.rule), Returning(last.rule)];
      SomePermitFires(front, fires);
      SomeFiresInHalf(Permits(front), own, fires);
      assert SomeFires(own, fires) <==> EntryFires(last, fires) by {
        assert own[0] == Outgoing(last.rule) && own[1] == Returning(last.rule);
      }
      if k :| 0 <= k < |front| && EntryFires(front[k], fires) {
        assert entries[k] == front[k];
      }
    }
  }

  predicate LetsOut(r: Rule, holds: Match -> bool) {
    && holds(Input(Wg0)) && holds(Output(Eth0)) && holds(SourceInSet(r.id)) && holds(DestinationIn(r.cidr))
    && holds(DestinationPort(r.protocol, r.ports))
  }

  predicate LetsBack(r: Rule, holds: Match -> bool) {
    && holds(Input(Eth0)) && holds(Output(Wg0)) && holds(DestinationInSet(r.id)) && holds(SourceIn(r.cidr))
    && holds(SourcePort(r.protocol, r.ports)) && holds(IsEstablished)
  }

  lemma OutgoingHolds(r: Rule, holds: Match -> bool)
    ensures AllHold(Outgoing(r).matches, holds) <==> LetsOut(r, holds)
  {
    var m := Outgoing(r).matches;
    assert m[0] == Input(Wg0) && m[1] == Output(Eth0) && m[2] == SourceInSet(r.id)
        && m[3] == DestinationIn(r.cidr) && m[4] == DestinationPort(r.protocol, r.ports);
  }

  lemma ReturningHolds(r: Rule, holds: Match -> bool)
    ensures AllHold(Returning(r).matches, holds) <==> LetsBack(r, holds)
  {
    var m := Returning(r).matches;
    assert m[0] == Input(Eth0) && m[1] == Output(Wg0) && m[2] == DestinationInSet(r.id)
        && m[3] == SourceIn(r.cidr) && m[4] == SourcePort(r.protocol, r.ports) && m[5] == IsEstablished;
  }

  /** The guards come first; past them one permit that holds is enough. */
  lemma ChainDecides(entries: seq<Entry>, holds: Match -> bool, fires: Statement -> bool)
    requires forall s: Statement :: fires(s) == AllHold(s.matches, holds)
    ensures Decide(Drop, GUARDS + Permits(entries), fires) == Accept <==>
      !holds(IsIp6) && !holds(IsInvalid)
      && exists k :: 0 <= k < |entries| && (LetsOut(entries[k].rule, holds) || LetsBack(entries[k].rule, holds))
  {
    var permits := Permits(entries);
    var all := GUARDS + permits;
    assert all[0] == GUARDS[0] && all[1..][0] == GUARDS[1] && all[1..][1..] == permits;
    assert GUARDS[0].matches == [IsIp6] && GUARDS[1].matches == [IsInvalid];
    assert fires(GUARDS[0]) <==> holds([IsIp6][0]);
    assert fires(GUARDS[1]) <==> holds([IsInvalid][0]);
    PermitsAre(entries);
    AcceptsWhenSomeFires(permits, fires);
    SomePermitFires(entries, fires);
    forall k | 0 <= k < |entries|
      ensures EntryFires(entries[k], fires) <==> LetsOut(entries[k].rule, holds) || LetsBack(entries[k].rule, holds)
    {
      OutgoingHolds(entries[k].rule, holds);
      ReturningHolds(entries[k].rule, holds);
    }
  }

  lemma {:induction false} DistinctHalves(front: seq<Rule>, back: seq<Rule>)
    requires DistinctRules(front + back)
    ensures DistinctRules(front) && DistinctRules(back)
    ensures forall r, q :: r in front && q in back ==> r.id != q.id
  {
    var all := front + back;
    assert forall i :: 0 <= i < |front| ==> front[i] == all[i];
    assert forall i :: 0 <= i < |back| ==> back[i] == all[|front| + i];
  }

  lemma {:induction false} EntriesOfDistinguished(host: Addr, rules: seq<Rule>, at: Instant)
    requires DistinctRules(rules)
    ensures Distinguished(EntriesOf(host, rules, at))
    ensures forall e :: e in EntriesOf(host, rules, at) ==> e.rule in rules
  {
    if rules != [] {
      var front, last := rules[..|rules| - 1], rules[|rules| - 1];
      assert rules == front + [last];
      DistinctHalves(front, [last]);
      EntriesOfDistinguished(host, front, at);
    }
  }

  /** Distinct rule identifiers give every emitted rule a set name of its own. */
  lemma {:induction false} EntriesDistinguished(peers: seq<Peer>, at: Instant)
    requires DistinctRules(AllRules(peers))
    ensures Distinguished(Entries(peers, at))
    ensures forall e :: e in Entries(peers, at) ==> e.rule in AllRules(peers)
  {
    if peers != [] {
      var front, last := peers[..|peers| - 1], peers[|peers| - 1];
      DistinctHalves(AllRules(front), last.rules);
      EntriesDistinguished(front, at);
      EntriesOfDistinguished(Host(last), last.rules, at);
    }
  }

  predicate PermitsOut(e: Entry, loaded: Instant, now: Instant, p: Packet) {
    p.input == Wg0 && p.output == Eth0 && e.host == p.src && now < loaded + e.seconds * SECOND && Allows(e.rule, p)
  }

  predicate PermitsBack(e: Entry, loaded: Instant, now: Instant, p: Packet) {
    && p.input == Eth0 && p.output == Wg0 && p.tracking == Established
    && e.host == p.dst && now < loaded + e.seconds * SECOND && Answers(e.rule, p)
  }

  lemma OutMeans(entries: seq<Entry>, k: nat, loaded: Instant, now: Instant, p: Packet)
    requires Distinguished(entries) && k < |entries| && !p.ip6
    ensures LetsOut(entries[k].rule, Holding(Declarations(entries), loaded, now, p))
       <==> PermitsOut(entries[k], loaded, now, p)
  {
    hide Contains, Ports.Covers, InSet, Declarations, Distinguished;
    SetHoldsOwnEntry(entries, k, p.src, loaded, now);
  }

  lemma BackMeans(entries: seq<Entry>, k: nat, loaded: Instant, now: Instant, p: Packet)
    requires Distinguished(entries) && k < |entries| && !p.ip6
    ensures LetsBack(entries[k].rule, Holding(Declarations(entries), loaded, now, p))
       <==> PermitsBack(entries[k], loaded, now, p)
  {
    hide Contains, Ports.Covers, InSet, Declarations, Distinguished;
    SetHoldsOwnEntry(entries, k, p.dst, loaded, now);
  }

  ghost predicate SomePermits(entries: seq<Entry>, loaded: Instant, now: Instant, p: Packet) {
    exists k :: 0 <= k < |entries|
      && (PermitsOut(entries[k], loaded, now, p) || PermitsBack(entries[k], loaded, now, p))
  }

  /** The entries decide the filter: a guarded packet is dropped, any other is accepted when an
      entry of its address lets it out, or lets it back in as part of an established flow. */
  lemma FilterDecides(entries: seq<Entry>, loaded: Instant, now: Instant, p: Packet)
    requires Distinguished(entries)
    ensures Decide(Drop, GUARDS + Permits(entries), Firing(Declarations(entries), loaded, now, p)) == Accept
       <==> Unguarded(p) && SomePermits(entries, loaded, now, p)
  {
    var holds := Holding(Declarations(entries), loaded, now, p);
    ChainDecides(entries, holds, Firing(Declarations(entries), loaded, now, p));
    if Unguarded(p) {
      if k :| 0 <= k < |entries| && (LetsOut(entries[k].rule, holds) || LetsBack(entries[k].rule, holds)) {
        OutMeans(entries, k, loaded, now, p);
        BackMeans(entries, k, loaded, now, p);
      }
      if SomePermits(entries, loaded, now, p) {
        var k :| 0 <= k < |entries|
          && (PermitsOut(entries[k], loaded, now, p) || PermitsBack(entries[k], loaded, now, p));
        OutMeans(entries, k, loaded, now, p);
        BackMeans(entries, k, loaded, now, p);
      }
    }
  }

  lemma EntryIsWanted(peers: seq<Peer>, at: Instant, loaded: Instant, now: Instant, p: Packet, e: Entry)
    requires e in Entries(peers, at)
    ensures PermitsOut(e, loaded, now, p) ==>
      p.input == Wg0 && p.output == Eth0 && Requested(peers, at, loaded, now, p)
    ensures PermitsBack(e, loaded, now, p) ==>
      p.input == Eth0 && p.output == Wg0 && p.tracking == Established && Answered(peers, at, loaded, now, p)
  {
    hide Entries, Allows, Answers, Seconds;
    EntriesExactly(peers, at, e);
  }

  lemma RequestHasEntry(peers: seq<Peer>, at: Instant, loaded: Instant, now: Instant, p: Packet)
    requires p.input == Wg0 && p.output == Eth0 && Requested(peers, at, loaded, now, p)
    ensures SomePermits(Entries(peers, at), loaded, now, p)
  {
    hide Entries, Allows, Seconds;
    var peer, r :| peer in peers && r in peer.rules && Host(peer) == p.src && Allows(r, p)
      && Running(r, at, loaded, now);
    EntriesExactly(peers, at, Entry(r, Host(peer), Seconds(r, at)));
  }

  lemma AnswerHasEntry(peers: seq<Peer>, at: Instant, loaded: Instant, now: Instant, p: Packet)
    requires p.input == Eth0 && p.output == Wg0 && p.tracking == Established
    requires Answered(peers, at, loaded, now, p)
    ensures SomePermits(Entries(peers, at), loaded, now, p)
  {
    hide Entries, Answers, Seconds;
    var peer, r :| peer in peers && r in peer.rules && Host(peer) == p.dst && Answers(r, p)
      && Running(r, at, loaded, now);
    EntriesExactly(peers, at, Entry(r, Host(peer), Seconds(r, at)));
  }

  /** Main theorem. Compiling a policy keeps its meaning: of the IPv4 packets that are not
      ct-invalid, exactly those are forwarded that leave wg0 for eth0 under a running rule of the
      peer owning the source address, or answer one as part of an established flow. */
  lemma RulesetMeans(peers: seq<Peer>, at: Instant, loaded: Instant, now: Instant, p: Packet)
    requires DistinctRules(AllRules(peers))
    ensures Forward(Compile(peers, at), loaded, now, p) == Accept <==>
      Unguarded(p)
      && (|| (p.input == Wg0 && p.output == Eth0 && Requested(peers, at, loaded, now, p))
          || (p.input == Eth0 && p.output == Wg0 && p.tracking == Established
              && Answered(peers, at, loaded, now, p)))
  {
    hide Entries, Declarations, Permits, Decide, Distinguished, PermitsOut, PermitsBack, Requested, Answered;
    var entries := Entries(peers, at);
    EntriesDistinguished(peers, at);
    FilterDecides(entries, loaded, now, p);
    if SomePermits(entries, loaded, now, p) {
      var k :| 0 <= k < |entries|
        && (PermitsOut(entries[k], loaded, now, p) || PermitsBack(entries[k], loaded, now, p));
      EntryIsWanted(peers, at, loaded, now, p, entries[k]);
    }
    if p.input == Wg0 && p.output == Eth0 && Requested(peers, at, loaded, now, p) {
      RequestHasEntry(peers, at, loaded, now, p);
    }
    if p.input == Eth0 && p.output == Wg0 && p.tracking == Established && Answered(peers, at, loaded, now, p) {
      AnswerHasEntry(peers, at, loaded, now, p);
    }
  }

  /** Every forwarded packet leaves the tunnel for a request that a running rule allows, or comes
      back as part of an established flow, in answer to one. */
  lemma ForwardedIsRequested(peers: seq<Peer>, at: Instant, loaded: Instant, now: Instant, p: Packet)
    requires DistinctRules(AllRules(peers))
    requires Forward(Compile(peers, at), loaded, now, p) == Accept
    ensures Requested(peers, at, loaded, now, RequestOf(p))
    ensures RequestOf(p).input == Wg0 && RequestOf(p).output == Eth0 && (p.input != Wg0 ==> p.tracking == Established)
  {
    hide Compile, Forward, Contains, Ports.Covers, Running;
    RulesetMeans(peers, at, loaded, now, p);
    if p.input != Wg0 {
      var peer, r :| peer in peers && r in peer.rules && Host(peer) == p.dst && Answers(r, p)
        && Running(r, at, loaded, now);
      assert Allows(r, Mirrored(p));
    }
  }

  /** In a validated snapshot an address has one owner. */
  lemma OwnerIsUnique(s: Snapshot, a: Peer, b: Peer)
    requires ValidSnapshot(s) && a in s.peers && b in s.peers && Host(a) == Host(b)
    ensures a == b
  {
  }

  /** A rule loaded `delay` after the clock was read stops at most `delay` after it expires, and
      one of no more than a year runs until less than a second before. */
  lemma ExpiryBound(r: Rule, at: Instant, loaded: Instant, now: Instant)
    requires r.expires.Some?
    ensures Running(r, at, loaded, now) ==> now < r.expires.value + (loaded - at)
    ensures 1_000_000_000 <= r.expires.value - at <= 365 * 86400 * 1_000_000_000 ==>
      now <= r.expires.value - 1_000_000_000 + (loaded - at) ==> Running(r, at, loaded, now)
  {
  }

  /** Which rules run: those with a whole second left when the filter was compiled, for as many whole
      seconds from its loading, at most 365 days of them. */
  lemma RunningExactly(r: Rule, at: Instant, loaded: Instant, now: Instant)
    ensures Running(r, at, loaded, now) <==>
      && r.expires.Some? && r.expires.value - at >= 1_000_000_000
      && var seconds := (r.expires.value - at) / 1_000_000_000;
         now < loaded + (if seconds <= 31_536_000 then seconds else 31_536_000) * 1_000_000_000
  {
  }

  /** No set name is declared twice. */
  lemma SetsDeclaredOnce(peers: seq<Peer>, at: Instant)
    requires DistinctRules(AllRules(peers))
    ensures var sets := Compile(peers, at).sets;
      forall i, j :: 0 <= i < j < |sets| ==> sets[i].name != sets[j].name
  {
    EntriesDistinguished(peers, at);
    DeclarationsExactly(Entries(peers, at));
  }

  lemma EntryIsDeclared(entries: seq<Entry>, e: nat, k: nat)
    requires e < |entries| && k < 6
    ensures k < 5 ==> Declared(Outgoing(entries[e].rule).matches[k], Declarations(entries))
    ensures Declared(Returning(entries[e].rule).matches[k], Declarations(entries))
  {
    hide Declarations;
    DeclarationsExactly(entries);
    assert Declarations(entries)[e].name == entries[e].rule.id;
  }

  /** Every set a statement names is declared. */
  lemma NamedSetsDeclared(peers: seq<Peer>, at: Instant, i: nat, k: nat)
    requires i < |Compile(peers, at).forward.statements|
    requires k < |Compile(peers, at).forward.statements[i].matches|
    ensures Declared(Compile(peers, at).forward.statements[i].matches[k], Compile(peers, at).sets)
  {
    if i >= 2 {
      hide Entries, Permits, Declarations, Declared;
      var entries := Entries(peers, at);
      var e := (i - 2) / 2;
      PermitsAre(entries);
      var r := entries[e].rule;
      assert Permits(entries)[i - 2] == if i % 2 == 0 then Outgoing(r) else Returning(r);
      EntryIsDeclared(entries, e, k);
    }
  }

  ghost predicate Declared(m: Match, sets: seq<SetDecl>) {
    match m
    case SourceInSet(name) => exists i :: 0 <= i < |sets| && sets[i].name == name
    case DestinationInSet(name) => exists i :: 0 <= i < |sets| && sets[i].name == name
    case _ => true
  }

  lemma AcceptedBy(peers: seq<Peer>, at: Instant, loaded: Instant, now: Instant,
                   p: Packet) returns (peer: Peer, r: Rule)
    requires DistinctRules(AllRules(peers))
    requires Forward(Compile(peers, at), loaded, now, p) == Accept
    ensures peer in peers && r in peer.rules
    ensures (p.input == Wg0 && Allows(r, p)) || (p.input == Eth0 && Answers(r, p))
  {
    RulesetMeans(peers, at, loaded, now, p);
    if p.input == Wg0 {
      peer, r :| peer in peers && r in peer.rules && Allows(r, p);
    } else {
      peer, r :| peer in peers && r in peer.rules && Answers(r, p);
    }
  }

  /** No filter of a validated snapshot lets a peer reach the pool, loopback, link-local or
      multicast, and none lets one of these answer. */
  lemma NothingReserved(s: Snapshot, at: Instant, loaded: Instant, now: Instant, p: Packet)
    requires ValidSnapshot(s)
    requires Forward(Compile(s.peers, at), loaded, now, p) == Accept
    ensures p.input == Wg0 ==> !Reserved(p.dst)
    ensures p.input == Eth0 ==> !Reserved(p.src)
  {
    var peer, r := AcceptedBy(s.peers, at, loaded, now, p);
    RuleStaysOut(s, peer, r, if p.input == Wg0 then p.dst else p.src);
  }

  lemma RuleStaysOut(s: Snapshot, peer: Peer, r: Rule, x: Addr)
    requires ValidSnapshot(s) && peer in s.peers && r in peer.rules && Contains(r.cidr, x)
    ensures !Reserved(x)
  {
    var i :| 0 <= i < |s.peers| && s.peers[i] == peer;
    RuleIsListed(s.peers, i, r);
    assert ValidRule(r);
  }

  /** The filter of the empty policy is deny-all, whatever time it is compiled at, and every
      filter keeps packets from wg0 away from the gateway itself. */
  lemma DenyAll(at: Instant, loaded: Instant, now: Instant, p: Packet)
    ensures Compile([], at) == DENY
    ensures Forward(DENY, loaded, now, p) == Drop
  {
    RulesetMeans([], at, loaded, now, p);
  }

  lemma LocalIsClosed(peers: seq<Peer>, at: Instant, loaded: Instant, now: Instant, p: Packet)
    ensures Local(Compile(peers, at), loaded, now, p) == Drop <==> p.input == Wg0
  {
    var holds := Holding(Compile(peers, at).sets, loaded, now, p);
    var only := LOCAL.statements[0];
    assert only.matches[0] == Input(Wg0);
    assert AllHold(only.matches, holds) <==> holds(only.matches[0]);
    assert LOCAL.statements[1..] == [];
  }
}
