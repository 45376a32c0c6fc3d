/** Portal and gateway together: what a connection pack says about the machine it connects to, and
    what a packet the gateway forwards says about the portal. */
module System {
  import opened Base
  import opened Rulesets
  import Ports
  import opened Prefixes
  import opened Policy
  import opened Catalog
  import opened Network
  import opened Snapshots
  import opened Deliveries
  import opened Portal
  import opened GatewayLog

  /** A pack, the policy it was built from, and how long the gateway's log was at that moment. */
  datatype Handed = Handed(pack: Pack, policy: Snapshot, u: Actor, from: Db, at: nat)

  /** `answer` is the portal state behind the last poll's answer, until that is received; `sources` are the
      portal states behind the policies received so far; `checked` are the acknowledgments that
      named the current policy when they were checked and may still be recorded. `sources`, `handed`
      and `log` only remember. */
  datatype State = State(db: Db, answer: Option<Db>, sources: seq<Db>, log: seq<Event>, checked: set<Revision>,
                         handed: seq<Handed>)

  datatype Step =
    | OfPortal(op: Op)
    | OfGateway(event: Event)
    | Check(revision: Revision)
    | Record(revision: Revision, key: string)

  /** The gateway sent this acknowledgment at some time. */
  ghost predicate Sent(log: seq<Event>, revision: Revision) {
    exists k :: 0 <= k < |log| && log[k] == Acknowledged(revision)
  }

  /** The gateway may do whatever its own order allows; a poll that brings a policy brings the
      portal's policy of that moment. */
  ghost predicate Enabled(s: State, step: Step) {
    match step
    case OfPortal(op) => !op.Acknowledge? && Apply(s.db, op).Ok?
    case OfGateway(e) => Allowed(ViewOf(s.log), e) && (e.Polled? && e.answer.Some? ==> e.answer.value == s.db.Current())
    case Check(revision) => Sent(s.log, revision) && revision == s.db.Current().revision
    case Record(revision, key) => revision in s.checked && Apply(s.db, Acknowledge(revision, key)).Ok?
  }

  ghost function Next(s: State, step: Step): State
    requires Enabled(s, step)
  {
    match step
    case OfPortal(op) =>
      var after := Apply(s.db, op).value;
      s.(db := after,
         handed := if op.ConsumePack? && |after.net.released| > 0
                   then s.handed + [Handed(after.net.released[|after.net.released| - 1],
                                      s.db.Current(), op.u, s.db, |s.log|)]
                   else s.handed)
    case OfGateway(e) =>
      var heard := s.(log := s.log + [e]);
      if e.Polled? then heard.(answer := if e.answer.Some? then Some(s.db) else None)
      else if e.Received? && s.answer.Some? then heard.(sources := s.sources + [s.answer.value], answer := None)
      else heard
    case Check(revision) => s.(checked := s.checked + {revision})
    case Record(revision, key) => s.(db := Apply(s.db, Acknowledge(revision, key)).value)
  }

  /** This very policy was on the gateway's disk and then in its kernel. */
  ghost predicate WasInForce(log: seq<Event>, policy: Snapshot) {
    exists k :: 0 <= k < |log| && log[k].Loaded? && log[k].policy == policy
      && ViewOf(log[..k]).disk == Holding(log[k].number, policy)
  }

  /** What a pack on its way out is evidence of. */
  ghost predicate Truthful(h: Handed, log: seq<Event>) {
    && h.at <= |log| && WasInForce(log[..h.at], h.policy) && h.policy == h.from.Current()
    && forall c :: c in h.pack.routes <==> Routed(h.from, h.u, h.pack.device, c)
  }

  /** Every portal state of interest, oldest first. */
  function Timeline(sources: seq<Db>, answer: Option<Db>, db: Db): seq<Db> {
    sources + (if answer.Some? then [answer.value] else []) + [db]
  }

  /** Good states, in an order in which nothing final is undone. */
  ghost predicate Chain(dbs: seq<Db>) {
    && (forall k :: 0 <= k < |dbs| ==> Portal.Inv(dbs[k]))
    && (forall j, k :: 0 <= j <= k < |dbs| ==> Lasting(dbs[j].net, dbs[k].net))
  }

  ghost predicate Sourced(sources: seq<Db>, answer: Option<Db>, db: Db, log: seq<Event>) {
    && Chain(Timeline(sources, answer, db))
    && |sources| == |ViewOf(log).received|
    && (forall k :: 0 <= k < |sources| ==> ViewOf(log).received[k] == sources[k].Current())
    && ViewOf(log).answer == if answer.Some? then Some(answer.value.Current()) else None
  }

  ghost predicate Inv(s: State) {
    && Sourced(s.sources, s.answer, s.db, s.log)
    && Portal.Inv(s.db) && Legal(s.log)
    && (forall r :: r in s.checked ==> Installed(s.log, r))
    && (s.db.net.status.revision == Blank || Installed(s.log, s.db.net.status.revision))
    && (forall i :: 0 <= i < |s.handed| ==> Truthful(s.handed[i], s.log))
    && |s.handed| == |s.db.net.released|
    && (forall i :: 0 <= i < |s.handed| ==> s.handed[i].pack == s.db.net.released[i])
  }

  lemma {:induction false} LoadedIsValid(log: seq<Event>, k: nat)
    requires Legal(log) && k < |log| && log[k].Loaded?
    ensures ValidSnapshot(log[k].policy)
  {
    hide ValidPeers;
    assert Allowed(ViewOf(log[..k]), log[k]);
    LegalPrefix(log, k);
    ViewIsGenuine(log[..k]);
  }

  /** The hash is injective, so an installed revision is an installed policy. */
  lemma InstalledIsInForce(log: seq<Event>, policy: Snapshot)
    requires Legal(log) && Installed(log, policy.revision) && policy.revision == policy.Hash()
    ensures WasInForce(log, policy)
  {
    hide Legal, ViewOf, ValidPeers;
    var k :| 0 <= k < |log| && log[k].Loaded? && log[k].policy.revision == policy.revision
      && ViewOf(log[..k]).disk == Holding(log[k].number, log[k].policy);
    LoadedIsValid(log, k);
    assert log[k].policy == policy;
  }

  lemma SentWasInstalled(log: seq<Event>, revision: Revision)
    requires Legal(log) && Sent(log, revision)
    ensures Installed(log, revision)
  {
    hide Legal, ViewOf;
    var k :| 0 <= k < |log| && log[k] == Acknowledged(revision);
    AcknowledgedWasInstalled(log, k);
    InstalledLater(log, k, revision);
  }

  lemma InstalledLater(log: seq<Event>, k: nat, revision: Revision)
    requires k <= |log| && Installed(log[..k], revision)
    ensures Installed(log, revision)
  {
    var j :| 0 <= j < k && log[..k][j].Loaded? && log[..k][j].policy.revision == revision
      && ViewOf(log[..k][..j]).disk == Holding(log[..k][j].number, log[..k][j].policy);
    assert log[..k][..j] == log[..j];
  }

  /** A poll's answer joins the timeline in place of the one before, or only that one leaves. */
  lemma AnswerJoins(sources: seq<Db>, answer: Option<Db>, db: Db, joins: Option<Db>)
    requires Chain(Timeline(sources, answer, db)) && (joins.Some? ==> joins.value == db)
    ensures Chain(Timeline(sources, joins, db))
  {
    hide Portal.Inv, Lasting;
    var before, after := Timeline(sources, answer, db), Timeline(sources, joins, db);
    var n, last := |sources|, |before| - 1;
    forall k | 0 <= k < |after| ensures after[k] == before[if k < n then k else last] {}
    forall k | 0 <= k < |after| ensures Portal.Inv(after[k]) {
      assert Portal.Inv(before[if k < n then k else last]);
    }
    forall j, k | 0 <= j <= k < |after| ensures Lasting(after[j].net, after[k].net) {
      assert Lasting(before[if j < n then j else last].net, before[if k < n then k else last].net);
    }
  }

  /** Receiving an answer moves it along the timeline; only a poll changes the timeline. */
  lemma GatewayTimeline(s: State, e: Event)
    requires Sourced(s.sources, s.answer, s.db, s.log) && Legal(s.log) && Enabled(s, OfGateway(e))
    ensures var after := Next(s, OfGateway(e)); Sourced(after.sources, after.answer, after.db, after.log)
  {
    hide Chain, Legal, ViewOf, Portal.Inv, ValidSnapshot, SnapshotOf;
    LegalGrows(s.log, e);
    var after := Next(s, OfGateway(e));
    if e.Polled? {
      AnswerJoins(s.sources, s.answer, s.db, after.answer);
    } else {
      assert Timeline(after.sources, after.answer, after.db) == Timeline(s.sources, s.answer, s.db);
    }
  }

  /** The portal moves on: the newest state of the timeline is replaced by a later one. */
  lemma MovesOn(sources: seq<Db>, answer: Option<Db>, db: Db, log: seq<Event>, later: Db)
    requires Sourced(sources, answer, db, log) && Portal.Inv(later) && Lasting(db.net, later.net)
    ensures Sourced(sources, answer, later, log)
  {
    hide Portal.Inv, ViewOf, Lasting, SnapshotOf;
    var before, after := Timeline(sources, answer, db), Timeline(sources, answer, later);
    assert after == before[|before| - 1 := later];
    forall k | 0 <= k < |after| ensures Portal.Inv(after[k]) {
      assert Portal.Inv(before[k]);
    }
    forall j, k | 0 <= j <= k < |after| ensures Lasting(after[j].net, after[k].net) {
      if k == |after| - 1 {
        LastingStart(later.net);
        if j < k {
          assert Lasting(before[j].net, before[k].net);
          LastingTwice(before[j].net, db.net, later.net);
        }
      } else {
        assert Lasting(before[j].net, before[k].net);
      }
    }
  }

  lemma GatewayStepKeeps(s: State, e: Event)
    requires Inv(s) && Enabled(s, OfGateway(e))
    ensures Inv(Next(s, OfGateway(e)))
  {
    hide Portal.Inv, Legal, ViewOf, Installed, WasInForce, Allowed, Routed, Sourced;
    var after := Next(s, OfGateway(e));
    LegalGrows(s.log, e);
    GatewayTimeline(s, e);
    forall r | r == s.db.net.status.revision || r in s.checked
      ensures Installed(s.log, r) ==> Installed(after.log, r)
    {
      if Installed(s.log, r) {
        InstalledStays(s.log, e, r);
      }
    }
    forall i | 0 <= i < |s.handed| ensures Truthful(after.handed[i], after.log) {
      assert Truthful(s.handed[i], s.log);
      assert after.log[..s.handed[i].at] == s.log[..s.handed[i].at];
    }
  }

  /** Only acknowledgments change what the gateway was last heard to have. */
  lemma PortalStepFrame(db: Db, op: Op)
    requires !op.Acknowledge? && Apply(db, op).Ok?
    ensures Apply(db, op).value.net.status == db.net.status
    ensures !op.ConsumePack? ==> Apply(db, op).value.net.released == db.net.released
  {
    hide PackOwner, PackServiceAllowed, ValidKey, ValidDestination, SnapshotOf, RulesFor, Permitted, FreeHost,
         NameTaken, Admins;
  }

  lemma ConsumableWasInForce(s: State, u: Actor, id: nat)
    requires Inv(s) && Enabled(s, OfPortal(ConsumePack(u, id)))
    ensures WasInForce(s.log, s.db.Current())
  {
    hide Good, Records.GoodRecords, Lasting, Legal, ViewOf, Installed, WasInForce, Routed, Release, SnapshotOf, Sourced;
    ReleaseKeeps(s.db, u, id);
    CurrentHash(s.db);
    InstalledIsInForce(s.log, s.db.Current());
  }

  lemma ConsumeKeeps(s: State, u: Actor, id: nat)
    requires Inv(s) && Enabled(s, OfPortal(ConsumePack(u, id)))
    ensures Inv(Next(s, OfPortal(ConsumePack(u, id))))
  {
    hide Good, Records.GoodRecords, Lasting, Legal, ViewOf, Installed, WasInForce, Routed, Release, SnapshotOf, Sourced;
    var after := Next(s, OfPortal(ConsumePack(u, id)));
    ReleaseKeeps(s.db, u, id);
    ReleaseFrame(s.db, u, id);
    MovesOn(s.sources, s.answer, s.db, s.log, after.db);
    PortalStepFrame(s.db, ConsumePack(u, id));
    assert s.db.net.released <= after.db.net.released by { LastingReleased(s.db.net, after.db.net); }
    ConsumableWasInForce(s, u, id);
    assert s.log[..|s.log|] == s.log;
    assert Truthful(after.handed[|s.handed|], after.log);
  }

  lemma LastingReleased(net: Net, after: Net)
    requires Lasting(net, after)
    ensures net.released <= after.released
  {
  }

  lemma CurrentHash(db: Db)
    ensures db.Current().revision == db.Current().Hash() != Blank
  {
  }

  lemma StepKeeps(s: State, step: Step)
    requires Inv(s) && Enabled(s, step)
    ensures Inv(Next(s, step))
  {
    hide Portal.Inv, Legal, ViewOf, Installed, Truthful, Apply, SnapshotOf, Sourced, Lasting;
    match step
    case OfGateway(e) => GatewayStepKeeps(s, e);
    case OfPortal(op) =>
      if op.ConsumePack? {
        ConsumeKeeps(s, op.u, op.id);
      } else {
        Portal.StepKeeps(s.db, op);
        PortalStepFrame(s.db, op);
        MovesOn(s.sources, s.answer, s.db, s.log, Apply(s.db, op).value);
      }
    case Check(revision) => SentWasInstalled(s.log, revision);
    case Record(revision, key) =>
      Portal.StepKeeps(s.db, Acknowledge(revision, key));
      RecordFrame(s.db, revision, key);
      MovesOn(s.sources, s.answer, s.db, s.log, Apply(s.db, Acknowledge(revision, key)).value);
  }

  lemma RecordFrame(db: Db, revision: Revision, key: string)
    requires Apply(db, Acknowledge(revision, key)).Ok?
    ensures var after := Apply(db, Acknowledge(revision, key)).value;
      after.net.status.revision == revision && after.net.released == db.net.released
  {
  }

  // ---- runs ------------------------------------------------------------

  const START: State := State(EMPTY, None, [], [], {}, [])

  ghost function Run(s: State, steps: seq<Step>): State {
    if steps == [] then s
    else
      var before := Run(s, steps[..|steps| - 1]);
      var step := steps[|steps| - 1];
      if Enabled(before, step) then Next(before, step) else before
  }

  lemma {:induction false} RunKeeps(steps: seq<Step>)
    ensures Inv(Run(START, steps))
  {
    hide Inv, Enabled, Next;
    if steps == [] {
      StartIsGood();
    } else {
      var before := Run(START, steps[..|steps| - 1]);
      RunKeeps(steps[..|steps| - 1]);
      if Enabled(before, steps[|steps| - 1]) {
        StepKeeps(before, steps[|steps| - 1]);
      }
    }
  }

  lemma StartIsGood()
    ensures Inv(START)
  {
    EmptyIsGood();
    LastingStart(EMPTY.net);
    assert Timeline([], None, EMPTY) == [EMPTY];
  }

  /** Main theorem. Take any run of portal transactions, gateway actions, and acknowledgments that
      are checked and recorded in separate steps and may arrive late. Whenever a pack was handed
      out, the policy current at that moment had by then been on the gateway's disk and in its
      kernel; the pack's routes were exactly the owner's approved destinations of that moment; and
      no device was handed two packs. */
  lemma PacksAreTruthful(steps: seq<Step>)
    ensures var s := Run(START, steps);
      && (forall i :: 0 <= i < |s.handed| ==> Truthful(s.handed[i], s.log))
      && (forall i, j :: 0 <= i < j < |s.handed| ==> s.handed[i].pack.device != s.handed[j].pack.device)
      && |s.handed| == |s.db.net.released|
  {
    hide Truthful, GoodDevice, GoodGrant, DistinctDevices, OneOpenEach, LiveGrants, Legal, Installed,
         Records.GoodRecords;
    RunKeeps(steps);
  }

  /** The theorem's "by then" cannot be "at that moment": blocking forwarding is always possible,
      and a pack that could be handed out before can be handed out after it. */
  lemma NotAlwaysInForce(s: State, u: Actor, id: nat)
    requires Inv(s) && Enabled(s, OfPortal(ConsumePack(u, id)))
    ensures Enabled(s, OfGateway(Blocked))
    ensures var blocked := Next(s, OfGateway(Blocked));
      && Enabled(blocked, OfPortal(ConsumePack(u, id)))
      && ViewOf(blocked.log).filter == Filter.Denied
  {
    hide Portal.Inv, Apply, Installed, Truthful, Legal;
    LegalGrows(s.log, Blocked);
  }

  /** Exactly when it is in force at that moment. In every reachable state in which a pack can be
      handed out, the policy it is built from was loaded from the disk; it is in the kernel if and
      only if forwarding has not been blocked since it was last loaded. */
  lemma InForceExactly(steps: seq<Step>, u: Actor, id: nat)
    requires Enabled(Run(START, steps), OfPortal(ConsumePack(u, id)))
    ensures var s := Run(START, steps);
      exists k :: LastLoad(s.log, k, s.db.Current()) && InForceSince(s.log, k, s.db.Current())
  {
    hide Portal.Inv, Legal, ViewOf, Truthful, SnapshotOf, Sourced, Run, LastLoad, InForceSince, Installed, Apply;
    RunKeeps(steps);
    var s := Run(START, steps);
    ConsumableWasInForce(s, u, id);
    var l :| 0 <= l < |s.log| && s.log[l].Loaded? && s.log[l].policy == s.db.Current();
    var k := FindLastLoad(s.log, l, s.db.Current());
    FilterSinceLoad(s.log, k, s.db.Current());
  }

  // ---- from the packet back to the approval ----------------------------

  /** The device holds the source address, is approved, and belongs to an enabled account. */
  predicate SentBy(db: Db, device: nat, p: Packet) {
    && device < |db.net.devices| && db.net.devices[device].state == DeviceApproved
    && p.src == 0x0A4D_0000 + db.net.devices[device].host
    && db.net.devices[device].user < |db.people| && db.people[db.net.devices[device].user].enabled
  }

  predicate PlaceAllows(place: Place, p: Packet) {
    && IsIp4(place.cidr) && Contains(place.cidr, p.dst)
    && p.protocol == place.protocol && Ports.Covers(place.ports, p.dport)
  }

  /** A grant of this portal state that lets the packet out of the tunnel: approved, unexpired and
      offered, for the destination, on the device that sent it. */
  predicate ApprovedIn(db: Db, i: nat, p: Packet) {
    && i < |db.net.grants| && Offered(db.Joined(), db.net.grants[i], db.clock)
    && SentBy(db, db.net.grants[i].device, p) && PlaceAllows(db.net.grants[i].place, p)
  }

  lemma StandsApproved(db: Db, r: Rule, p: Packet)
    requires Portal.Inv(db) && Stands(db.Joined(), db.clock, r)
    requires p.src == 0x0A4D_0000 + db.net.devices[db.net.grants[r.id - 1].device].host && Allows(r, p)
    ensures ApprovedIn(db, r.id - 1, p)
  {
    hide Contains, Ports.Covers, Portal.Inv, Good, Offered, Selected;
    SelectedDevice(db, r.id - 1);
    FilterIsPlain(db.Joined(), r.id - 1, db.clock);
  }

  /** A selected grant is for an IPv4 destination, on the approved device of an enabled account. */
  lemma SelectedDevice(db: Db, i: nat)
    requires Portal.Inv(db) && i < |db.net.grants| && Selected(db.Joined(), db.net.grants[i], db.clock)
    ensures Good(db.net, db.people, db.clock) && IsIp4(db.net.grants[i].place.cidr)
    ensures var id := db.net.grants[i].device;
      && id < |db.net.devices| && db.net.devices[id].state == DeviceApproved
      && db.net.devices[id].user < |db.people| && db.people[db.net.devices[id].user].enabled
  {
    hide Records.GoodRecords, DistinctDevices, OneOpenEach, GoodPacks, LiveGrants, GoodDevice, Contains;
    assert GoodGrant(db.net.grants[i], db.net);
  }

  lemma PeerHost(db: Db, now: Time, peer: Peer)
    requires Portal.Inv(db) && PeerIsDevice(db.Joined(), now, peer)
    ensures Host(peer) == 0x0A4D_0000 + db.net.devices[peer.id - 1].host
  {
  }

  /** The rule behind a request is a grant's. */
  lemma RequestedWasApproved(db: Db, at: Instant, loaded: Instant, now: Instant, p: Packet) returns (i: nat)
    requires Portal.Inv(db) && Requested(db.Current().peers, at, loaded, now, p)
    ensures ApprovedIn(db, i, p)
    ensures now < db.net.grants[i].expires.value * SECOND + (loaded - at)
  {
    hide Portal.Inv, Allows, Running, RulesOf, PeersOf, Selected, ApprovedIn, Host;
    var t := db.Joined();
    var peer, r :| peer in db.Current().peers && r in peer.rules && Host(peer) == p.src
      && Allows(r, p) && Running(r, at, loaded, now);
    PeersAreDevices(t, db.clock, |t.net.devices|);
    assert PeerIsDevice(t, db.clock, peer);
    PeerHost(db, db.clock, peer);
    RulesOfStand(t, peer.id - 1, db.clock, |t.net.grants|);
    assert Stands(t, db.clock, r);
    i := r.id - 1;
    StandsApproved(db, r, p);
    RuleExpiry(t, db.clock, r, at, loaded, now);
  }

  lemma RuleExpiry(t: Tables, when: Time, r: Rule, at: Instant, loaded: Instant, now: Instant)
    requires Stands(t, when, r) && Running(r, at, loaded, now)
    ensures t.net.grants[r.id - 1].expires.Some?
    ensures now < t.net.grants[r.id - 1].expires.value * SECOND + (loaded - at)
  {
  }

  /** Main theorem, from end to end. In any run, a packet that the kernel forwards was approved by
      the portal, or answers one that was as part of an established flow: there is an earlier portal
      state, the source of the policy now in the kernel, with a grant for exactly the request's
      source, destination, protocol and port, and the grant's expiry has not passed by more than the
      delay of loading. */
  lemma ForwardedWasApproved(steps: seq<Step>, table: Option<(Table, Instant)>, now: Instant, p: Packet)
    returns (k: nat, i: nat)
    requires var s := Run(START, steps); Shows(table, ViewOf(s.log).filter)
    requires table.Some? && Forward(table.value.0, table.value.1, now, p) == Accept
    ensures var s := Run(START, steps); var f := ViewOf(s.log).filter;
      && f.Rules? && f.number == k + 1 && k < |s.sources| && f.policy == s.sources[k].Current()
      && ApprovedIn(s.sources[k], i, RequestOf(p))
      && now < s.sources[k].net.grants[i].expires.value * SECOND + (f.loaded - f.at)
    ensures RequestOf(p).input == Wg0 && RequestOf(p).output == Eth0 && (p.input != Wg0 ==> p.tracking == Established)
  {
    hide Run, Portal.Inv, Legal, ViewOf, Installed, Truthful, Lasting, SnapshotOf, Forward, Requested, Compile;
    RunKeeps(steps);
    var s := Run(START, steps);
    k := FilterSource(s, table, now, p);
    var f := ViewOf(s.log).filter;
    ForwardedIsRequested(f.policy.peers, f.at, f.loaded, now, p);
    i := RequestedWasApproved(s.sources[k], f.at, f.loaded, now, RequestOf(p));
  }

  /** A filter that forwards anything was compiled from the policy of a known portal state. */
  lemma FilterSource(s: State, table: Option<(Table, Instant)>, now: Instant, p: Packet) returns (k: nat)
    requires Inv(s) && Shows(table, ViewOf(s.log).filter)
    requires table.Some? && Forward(table.value.0, table.value.1, now, p) == Accept
    ensures var f := ViewOf(s.log).filter;
      && f.Rules? && f.number == k + 1 && k < |s.sources| && f.policy == s.sources[k].Current()
      && Portal.Inv(s.sources[k]) && DistinctRules(AllRules(f.policy.peers))
      && table.value == (Compile(f.policy.peers, f.at), f.loaded)
  {
    hide Portal.Inv, Legal, ViewOf, Installed, Truthful, Lasting, SnapshotOf, Forward, Compile, ValidPeer, ValidRule;
    ViewIsGenuine(s.log);
    var f := ViewOf(s.log).filter;
    if f.Denied? {
      DenyAll(0, table.value.1, now, p);
    }
    k := f.number - 1;
    assert Timeline(s.sources, s.answer, s.db)[k] == s.sources[k];
  }

  /** The gateway stored the policy of portal state `source` and blocked forwarding after that. */
  ghost predicate TookEffect(s: State, source: Db) {
    exists i, j :: 0 <= i < j < |s.log| && s.log[i].Persisted? && s.log[j].Blocked?
      && 1 <= s.log[i].number <= |s.sources| && source == s.sources[s.log[i].number - 1]
  }

  /** From then on, whatever is forwarded was approved by that portal state or a later one, in which
      nothing final about devices and grants was undone. */
  lemma LaterApproval(steps: seq<Step>, source: Db, table: Option<(Table, Instant)>, now: Instant, p: Packet)
    returns (k: nat, g: nat)
    requires var s := Run(START, steps); Shows(table, ViewOf(s.log).filter) && TookEffect(s, source)
    requires table.Some? && Forward(table.value.0, table.value.1, now, p) == Accept
    ensures var s := Run(START, steps);
      && ViewOf(s.log).filter.Rules? && ViewOf(s.log).filter.number == k + 1 && k < |s.sources|
      && Portal.Inv(s.sources[k]) && Lasting(source.net, s.sources[k].net) && ApprovedIn(s.sources[k], g, RequestOf(p))
  {
    hide Run, Portal.Inv, Legal, ViewOf, Installed, Truthful, SnapshotOf, Forward, Compile, ValidSnapshot,
         ApprovedIn, Lasting;
    RunKeeps(steps);
    var s := Run(START, steps);
    var i, j :| 0 <= i < j < |s.log| && s.log[i].Persisted? && s.log[j].Blocked?
      && 1 <= s.log[i].number <= |s.sources| && source == s.sources[s.log[i].number - 1];
    assert s.log[..|s.log|] == s.log;
    SupersededStaysOff(s.log, i, j, |s.log|);
    k, g := ForwardedWasApproved(steps, table, now, p);
    var line := Timeline(s.sources, s.answer, s.db);
    assert line[k] == s.sources[k] && line[s.log[i].number - 1] == source;
  }

  lemma TableAfterBlock(steps: seq<Step>, source: Db, table: Option<(Table, Instant)>)
    requires var s := Run(START, steps); Shows(table, ViewOf(s.log).filter) && TookEffect(s, source)
    ensures table.Some?
  {
    hide Run, Portal.Inv, Legal, ViewOf, Installed, Truthful, SnapshotOf, Compile, ValidSnapshot, Lasting;
    RunKeeps(steps);
    var s := Run(START, steps);
    var i, j :| 0 <= i < j < |s.log| && s.log[i].Persisted? && s.log[j].Blocked?;
    assert s.log[..|s.log|] == s.log;
    SupersededStaysOff(s.log, i, j, |s.log|);
  }

  /** Revocation is final. Once a policy of a portal state in which a device is revoked has taken
      effect, no packet from the device's address out of the tunnel, and none back to it, is forwarded
      again, whatever the portal, the gateway and its crashes do from then on. */
  lemma RevokedStaysOut(steps: seq<Step>, source: Db, device: nat, table: Option<(Table, Instant)>,
                        now: Instant, p: Packet)
    requires var s := Run(START, steps); Shows(table, ViewOf(s.log).filter) && TookEffect(s, source)
    requires device < |source.net.devices| && source.net.devices[device].state == DeviceRevoked
    requires RequestOf(p).src == 0x0A4D_0000 + source.net.devices[device].host
    ensures table.Some? && Forward(table.value.0, table.value.1, now, p) == Drop
  {
    hide Run, Portal.Inv, ViewOf, SnapshotOf, Forward, Shows, TookEffect;
    TableAfterBlock(steps, source, table);
    if Forward(table.value.0, table.value.1, now, p) == Accept {
      var k, g := LaterApproval(steps, source, table, now, p);
      var later := Run(START, steps).sources[k];
      SameHostSameDevice(later, later.net.grants[g].device, device);
    }
  }

  /** So is the end of a grant. Once a policy of a portal state in which a grant is closed has taken
      effect, the grant justifies no forwarded packet again: what is forwarded is approved by another. */
  lemma ClosedGrantStaysOut(steps: seq<Step>, source: Db, closed: nat, table: Option<(Table, Instant)>,
                            now: Instant, p: Packet)
    requires var s := Run(START, steps); Shows(table, ViewOf(s.log).filter) && TookEffect(s, source)
    requires closed < |source.net.grants| && !IsOpen(source.net.grants[closed])
    ensures table.Some?
    ensures Forward(table.value.0, table.value.1, now, p) == Accept ==>
      exists k, g :: WhileClosed(Run(START, steps), k, source, closed, g, RequestOf(p))
  {
    hide Run, Portal.Inv, ViewOf, SnapshotOf, Forward, Shows, TookEffect;
    TableAfterBlock(steps, source, table);
    if Forward(table.value.0, table.value.1, now, p) == Accept {
      var k, g := LaterApproval(steps, source, table, now, p);
      assert WhileClosed(Run(START, steps), k, source, closed, g, RequestOf(p));
    }
  }

  /** The installed policy is that of the `k`-th source, where the closed grant is unchanged and
      approves nothing, and grant `g`, another one, approves the request. */
  ghost predicate WhileClosed(s: State, k: nat, source: Db, closed: nat, g: nat, request: Packet)
    requires closed < |source.net.grants|
  {
    && ViewOf(s.log).filter.Rules? && ViewOf(s.log).filter.number == k + 1 && k < |s.sources|
    && var later := s.sources[k];
       && closed < |later.net.grants| && later.net.grants[closed] == source.net.grants[closed]
       && !ApprovedIn(later, closed, request)
       && g != closed && ApprovedIn(later, g, request)
  }

  lemma SameHostSameDevice(db: Db, a: nat, b: nat)
    requires Portal.Inv(db) && a < |db.net.devices| && b < |db.net.devices|
    ensures db.net.devices[a].host == db.net.devices[b].host ==> a == b
  {
  }
}
