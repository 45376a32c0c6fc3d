/** One concrete run of portal and gateway: a device is requested and approved, the policy is
    installed, acknowledged and blocked again, and the pack is handed out all the same. */
module Scenario {
  import opened Base
  import opened Prefixes
  import opened Policy
  import opened Catalog
  import opened Network
  import opened Snapshots
  import opened Deliveries
  import opened Portal
  import opened GatewayLog
  import opened System
  import Ports

  const KEY: string := "BAAAAAAAAAAAAAAAAAAAAAAAAAAAAAAAAAAAAAAAAAA="
  const PLACE: Place := Place(Ip4(0x0A00_0005, 32), "tcp", "443")
  const OWNER: Actor := Actor(0, Admin, true, 1)
  const OFFER: Service := Service(true, false, "member", None, None)

  const FIRST: Device :=
    Device(0, "laptop", KEY, 2, DeviceRequested, 1, Some(Delivery(Some("sealed"), 30 * 86400, false)))
  const ADMITTED: Device := FIRST.(state := DeviceApproved, version := 2)
  const APPROVAL: Grant :=
    Grant(0, 0, Approved, PLACE, Some(86400), 2, Open,
          [GrantRow(Pending, NOWHERE, None), GrantRow(Approved, PLACE, Some(86400))])

  const RULE: Rule := Rule(1, PLACE.cidr, "tcp", "443", Some(86400 * SECOND))
  const PEERS: seq<Peer> := [Peer(1, KEY, Ip4(0x0A4D_0002, 32), [RULE])]
  const POLICY: Snapshot := Snapshot(Digest(PEERS), PEERS)

  const STEPS: seq<Step> := [
    OfPortal(AddUser(Admin)),
    OfPortal(SaveService(None, OFFER)),
    OfPortal(Op.SaveTarget(OWNER, None, 0, PLACE, true, 0)),
    OfPortal(Op.CreatePack(OWNER, "laptop", 0, None, KEY, "sealed")),
    OfPortal(DecideNetwork(OWNER, 0, 1, 1, Approved, 86400, 0)),
    OfGateway(Polled(Some(POLICY))),
    OfGateway(Received(1, POLICY)),
    OfGateway(Persisted(1, POLICY)),
    OfGateway(Blocked),
    OfGateway(Loaded(1, POLICY, 0, 0)),
    OfGateway(Acknowledged(POLICY.revision)),
    Check(POLICY.revision),
    Step.Record(POLICY.revision, KEY),
    OfGateway(Blocked),
    OfPortal(ConsumePack(OWNER, 0))
  ]

  /** The portal after its first four transactions, and after the approval. */
  const ASKED: Db :=
    Db(0, [User(Admin, true, 1)], [OFFER], [], [],
       Net([Target(0, PLACE, true, 1)], [FIRST], [NewGrant(0, 0)], Status(Blank, "", None), []))
  const READY: Db := ASKED.(net := ASKED.net.(devices := [ADMITTED], grants := [APPROVAL]))
  const CONFIRMED: Db := READY.(net := READY.net.(status := Status(POLICY.revision, KEY, Some(0))))

  const LOG: seq<Event> := [Polled(Some(POLICY)), Received(1, POLICY), Persisted(1, POLICY), Blocked,
                            Loaded(1, POLICY, 0, 0), Acknowledged(POLICY.revision), Blocked]

  lemma KeyIsValid()
    ensures ValidKey(KEY)
  {
    assert KEY[0] == 'B' && KEY[42] == 'A' && KEY[43] == '=';
  }

  lemma PlaceIsValid()
    ensures ValidDestination(PLACE.cidr, PLACE.protocol, PLACE.ports)
  {
    forall x: Addr | Contains(PLACE.cidr, x) ensures !Reserved(x) {
      CanonicalRange(PLACE.cidr, x);
    }
    var items := [Ports.Single(443)];
    assert Ports.Itoa(443) == Ports.Itoa(44) + ['3'];
    assert Ports.Itoa(44) == ['4'] + ['4'];
    assert items[1..] == [];
    assert Ports.PrintAll(items) == [Ports.Itoa(443)];
    assert Ports.ValidList(items) && Ports.PrintPorts(items) == "443";
  }

  /** The state after the first `k` steps. */
  ghost function After(k: nat): State
    requires k <= |STEPS|
  {
    System.Run(START, STEPS[..k])
  }

  lemma RunSteps(steps: seq<Step>, k: nat)
    requires k < |steps|
    ensures var before := System.Run(START, steps[..k]);
      System.Run(START, steps[..k + 1]) == if Enabled(before, steps[k]) then System.Next(before, steps[k]) else before
  {
    hide Enabled, System.Next;
    assert steps[..k + 1][..k] == steps[..k];
  }

  lemma StepTaken(k: nat)
    requires k < |STEPS|
    ensures After(k + 1) == if Enabled(After(k), STEPS[k]) then System.Next(After(k), STEPS[k]) else After(k)
  {
    hide Enabled, System.Next;
    RunSteps(STEPS, k);
  }

  lemma AllTaken()
    ensures After(15) == System.Run(START, STEPS)
  {
    assert STEPS[..15] == STEPS;
  }

  lemma NothingTaken()
    ensures After(0) == START
  {
    assert STEPS[..0] == [];
  }

  // ---- the portal ------------------------------------------------------

  const PEOPLED: Db := EMPTY.(people := [User(Admin, true, 1)])
  const SERVICED: Db := PEOPLED.(services := [OFFER])
  const TARGETED: Db := SERVICED.(net := SERVICED.net.(targets := [Target(0, PLACE, true, 1)]))

  lemma Targeted()
    ensures Apply(SERVICED, Op.SaveTarget(OWNER, None, 0, PLACE, true, 0)) == Ok(TARGETED)
  {
    hide ValidDestination;
    PlaceIsValid();
    assert SERVICED.net.targets + [Target(0, PLACE, true, 1)] == TARGETED.net.targets;
  }

  lemma Enrolled()
    ensures Enroll(TARGETED.net, TARGETED.people, OWNER, "laptop", KEY)
         == Ok(TARGETED.net.(devices := [Device(0, "laptop", KEY, 2, DeviceRequested, 1, None)]))
  {
    var net := TARGETED.net;
    assert CurrentDevices(net.devices, 0) == 0;
    assert FreeHost(net.devices, 2) == Some(2);
    assert !KeyUsed(net.devices, KEY);
    var laptop := Device(0, "laptop", KEY, 2, DeviceRequested, 1, None);
    assert net.devices + [laptop] == [laptop];
  }

  lemma Asked()
    ensures Apply(TARGETED, Op.CreatePack(OWNER, "laptop", 0, None, KEY, "sealed")) == Ok(ASKED)
  {
    hide ValidKey, Enroll;
    KeyIsValid();
    Enrolled();
    assert !NameTaken(TARGETED.net.devices, 0, "laptop");
    var devices := [Device(0, "laptop", KEY, 2, DeviceRequested, 1, None)];
    assert devices[0 := FIRST] == [FIRST] && TARGETED.net.grants + [NewGrant(0, 0)] == [NewGrant(0, 0)];
  }

  lemma Approval()
    ensures Apply(ASKED, DecideNetwork(OWNER, 0, 1, 1, Approved, 86400, 0)) == Ok(READY)
  {
    hide ValidDestination;
    PlaceIsValid();
    assert LiveGrants(ASKED.net.grants, 0) == {};
    assert NewGrant(0, 0).rows + [GrantRow(Approved, PLACE, Some(86400))] == APPROVAL.rows;
    assert ASKED.net.devices[0 := ADMITTED] == [ADMITTED] && ASKED.net.grants[0 := APPROVAL] == [APPROVAL];
  }

  lemma PortalRuns()
    ensures After(5) == START.(db := READY)
  {
    hide Apply, After;
    NothingTaken();
    StepTaken(0);
    StepTaken(1);
    StepTaken(2);
    StepTaken(3);
    StepTaken(4);
    assert Apply(EMPTY, AddUser(Admin)) == Ok(PEOPLED) by { Peopled(); }
    assert Apply(PEOPLED, SaveService(None, OFFER)) == Ok(SERVICED) by { Peopled(); }
    Targeted();
    Asked();
    Approval();
  }

  lemma Peopled()
    ensures Apply(EMPTY, AddUser(Admin)) == Ok(PEOPLED)
    ensures Apply(PEOPLED, SaveService(None, OFFER)) == Ok(SERVICED)
  {
    assert EMPTY.people + [User(Admin, true, 1)] == PEOPLED.people;
    assert PEOPLED.services + [OFFER] == SERVICED.services;
  }

  // ---- the policy ------------------------------------------------------

  /** Whatever the gateway was last heard to have, the policy of these states is the same. */
  lemma PolicyIs(db: Db)
    requires db == READY.(net := READY.net.(status := db.net.status))
    ensures db.Current() == POLICY
  {
    var t := db.Joined();
    assert Selected(t, APPROVAL, 0);
    assert RulesOf(t, 0, 0, 1) == RulesOf(t, 0, 0, 0) + [RuleOf(0, APPROVAL)];
    assert RuleOf(0, APPROVAL) == RULE;
    assert |t.net.grants| == 1 && RulesOf(t, 0, 0, |t.net.grants|) == [RULE];
    assert PeersOf(t, 0, 1) == PeersOf(t, 0, 0) + [PeerOf(0, ADMITTED, [RULE])];
    assert PeersOf(t, 0, 1) == PEERS;
  }

  lemma PolicyIsValid()
    ensures ValidSnapshot(POLICY)
  {
    hide Apply, Portal.Inv, SnapshotOf, ValidSnapshot;
    PortalRuns();
    System.RunKeeps(STEPS[..5]);
    PolicyIs(READY);
    CurrentIsValid(READY);
  }

  // ---- the gateway and the hand-out ------------------------------------

  lemma ViewsAre()
    ensures ViewOf(LOG[..0]) == View([], None, Missing, Untouched)
    ensures ViewOf(LOG[..1]) == View([], Some(POLICY), Missing, Untouched)
    ensures ViewOf(LOG[..2]) == View([POLICY], None, Missing, Untouched)
    ensures ViewOf(LOG[..3]) == View([POLICY], None, Holding(1, POLICY), Untouched)
    ensures ViewOf(LOG[..4]) == View([POLICY], None, Holding(1, POLICY), Filter.Denied)
    ensures ViewOf(LOG[..5]) == View([POLICY], None, Holding(1, POLICY), Rules(1, POLICY, 0, 0))
    ensures ViewOf(LOG[..6]) == ViewOf(LOG[..5])
    ensures ViewOf(LOG[..7]) == View([POLICY], None, Holding(1, POLICY), Filter.Denied)
  {
    GatewayLog.Step(LOG, 0);
    GatewayLog.Step(LOG, 1);
    GatewayLog.Step(LOG, 2);
    GatewayLog.Step(LOG, 3);
    GatewayLog.Step(LOG, 4);
    GatewayLog.Step(LOG, 5);
    GatewayLog.Step(LOG, 6);
    assert LOG[..0] == [];
  }

  const INSTALLED: State := START.(db := READY, sources := [READY], log := LOG[..6])

  lemma GatewayRuns()
    ensures After(11) == INSTALLED
  {
    hide ViewOf, ValidSnapshot, SnapshotOf, Apply, After;
    PortalRuns();
    PolicyIs(READY);
    PolicyIsValid();
    ViewsAre();
    StepTaken(5);
    StepTaken(6);
    StepTaken(7);
    StepTaken(8);
    StepTaken(9);
    StepTaken(10);
    assert LOG[..0] == [] && LOG[..1] == LOG[..0] + [LOG[0]] && LOG[..2] == LOG[..1] + [LOG[1]];
    assert LOG[..3] == LOG[..2] + [LOG[2]] && LOG[..4] == LOG[..3] + [LOG[3]];
    assert LOG[..5] == LOG[..4] + [LOG[4]] && LOG[..6] == LOG[..5] + [LOG[5]];
    assert [] + [READY] == [READY];
  }

  const BLOCKED: State := INSTALLED.(db := CONFIRMED, checked := {POLICY.revision}, log := LOG)

  lemma BlockedAgain()
    ensures After(14) == BLOCKED
  {
    hide ViewOf, ValidSnapshot, SnapshotOf, ValidKey, After;
    GatewayRuns();
    PolicyIs(READY);
    KeyIsValid();
    StepTaken(11);
    StepTaken(12);
    StepTaken(13);
    assert LOG[..6][5] == Acknowledged(POLICY.revision);
    assert Sent(INSTALLED.log, POLICY.revision);
    assert LOG == LOG[..6] + [LOG[6]];
    assert {} + {POLICY.revision} == {POLICY.revision};
  }

  lemma Releasable()
    ensures Release(CONFIRMED, OWNER, 0).Ok?
    ensures |Release(CONFIRMED, OWNER, 0).value.net.released| == 1
  {
    hide SnapshotOf, ValidKey;
    PolicyIs(CONFIRMED);
    KeyIsValid();
    assert RulesFor(PEERS, 1) == [RULE];
    assert Permits(CONFIRMED, OWNER, RULE);
    assert RULE in Permitted(CONFIRMED, OWNER, [RULE]) by { PermittedExactly(CONFIRMED, OWNER, [RULE], RULE); }
  }

  /** The run ends with one pack handed out while the kernel is deny-all. */
  lemma HandedOutWhileBlocked()
    ensures var s := System.Run(START, STEPS);
      |s.handed| == 1 && s.handed[0].policy == POLICY && ViewOf(s.log).filter == Filter.Denied
    ensures Enabled(After(14), OfPortal(ConsumePack(OWNER, 0)))
  {
    hide ViewOf, SnapshotOf, Release, After;
    BlockedAgain();
    Releasable();
    PolicyIs(CONFIRMED);
    ViewsAre();
    StepTaken(14);
    AllTaken();
    assert LOG[..7] == LOG;
  }
}
