/** Over all transactions: exactly what makes and ends a device, an approval and an access, and
    exactly what the policy holds. */
module Lifetimes {
  import opened Base
  import opened Prefixes
  import opened Policy
  import opened Catalog
  import opened Network
  import opened Snapshots
  import opened Deliveries
  import opened Portal
  import opened Effects
  import Records

  // ---- devices and approvals -------------------------------------------

  /** The operation gives up this device: its own revocation, the disabling of its owner, or its
      replacement by a new one. */
  predicate GivesUp(db: Db, op: Op, id: nat)
    requires id < |db.net.devices|
  {
    match op
    case RevokeDevice(_, revoked, _) => revoked == id
    case SaveMember(user, _, enabled) => db.net.devices[id].user == user && !enabled
    case CreatePack(_, _, _, replace, _, _) => replace.Some? && replace.value.0 == id
    case _ => false
  }

  predicate LiveAt(g: Grant, now: Time) {
    g.state == Approved && g.expires.Some? && g.expires.value > now
  }

  ghost predicate DevicesFollow(db: Db, op: Op, after: Db) {
    && |db.net.devices| <= |after.net.devices|
    && (forall i :: 0 <= i < |db.net.devices| ==>
          (after.net.devices[i].state == DeviceRevoked
           <==> db.net.devices[i].state == DeviceRevoked || GivesUp(db, op, i)))
    && forall i :: |db.net.devices| <= i < |after.net.devices| ==> after.net.devices[i].state == DeviceRequested
  }

  ghost predicate ApprovalsFollow(db: Db, op: Op, after: Db) {
    && |db.net.grants| <= |after.net.grants|
    && (forall i :: 0 <= i < |db.net.grants| && db.net.grants[i].device < |db.net.devices| ==>
          && (LiveAt(after.net.grants[i], after.clock) <==>
              ApprovalStays(db, op, i, after.clock) || Approves(db, op, i))
          && (ApprovalStays(db, op, i, after.clock) ==> after.net.grants[i] == db.net.grants[i]))
    && forall i :: |db.net.grants| <= i < |after.net.grants| ==> after.net.grants[i].state == Pending
  }

  /** The approval stands when the transaction is done: not decided on, its device not given up, and
      its time not come. */
  predicate ApprovalStays(db: Db, op: Op, i: nat, now: Time)
    requires i < |db.net.grants| && db.net.grants[i].device < |db.net.devices|
  {
    LiveAt(db.net.grants[i], now) && !(op.DecideNetwork? && op.id == i) && !GivesUp(db, op, db.net.grants[i].device)
  }

  predicate Approves(db: Db, op: Op, i: nat) {
    op.DecideNetwork? && op.id == i && op.state == Approved && op.until > db.clock
  }

  lemma StillFollows(db: Db, op: Op, after: Db)
    requires after.net.devices == db.net.devices && after.net.grants == db.net.grants
    requires !op.RevokeDevice? && !op.SaveMember? && !op.CreatePack? && !op.DecideNetwork?
    ensures DevicesFollow(db, op, after) && ApprovalsFollow(db, op, after)
  {
  }

  lemma SavedFollows(db: Db, op: Op, after: Db)
    requires op.SaveMember? && op.enabled && after.net == db.net && after.clock == db.clock
    ensures DevicesFollow(db, op, after) && ApprovalsFollow(db, op, after)
  {
  }

  lemma EnrolledFollows(db: Db, op: Op, after: Db)
    requires op.EnrollDevice? && after.net.grants == db.net.grants
    requires |after.net.devices| == |db.net.devices| + 1 && after.net.devices[..|db.net.devices|] == db.net.devices
    requires after.net.devices[|db.net.devices|].state == DeviceRequested
    ensures DevicesFollow(db, op, after) && ApprovalsFollow(db, op, after)
  {
    forall i | 0 <= i < |db.net.devices| ensures after.net.devices[i] == db.net.devices[i] {
      assert after.net.devices[i] == after.net.devices[..|db.net.devices|][i];
    }
  }

  lemma SweptFollows(db: Db, op: Op, after: Db, grants: seq<Grant>)
    requires op.Reconcile? || op.RequestNetwork?
    requires after.clock == db.clock && Swept(db, after.net, grants) && grants <= after.net.grants
    requires forall i :: |grants| <= i < |after.net.grants| ==> after.net.grants[i].state == Pending
    ensures DevicesFollow(db, op, after) && ApprovalsFollow(db, op, after)
  {
  }

  lemma HandedFollows(db: Db, op: Op, after: Db, id: nat)
    requires op.ConsumePack? && after.net.grants == db.net.grants && id < |db.net.devices| == |after.net.devices|
    requires after.net.devices == db.net.devices[id := db.net.devices[id].(delivery := after.net.devices[id].delivery)]
    ensures DevicesFollow(db, op, after) && ApprovalsFollow(db, op, after)
  {
  }

  lemma GoneFollows(db: Db, op: Op, after: Db, kept: Net, gone: set<nat>)
    requires Gone(db.net, kept, gone) && after.clock == db.clock
    requires op.RevokeDevice? || op.SaveMember? || op.CreatePack?
    requires forall i :: 0 <= i < |db.net.devices| ==> (i in gone <==> GivesUp(db, op, i))
    requires kept.devices <= after.net.devices && kept.grants <= after.net.grants
    requires forall i :: |kept.devices| <= i < |after.net.devices| ==> after.net.devices[i].state == DeviceRequested
    requires forall i :: |kept.grants| <= i < |after.net.grants| ==> after.net.grants[i].state == Pending
    ensures DevicesFollow(db, op, after) && ApprovalsFollow(db, op, after)
  {
  }

  lemma DecidedFollows(db: Db, op: Op)
    requires Inv(db) && op.DecideNetwork? && Apply(db, op).Ok?
    ensures DevicesFollow(db, op, Apply(db, op).value) && ApprovalsFollow(db, op, Apply(db, op).value)
  {
    hide Inv, Apply, MayApprove;
    DecisionsExactly(db, op);
    if op.state == Approved {
      AdmissionMeans(db, op);
      NotRevoked(db, db.net.grants[op.id]);
    } else {
      ClosingMeans(db, op);
    }
  }

  lemma NotRevoked(db: Db, g: Grant)
    requires Inv(db) && g in db.net.grants && g.state == Pending
    ensures g.device < |db.net.devices| && db.net.devices[g.device].state != DeviceRevoked
  {
    hide GoodDevice, DistinctDevices, OneOpenEach, GoodPacks, LiveGrants, Balanced, Records.GoodRecords;
    assert GoodGrant(g, db.net);
  }

  lemma RowsFollow(db: Db, op: Op)
    requires Inv(db) && Apply(db, op).Ok?
    ensures DevicesFollow(db, op, Apply(db, op).value) && ApprovalsFollow(db, op, Apply(db, op).value)
  {
    hide Inv, Apply, DevicesFollow, ApprovalsFollow, Gone, Swept, SnapshotOf, LiveGrants, AccessGone, OverdueEnded,
         MayEnrol, LeastFree, RoomWithout, NameFree, AnotherAdministrator, RecordEnded, AccessGiven, PackServiceAllowed;
    var after := Apply(db, op).value;
    match op
    case Reconcile =>
      ReconciliationMeans(db);
      SweptFollows(db, op, after, after.net.grants);
    case RequestNetwork(_, _, _, _) =>
      AskingMeans(db, op);
      SweptLength(db, after.net, after.net.grants[..|db.net.grants|]);
      SweptFollows(db, op, after, after.net.grants[..|db.net.grants|]);
    case EnrollDevice(_, _, _) =>
      EnrolmentMeans(db, op);
      EnrolledFollows(db, op, after);
    case DecideNetwork(_, _, _, _, _, _, _) => DecidedFollows(db, op);
    case RevokeDevice(_, id, _) =>
      RevocationMeans(db, op);
      GoneLengths(db.net, after.net, {id});
      GoneFollows(db, op, after, after.net, {id});
    case SaveMember(user, _, enabled) =>
      MemberMeans(db, op);
      if enabled {
        SavedFollows(db, op, after);
      } else {
        GoneFollows(db, op, after, after.net, set i | 0 <= i < |db.net.devices| && db.net.devices[i].user == user);
      }
    case CreatePack(_, _, _, replace, _, _) =>
      PackMeans(db, op);
      PackFollows(db, op, after);
    case ConsumePack(u, id) =>
      HandOutExactly(db, u, id);
      HandedFollows(db, op, after, id);
    case SaveTarget(_, _, _, _, _, _) =>
      TargetMeans(db, op);
      StillFollows(db, op, after);
    case _ =>
      OthersFollow(db, op);
  }

  lemma SweptLength(db: Db, after: Net, grants: seq<Grant>)
    requires Swept(db, after, grants)
    ensures |grants| == |db.net.grants|
  {
  }

  lemma GoneLengths(net: Net, after: Net, gone: set<nat>)
    requires Gone(net, after, gone)
    ensures |after.devices| == |net.devices| && |after.grants| == |net.grants|
  {
  }

  lemma PackFollows(db: Db, op: Op, after: Db)
    requires op.CreatePack? && PackMade(db, op, after)
    ensures DevicesFollow(db, op, after) && ApprovalsFollow(db, op, after)
  {
    hide DevicesFollow, ApprovalsFollow, Gone, LeastFree;
    var id, m := |db.net.devices|, |db.net.grants|;
    var kept := after.net.(devices := after.net.devices[..id], grants := after.net.grants[..m]);
    GoneFollows(db, op, after, kept, Replaced(op.replace));
  }

  lemma OthersFollow(db: Db, op: Op)
    requires Inv(db) && Apply(db, op).Ok? && (OfAccounts(op) || OfRecords(op))
    ensures DevicesFollow(db, op, Apply(db, op).value) && ApprovalsFollow(db, op, Apply(db, op).value)
  {
    hide Inv, Apply, DevicesFollow, ApprovalsFollow, RecordEnded, AccessGiven;
    if OfAccounts(op) {
      AccountsMean(db, op);
    } else if op.CloseAccess? {
      EndingMeans(db, op);
    } else if op.CompleteFollowup? {
      CompletionMeans(db, op);
    } else {
      GrantMeans(db, op);
    }
    StillFollows(db, op, Apply(db, op).value);
  }

  /** Main theorem. A device is revoked after a transaction if and only if it was before or the
      transaction gives it up, and giving up is for its owner and for administrators. */
  lemma DevicesEndExactly(db: Db, op: Op, id: nat)
    requires Inv(db) && Apply(db, op).Ok? && id < |db.net.devices|
    ensures var after := Apply(db, op).value;
      id < |after.net.devices|
      && (after.net.devices[id].state == DeviceRevoked
          <==> db.net.devices[id].state == DeviceRevoked || GivesUp(db, op, id))
    ensures GivesUp(db, op, id) && op.RevokeDevice? ==> op.u.role == Admin || op.u.id == db.net.devices[id].user
    ensures GivesUp(db, op, id) && op.CreatePack? ==> op.u.id == db.net.devices[id].user
  {
    hide Inv, Apply, PackMade, NameFree, RoomWithout, Gone;
    RowsFollow(db, op);
    if op.RevokeDevice? {
      RevocationMeans(db, op);
    } else if op.CreatePack? {
      PackMeans(db, op);
    }
  }

  /** Main theorem. A live approval outlasts a transaction, and the time it may take, if and only if
      its expiry has not come, its device is not given up and it is not itself revoked, and then it is
      as it was; and one comes to be if and only if an administrator approves it. */
  lemma ApprovalsExactly(db: Db, op: Op, i: nat)
    requires Inv(db) && Apply(db, op).Ok? && i < |db.net.grants|
    ensures db.net.grants[i].device < |db.net.devices|
    ensures var after := Apply(db, op).value;
      i < |after.net.grants|
      && (LiveAt(after.net.grants[i], after.clock) <==> ApprovalStays(db, op, i, after.clock) || Approves(db, op, i))
      && (ApprovalStays(db, op, i, after.clock) ==> after.net.grants[i] == db.net.grants[i])
    ensures op.DecideNetwork? ==> op.u.role == Admin
  {
    hide Inv, Apply, MayApprove;
    RowsFollow(db, op);
    GrantStands(db, i);
    if op.DecideNetwork? {
      DecisionsExactly(db, op);
    }
  }

  /** The transaction neither decides on the grant nor gives up its device. */
  predicate Spares(db: Db, op: Op, i: nat) {
    i < |db.net.grants| && db.net.grants[i].device < |db.net.devices|
    && !(op.DecideNetwork? && op.id == i) && !GivesUp(db, op, db.net.grants[i].device)
  }

  /** So, over any run: an approval whose expiry does not come within it, which is not decided on
      again and whose device is not given up, stays as it is throughout. */
  lemma {:induction false} ApprovalLasts(db: Db, ops: seq<Op>, i: nat)
    requires Inv(db) && i < |db.net.grants| && LiveAt(db.net.grants[i], Run(db, ops).clock)
    requires forall k :: 0 <= k < |ops| ==> Spares(Run(db, ops[..k]), ops[k], i)
    ensures i < |Run(db, ops).net.grants| && Run(db, ops).net.grants[i] == db.net.grants[i]
  {
    hide Inv, Apply, LiveAt, Spares, Lasting, SnapshotOf, ValidSnapshot;
    if ops != [] {
      var n := |ops| - 1;
      var before := Run(db, ops[..n]);
      EveryReachableState(db, ops[..n]);
      forall k | 0 <= k < n ensures Spares(Run(db, ops[..n][..k]), ops[..n][k], i) {
        assert ops[..n][..k] == ops[..k];
      }
      if Apply(before, ops[n]).Ok? {
        ClockRises(before, ops[n]);
        LiveEarlier(db.net.grants[i], before.clock, Run(db, ops).clock);
      }
      ApprovalLasts(db, ops[..n], i);
      if Apply(before, ops[n]).Ok? {
        ApprovalsExactly(before, ops[n], i);
        SparedStays(before, ops[n], i, Run(db, ops).clock);
      }
    }
  }

  lemma LiveEarlier(g: Grant, now: Time, later: Time)
    requires LiveAt(g, later) && now <= later
    ensures LiveAt(g, now)
  {
  }

  lemma SparedStays(db: Db, op: Op, i: nat, now: Time)
    requires Spares(db, op, i) && LiveAt(db.net.grants[i], now)
    ensures ApprovalStays(db, op, i, now)
  {
  }

  lemma GrantStands(db: Db, i: nat)
    requires Inv(db) && i < |db.net.grants|
    ensures db.net.grants[i].device < |db.net.devices|
  {
    hide GoodDevice, DistinctDevices, OneOpenEach, GoodPacks, LiveGrants, Balanced, Records.GoodRecords;
    assert GoodGrant(db.net.grants[i], db.net);
  }

  predicate MayUse(db: Db, user: nat, service: nat, now: Time) {
    user < |db.people| && db.people[user].enabled && Held(db.records, user, service, now)
  }

  /** The operation ends this pair's access. */
  predicate Ends(db: Db, op: Op, user: nat, service: nat) {
    || (op.SaveMember? && op.user == user && !op.enabled)
    || (op.CloseAccess? && op.id < |db.records|
        && db.records[op.id].user == user && db.records[op.id].service == service)
  }

  lemma HeldIsEnabled(db: Db, user: nat, service: nat, now: Time)
    requires Inv(db) && Held(db.records, user, service, now)
    ensures user < |db.people| && db.people[user].enabled
  {
    hide Good;
    var i :| 0 <= i < |db.records| && HeldBy(db.records[i], user, service, now);
    assert Records.GoodRecord(db.records[i], db.people);
  }

  lemma GivenHeld(db: Db, after: seq<Record>, i: nat, op: Op, user: nat, service: nat)
    requires Inv(db) && (op.Fulfil? || op.GrantAccess?)
    requires AccessGiven(db.records, after, i, op.user, op.service, op.expires, db.clock)
    ensures Held(after, user, service, db.clock) <==>
      if (op.user, op.service) == (user, service) then op.expires.None? || op.expires.value > db.clock
      else Held(db.records, user, service, db.clock)
  {
    hide Good, Records.GoodRecord;
    if k :| 0 <= k < |db.records| && k != i && HeldBy(db.records[k], user, service, db.clock) {
      assert HeldBy(after[k], user, service, db.clock);
    }
    if k :| 0 <= k < |after| && k != i && HeldBy(after[k], user, service, db.clock) {
      assert HeldBy(db.records[k], user, service, db.clock);
    }
    assert HeldBy(after[i], op.user, op.service, db.clock) <==> op.expires.None? || op.expires.value > db.clock;
  }

  lemma GoneHeld(records: seq<Record>, after: seq<Record>, gone: nat, user: nat, service: nat, now: Time)
    requires AccessGone(records, after, gone)
    ensures Held(after, user, service, now) <==> user != gone && Held(records, user, service, now)
  {
    if i :| 0 <= i < |records| && HeldBy(records[i], user, service, now) {
      assert user != gone ==> HeldBy(after[i], user, service, now);
    }
    if i :| 0 <= i < |after| && HeldBy(after[i], user, service, now) {
      assert HeldBy(records[i], user, service, now);
    }
  }

  lemma EndedHeld(db: Db, op: Op, user: nat, service: nat)
    requires Inv(db) && op.CloseAccess? && Apply(db, op).Ok?
    ensures Held(Apply(db, op).value.records, user, service, db.clock)
      <==> Held(db.records, user, service, db.clock) && !Ends(db, op, user, service)
  {
    hide Good, Records.GoodRecord, Apply;
    EndingMeans(db, op);
    var after := Apply(db, op).value.records;
    if i :| 0 <= i < |after| && HeldBy(after[i], user, service, db.clock) {
      assert HeldBy(db.records[i], user, service, db.clock);
    }
    if i :| 0 <= i < |db.records| && HeldBy(db.records[i], user, service, db.clock) && i != op.id {
      assert HeldBy(after[i], user, service, db.clock);
    }
  }

  lemma CompletedHeld(db: Db, op: Op, user: nat, service: nat)
    requires op.CompleteFollowup? && Apply(db, op).Ok?
    ensures Held(Apply(db, op).value.records, user, service, db.clock) <==> Held(db.records, user, service, db.clock)
  {
    hide Apply;
    CompletionMeans(db, op);
    var after := Apply(db, op).value.records;
    if i :| 0 <= i < |after| && HeldBy(after[i], user, service, db.clock) {
      assert HeldBy(db.records[i], user, service, db.clock);
    }
    if i :| 0 <= i < |db.records| && HeldBy(db.records[i], user, service, db.clock) {
      assert HeldBy(after[i], user, service, db.clock);
    }
  }

  lemma HeldAfter(db: Db, op: Op, user: nat, service: nat)
    requires Inv(db) && Apply(db, op).Ok?
    ensures var after := Apply(db, op).value;
      Held(after.records, user, service, after.clock) <==>
      if Grants(op) == Some((user, service)) then op.expires.None? || op.expires.value > db.clock
      else Held(db.records, user, service, after.clock) && !Ends(db, op, user, service)
  {
    hide Inv, Apply, Held, Gone, Swept, SnapshotOf, AccessGone, OverdueEnded, RecordEnded, AccessGiven, PackMade,
         MayEnrol, LeastFree, RoomWithout, NameFree, AnotherAdministrator, PackServiceAllowed, MayApprove;
    var after := Apply(db, op).value;
    match op
    case Fulfil(_, _, _) =>
      GrantMeans(db, op);
      var i :| AccessGiven(db.records, after.records, i, op.user, op.service, op.expires, db.clock);
      GivenHeld(db, after.records, i, op, user, service);
    case GrantAccess(_, _, _, _) =>
      GrantMeans(db, op);
      var i :| AccessGiven(db.records, after.records, i, op.user, op.service, op.expires, db.clock);
      GivenHeld(db, after.records, i, op, user, service);
    case CloseAccess(_, _, _) =>
      EndingMeans(db, op);
      EndedHeld(db, op, user, service);
    case CompleteFollowup(_, _) =>
      CompletionMeans(db, op);
      CompletedHeld(db, op, user, service);
    case Reconcile =>
      ReconciliationMeans(db);
    case SaveMember(gone, _, enabled) =>
      MemberMeans(db, op);
      if !enabled {
        GoneHeld(db.records, after.records, gone, user, service, db.clock);
      }
    case _ => RecordsStay(db, op);
  }

  lemma RecordsStay(db: Db, op: Op)
    requires Inv(db) && Apply(db, op).Ok? && (OfAccounts(op) || OfDevices(op) || op.ConsumePack?)
    ensures Apply(db, op).value.records == db.records
  {
    hide Inv, Apply, SnapshotOf;
    if OfAccounts(op) {
      AccountsMean(db, op);
    } else if op.ConsumePack? {
      HandOutExactly(db, op.u, op.id);
    } else {
      DevicesStep(db, op);
    }
  }

  /** Main theorem. A pair has access after a transaction, and the time it may take, if and only if
      the transaction granted it for longer, or the pair had it, its expiry has not come, and the
      transaction neither ended the pair's record nor disabled the member. */
  lemma AccessExactly(db: Db, op: Op, user: nat, service: nat)
    requires Inv(db) && Apply(db, op).Ok?
    ensures var after := Apply(db, op).value;
      MayUse(after, user, service, after.clock) <==>
      if Grants(op) == Some((user, service)) then op.expires.None? || op.expires.value > db.clock
      else MayUse(db, user, service, after.clock) && !Ends(db, op, user, service)
  {
    hide Inv, Apply, Held, Lasting, Records.Stepped;
    HeldAfter(db, op, user, service);
    StepKeeps(db, op);
    var after := Apply(db, op).value;
    if Held(after.records, user, service, after.clock) {
      HeldIsEnabled(after, user, service, after.clock);
    }
    if Held(db.records, user, service, after.clock) {
      HeldIsEnabled(db, user, service, after.clock);
    }
  }

  // ---- the policy ------------------------------------------------------

  /** The grant belongs in the policy of this moment. */
  predicate Belongs(db: Db, g: Grant) {
    && g.state == Approved && g.expires.Some? && g.expires.value > db.clock
    && g.target < |db.net.targets| && db.net.targets[g.target].enabled
    && db.net.targets[g.target].service < |db.services|
    && var s := db.services[db.net.targets[g.target].service]; s.published && !s.archived
  }

  /** The rule is this grant's, in its peer: the device's key and address, the grant's route, and
      its expiry in nanoseconds. */
  predicate RuleFor(db: Db, i: nat, p: Peer, r: Rule) {
    && i < |db.net.grants|
    && var g := db.net.grants[i];
       && g.device < |db.net.devices| && g.expires.Some?
       && var d := db.net.devices[g.device];
          && 2 <= d.host <= 254
          && (p.id, p.key, p.address) == (g.device + 1, d.key, Ip4(0x0A4D_0000 + d.host, 32))
          && r == Rule(i + 1, g.place.cidr, g.place.protocol, g.place.ports, Some(g.expires.value * 1_000_000_000))
  }

  ghost predicate Listed(db: Db, i: nat) {
    exists p, r :: p in db.Current().peers && r in p.rules && RuleFor(db, i, p, r)
  }

  /** Main theorem. The policy holds exactly the grants that belong in it: every rule is one's, and
      every one has its rule. */
  lemma PolicyExactly(db: Db)
    requires Inv(db)
    ensures forall p, r :: p in db.Current().peers && r in p.rules ==> exists i :: RuleFor(db, i, p, r)
    ensures forall i :: 0 <= i < |db.net.grants| ==> (Listed(db, i) <==> Belongs(db, db.net.grants[i]))
  {
    hide Inv, SnapshotOf, Belongs, RuleFor;
    forall p, r | p in db.Current().peers && r in p.rules ensures exists i :: RuleFor(db, i, p, r) {
      var i := RuleIsGrants(db, p, r);
    }
    forall i | 0 <= i < |db.net.grants| ensures Listed(db, i) <==> Belongs(db, db.net.grants[i]) {
      if Listed(db, i) {
        var p, r :| p in db.Current().peers && r in p.rules && RuleFor(db, i, p, r);
        var j := RuleIsGrants(db, p, r);
        SameRule(db, i, j, p, r);
      }
      if Belongs(db, db.net.grants[i]) {
        GrantIsListed(db, i);
      }
    }
  }

  lemma SameRule(db: Db, i: nat, j: nat, p: Peer, r: Rule)
    requires RuleFor(db, i, p, r) && RuleFor(db, j, p, r)
    ensures i == j
  {
  }

  lemma RuleIsGrants(db: Db, p: Peer, r: Rule) returns (i: nat)
    requires Inv(db) && p in db.Current().peers && r in p.rules
    ensures RuleFor(db, i, p, r) && Belongs(db, db.net.grants[i])
  {
    hide Inv, RulesOf, PeersOf, Selected;
    var t := db.Joined();
    PeersAreDevices(t, db.clock, |t.net.devices|);
    assert PeerIsDevice(t, db.clock, p);
    RulesOfStand(t, p.id - 1, db.clock, |t.net.grants|);
    assert Stands(t, db.clock, r);
    i := r.id - 1;
    HostInPool(db, p.id - 1);
    SelectedBelongs(db, i);
  }

  lemma HostInPool(db: Db, id: nat)
    requires Inv(db) && id < |db.net.devices|
    ensures 2 <= db.net.devices[id].host <= 254
  {
    hide GoodGrant, DistinctDevices, OneOpenEach, GoodPacks, LiveGrants, Records.GoodRecords, ValidKey;
    assert GoodDevice(db.net.devices[id], db.people);
  }

  lemma SelectedBelongs(db: Db, i: nat)
    requires Inv(db) && i < |db.net.grants|
    ensures Selected(db.Joined(), db.net.grants[i], db.clock) <==> Belongs(db, db.net.grants[i])
  {
    hide Good, Selected, Records.GoodRecords;
    FilterIsPlain(db.Joined(), i, db.clock);
  }

  lemma GrantIsListed(db: Db, i: nat)
    requires Inv(db) && i < |db.net.grants| && Belongs(db, db.net.grants[i])
    ensures Listed(db, i)
  {
    hide Inv, RulesOf, PeersOf, Selected;
    var t, g := db.Joined(), db.net.grants[i];
    SelectedBelongs(db, i);
    SelectedIsKnown(db, i);
    HostInPool(db, g.device);
    SelectedIsThere(t, g.device, db.clock, |t.net.grants|, i);
    var p := PeerOf(g.device, db.net.devices[g.device], RulesOf(t, g.device, db.clock, |t.net.grants|));
    PeerIsThere(t, db.clock, |t.net.devices|, g.device);
    assert RuleFor(db, i, p, RuleOf(i, g));
  }

  lemma SelectedIsKnown(db: Db, i: nat)
    requires i < |db.net.grants| && Selected(db.Joined(), db.net.grants[i], db.clock)
    ensures db.net.grants[i].device < |db.net.devices| && db.net.grants[i].expires.Some?
  {
  }

  lemma {:induction false} PeerIsThere(t: Tables, now: Time, m: nat, id: nat)
    requires id < m <= |t.net.devices| && RulesOf(t, id, now, |t.net.grants|) != []
    ensures PeerOf(id, t.net.devices[id], RulesOf(t, id, now, |t.net.grants|)) in PeersOf(t, now, m)
  {
    hide RulesOf;
    if id < m - 1 {
      PeerIsThere(t, now, m - 1, id);
    }
  }
}
