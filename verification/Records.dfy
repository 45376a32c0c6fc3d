/** Access records: granting, closing, expiry, their history and their follow-ups. */
module Records {
  import opened Base
  import opened Catalog

  function RowOf(r: Record): RecordRow {
    RecordRow(r.state, r.granted, r.expires)
  }

  /** Insert-or-ignore under the unique index on open follow-ups. */
  function WithFollowup(followups: seq<bool>): seq<bool> {
    if true in followups then followups else followups + [true]
  }

  /** A record leaves `active`: one version, one history row, and a follow-up. */
  function CloseRecord(r: Record, state: RecordState): Record {
    r.(state := state, version := r.version + 1, rows := r.rows + [RecordRow(state, r.granted, r.expires)],
       followups := WithFollowup(r.followups))
  }

  function FindRecord(records: seq<Record>, user: nat, service: nat): Option<nat> {
    if records == [] then None
    else
      var last := |records| - 1;
      if records[last].user == user && records[last].service == service then Some(last)
      else FindRecord(records[..last], user, service)
  }

  function NewRecord(user: nat, service: nat, expires: Option<Time>, now: Time): Record {
    Record(user, service, RecordActive, now, expires, 1, [RecordRow(RecordActive, now, expires)], [])
  }

  function Regrant(r: Record, expires: Option<Time>, now: Time): Record {
    r.(state := RecordActive, granted := now, expires := expires, version := r.version + 1,
       rows := r.rows + [RecordRow(RecordActive, now, expires)])
  }

  /** Inserts the pair's record or, on conflict, renews it. */
  function GrantAccess(people: seq<User>, services: seq<Service>, records: seq<Record>, user: nat, service: nat,
                       expires: Option<Time>, now: Time): Result<seq<Record>>
  {
    if !(user < |people|) || !people[user].enabled then Rejected
    else if !(service < |services|) || !services[service].published || services[service].archived then Rejected
    else
      match FindRecord(records, user, service)
      case None => Ok(records + [NewRecord(user, service, expires, now)])
      case Some(i) => if i < |records| then Ok(records[i := Regrant(records[i], expires, now)]) else Rejected
  }

  /** The administrator's grant form carries the version it was shown, zero for no record. */
  function GrantForm(people: seq<User>, services: seq<Service>, records: seq<Record>, user: nat, service: nat,
                     version: nat, expires: Option<Time>, now: Time): Result<seq<Record>>
  {
    var found := FindRecord(records, user, service);
    var current := if found.Some? && found.value < |records| then records[found.value].version else 0;
    if current != version then Rejected else GrantAccess(people, services, records, user, service, expires, now)
  }

  function CloseForm(records: seq<Record>, id: nat, version: nat, state: RecordState): Result<seq<Record>> {
    if !(id < |records|) || records[id].version != version
       || records[id].state != RecordActive || state == RecordActive then Rejected
    else Ok(records[id := CloseRecord(records[id], state)])
  }

  predicate Overdue(r: Record, now: Time) {
    r.state == RecordActive && r.expires.Some? && r.expires.value <= now
  }

  function ExpireRecords(records: seq<Record>, now: Time): seq<Record> {
    seq(|records|, i requires 0 <= i < |records| =>
      if Overdue(records[i], now) then CloseRecord(records[i], RecordExpired) else records[i])
  }

  /** The access half of disabling a member. */
  function RevokeRecords(records: seq<Record>, user: nat): seq<Record> {
    seq(|records|, i requires 0 <= i < |records| =>
      if records[i].user == user && records[i].state == RecordActive
      then CloseRecord(records[i], RecordRevoked) else records[i])
  }

  function CompleteFollowup(records: seq<Record>, id: nat, k: nat): Result<seq<Record>> {
    if !(id < |records| && k < |records[id].followups| && records[id].followups[k]) then Rejected
    else Ok(records[id := records[id].(followups := records[id].followups[k := false])])
  }

  // ---- the invariant ---------------------------------------------------

  ghost predicate OneOpenAtMost(followups: seq<bool>) {
    forall i, j :: 0 <= i < j < |followups| ==> !(followups[i] && followups[j])
  }

  /** The ledger: as many history rows as versions, the last one the record as it is. */
  ghost predicate GoodRecord(r: Record, people: seq<User>) {
    && |r.rows| == r.version && r.version >= 1 && r.rows[r.version - 1] == RowOf(r)
    && OneOpenAtMost(r.followups)
    && r.user < |people| && (!people[r.user].enabled ==> r.state != RecordActive)
  }

  ghost predicate OneRecordEach(records: seq<Record>) {
    forall i, j :: 0 <= i < j < |records| ==>
      records[i].user != records[j].user || records[i].service != records[j].service
  }

  ghost predicate GoodRecords(records: seq<Record>, people: seq<User>) {
    (forall i :: 0 <= i < |records| ==> GoodRecord(records[i], people)) && OneRecordEach(records)
  }

  /** How one record may change in a step: not at all, by losing a follow-up, by leaving `active`
      with a follow-up open, or by being granted. Only the last can bring access back. */
  datatype Change = Same | Settled | Left | Granted

  ghost predicate Changed(r: Record, s: Record, how: Change) {
    && s.user == r.user && s.service == r.service
    && match how
       case Same => s == r
       case Settled => s == r.(followups := s.followups)
       case Left =>
         && r.state == RecordActive && s.state != RecordActive && true in s.followups
         && s.version == r.version + 1 && s.rows == r.rows + [RowOf(s)]
       case Granted => s.state == RecordActive && s.version == r.version + 1 && s.rows == r.rows + [RowOf(s)]
  }

  /** Records are never deleted and change only in these ways; those granted belong to the pair. */
  ghost predicate Stepped(records: seq<Record>, after: seq<Record>, granted: Option<(nat, nat)>) {
    && |records| <= |after|
    && (forall i :: 0 <= i < |records| ==>
          || Changed(records[i], after[i], Same) || Changed(records[i], after[i], Settled)
          || Changed(records[i], after[i], Left)
          || (granted == Some((records[i].user, records[i].service)) && Changed(records[i], after[i], Granted)))
    && (forall i :: |records| <= i < |after| ==> granted == Some((after[i].user, after[i].service)))
  }

  lemma {:induction false} FindRecordFinds(records: seq<Record>, user: nat, service: nat)
    ensures var f := FindRecord(records, user, service);
      && (f.Some? ==> f.value < |records| && records[f.value].user == user && records[f.value].service == service)
      && (f.None? ==> forall i :: 0 <= i < |records| ==> records[i].user != user || records[i].service != service)
  {
    if records != [] {
      FindRecordFinds(records[..|records| - 1], user, service);
    }
  }

  /** A sweep closes some active records and leaves the others alone. */
  lemma SweepRecords(records: seq<Record>, after: seq<Record>, people: seq<User>, state: RecordState)
    requires GoodRecords(records, people) && |after| == |records| && state != RecordActive
    requires forall i :: 0 <= i < |records| ==>
      after[i] == records[i] || (records[i].state == RecordActive && after[i] == CloseRecord(records[i], state))
    ensures GoodRecords(after, people) && Stepped(records, after, None)
  {
    hide GoodRecord, CloseRecord, Changed;
    forall i | 0 <= i < |records|
      ensures GoodRecord(after[i], people) && after[i].user == records[i].user && after[i].service == records[i].service
      ensures Changed(records[i], after[i], Same) || Changed(records[i], after[i], Left)
    {
      assert GoodRecord(records[i], people);
      SweepOne(records[i], after[i], people, state);
    }
  }

  lemma SweepOne(r: Record, s: Record, people: seq<User>, state: RecordState)
    requires GoodRecord(r, people) && state != RecordActive
    requires s == r || (r.state == RecordActive && s == CloseRecord(r, state))
    ensures GoodRecord(s, people) && s.user == r.user && s.service == r.service
    ensures Changed(r, s, Same) || Changed(r, s, Left)
  {
  }

  lemma GrantAccessKeeps(people: seq<User>, services: seq<Service>, records: seq<Record>, user: nat, service: nat,
                         expires: Option<Time>, now: Time)
    requires GoodRecords(records, people)
    requires GrantAccess(people, services, records, user, service, expires, now).Ok?
    ensures var after := GrantAccess(people, services, records, user, service, expires, now).value;
      GoodRecords(after, people) && Stepped(records, after, Some((user, service)))
  {
    hide GoodRecords, Stepped;
    FindRecordFinds(records, user, service);
    var found := FindRecord(records, user, service);
    if found.None? {
      InsertKeeps(people, records, user, service, expires, now);
    } else {
      RegrantKeeps(people, records, found.value, expires, now);
    }
  }

  lemma InsertKeeps(people: seq<User>, records: seq<Record>, user: nat, service: nat, expires: Option<Time>, now: Time)
    requires GoodRecords(records, people) && user < |people| && people[user].enabled
    requires forall i :: 0 <= i < |records| ==> records[i].user != user || records[i].service != service
    ensures var after := records + [NewRecord(user, service, expires, now)];
      GoodRecords(after, people) && Stepped(records, after, Some((user, service)))
  {
    var after := records + [NewRecord(user, service, expires, now)];
    assert forall i :: 0 <= i < |records| ==> after[i] == records[i];
  }

  lemma RegrantKeeps(people: seq<User>, records: seq<Record>, id: nat, expires: Option<Time>, now: Time)
    requires GoodRecords(records, people) && id < |records|
    requires records[id].user < |people| && people[records[id].user].enabled
    ensures var after := records[id := Regrant(records[id], expires, now)];
      GoodRecords(after, people) && Stepped(records, after, Some((records[id].user, records[id].service)))
  {
    assert GoodRecord(records[id], people);
    assert Changed(records[id], Regrant(records[id], expires, now), Granted);
  }

  lemma ExpireRecordsKeeps(records: seq<Record>, people: seq<User>, now: Time)
    requires GoodRecords(records, people)
    ensures GoodRecords(ExpireRecords(records, now), people)
    ensures Stepped(records, ExpireRecords(records, now), None)
  {
    SweepRecords(records, ExpireRecords(records, now), people, RecordExpired);
  }

  lemma CloseFormKeeps(records: seq<Record>, people: seq<User>, id: nat, version: nat, state: RecordState)
    requires GoodRecords(records, people) && CloseForm(records, id, version, state).Ok?
    ensures GoodRecords(CloseForm(records, id, version, state).value, people)
    ensures Stepped(records, CloseForm(records, id, version, state).value, None)
  {
    SweepRecords(records, CloseForm(records, id, version, state).value, people, state);
  }

  lemma CompleteFollowupKeeps(records: seq<Record>, people: seq<User>, id: nat, k: nat)
    requires GoodRecords(records, people) && CompleteFollowup(records, id, k).Ok?
    ensures GoodRecords(CompleteFollowup(records, id, k).value, people)
    ensures Stepped(records, CompleteFollowup(records, id, k).value, None)
  {
  }

  /** Disabling keeps the invariant of the accounts it leaves: no active record is the member's. */
  lemma RevokeRecordsKeeps(records: seq<Record>, people: seq<User>, after: seq<User>, user: nat)
    requires GoodRecords(records, people) && user < |people| && |after| == |people|
    requires forall i :: 0 <= i < |people| && i != user ==> after[i] == people[i]
    ensures GoodRecords(RevokeRecords(records, user), after)
    ensures Stepped(records, RevokeRecords(records, user), None)
  {
    SweepRecords(records, RevokeRecords(records, user), people, RecordRevoked);
  }

  /** The reconciliation loop: the overdue records are collected first and closed one by one. */
  method Reconcile(records: seq<Record>, now: Time) returns (after: seq<Record>)
    ensures after == ExpireRecords(records, now)
  {
    var ids: seq<nat> := [];
    for i := 0 to |records|
      invariant forall k :: 0 <= k < |ids| ==> ids[k] < i && Overdue(records[ids[k]], now)
      invariant forall j, k :: 0 <= j < k < |ids| ==> ids[j] < ids[k]
      invariant forall j :: 0 <= j < i && Overdue(records[j], now) ==> j in ids
    {
      if Overdue(records[i], now) {
        ids := ids + [i];
      }
    }
    after := records;
    for k := 0 to |ids|
      invariant |after| == |records|
      invariant forall i :: 0 <= i < |records| ==>
        after[i] == if i in ids[..k] then CloseRecord(records[i], RecordExpired) else records[i]
    {
      assert ids[k] !in ids[..k];
      assert ids[..k + 1] == ids[..k] + [ids[k]];
      after := after[ids[k] := CloseRecord(after[ids[k]], RecordExpired)];
    }
    assert ids[..|ids|] == ids;
  }

  /** The upsert, and the history row copied from the record it leaves. */
  method Upsert(people: seq<User>, services: seq<Service>, records: seq<Record>, user: nat, service: nat,
               expires: Option<Time>, now: Time) returns (r: Result<seq<Record>>)
    ensures r == GrantAccess(people, services, records, user, service, expires, now)
  {
    if !(user < |people|) || !people[user].enabled {
      return Rejected;
    }
    if !(service < |services|) || !services[service].published || services[service].archived {
      return Rejected;
    }
    FindRecordFinds(records, user, service);
    var found := FindRecord(records, user, service);
    var after := records;
    var id := |records|;
    if found.None? {
      after := records + [Record(user, service, RecordActive, now, expires, 1, [], [])];
    } else {
      id := found.value;
      after := records[id := records[id].(state := RecordActive, granted := now, expires := expires,
                                          version := records[id].version + 1)];
    }
    after := after[id := after[id].(rows := after[id].rows + [RowOf(after[id])])];
    assert found.None? ==> after[id] == NewRecord(user, service, expires, now);
    assert after == if found.None? then records + [NewRecord(user, service, expires, now)]
                    else records[id := Regrant(records[id], expires, now)];
    r := Ok(after);
  }

  /** Access rises only by a grant: if a pair is covered after a step, at a later or equal time,
      and was not before, the step granted that very pair. */
  lemma CoverRisesByGrant(records: seq<Record>, after: seq<Record>, granted: Option<(nat, nat)>, user: nat,
                          service: nat, now: Time, later: Time)
    requires Stepped(records, after, granted) && now <= later
    requires !Covered(records, user, Some(service), now) && Covered(after, user, Some(service), later)
    ensures granted == Some((user, service))
  {
  }

  /** A record that leaves `active` has exactly one open follow-up at that moment. */
  lemma LeavingIsFollowed(records: seq<Record>, after: seq<Record>, people: seq<User>,
                          granted: Option<(nat, nat)>, i: nat)
    requires Stepped(records, after, granted) && GoodRecords(after, people)
    requires i < |records| && records[i].state == RecordActive && after[i].state != RecordActive
    ensures exists k :: OnlyOpen(after[i].followups, k)
  {
    assert GoodRecord(after[i], people);
    var k :| 0 <= k < |after[i].followups| && after[i].followups[k];
    assert OnlyOpen(after[i].followups, k);
  }

  predicate OnlyOpen(followups: seq<bool>, k: int) {
    0 <= k < |followups| && forall j :: 0 <= j < |followups| ==> (followups[j] <==> j == k)
  }
}
