/** Who may open a request, reply to it and move it, with the moves written out, and who moved it
    over whole runs. */
module Moves {
  import opened Base
  import opened Catalog
  import opened Requests
  import opened Effects
  import Records

  /** The moves an administrator may make. A member may only cancel. */
  const MOVES: set<(Kind, State, State)> := {
    (Access, Pending, NeedsInformation), (Access, Pending, SetupPending), (Access, Pending, Denied),
    (Access, Pending, Cancelled),
    (Access, NeedsInformation, Pending), (Access, NeedsInformation, SetupPending), (Access, NeedsInformation, Denied),
    (Access, NeedsInformation, Cancelled),
    (Access, SetupPending, NeedsInformation), (Access, SetupPending, Fulfilled), (Access, SetupPending, Denied),
    (Access, SetupPending, Cancelled),
    (Support, Opened, WaitingForMember), (Support, Opened, Resolved), (Support, Opened, Cancelled),
    (Support, WaitingForMember, Opened), (Support, WaitingForMember, Resolved), (Support, WaitingForMember, Cancelled)
  }

  predicate MayMove(u: Actor, r: Request, target: State) {
    if u.role == Admin then (r.kind, r.state, target) in MOVES
    else r.user == u.id && target == Cancelled && (r.kind, r.state, Cancelled) in MOVES
  }

  lemma ActionsExactly(kind: Kind, from: State, admin: bool, to: State)
    ensures to in Actions(kind, from, admin) <==>
      if admin then (kind, from, to) in MOVES else to == Cancelled && (kind, from, Cancelled) in MOVES
  {
  }

  /** The row of the request, moved: one version later, with the move in its log. */
  predicate Moved(r: Request, s: Request, version: int, to: State) {
    s == r.(state := to, version := version + 1, log := r.log + [Move(Some(r.state), to)])
  }

  /** A transition commits exactly when the caller may make the move from the state read, that is
      still the state, the version is the one carried, and, to fulfil, the member can be granted
      access; then the request moves and, to fulfil, its pair gets access. */
  lemma TransitionsExactly(d: Desk, u: Actor, id: nat, r: Request, version: int, target: State,
                           expires: Option<Time>, now: Time)
    requires Indexed(d.requests) && id < |d.requests|
    requires (r.user, r.service, r.kind) == (d.requests[id].user, d.requests[id].service, d.requests[id].kind)
    ensures TransitionCommit(d, u, id, r, version, target, expires, now).Ok? <==>
      && MayMove(u, r, target) && d.requests[id].version == version && d.requests[id].state == r.state
      && (target == Fulfilled ==>
            && r.user < |d.people| && d.people[r.user].enabled
            && r.service < |d.services| && d.services[r.service].published && !d.services[r.service].archived)
    ensures TransitionCommit(d, u, id, r, version, target, expires, now).Ok? ==>
      var after := TransitionCommit(d, u, id, r, version, target, expires, now).value;
      && after == d.(requests := d.requests[id := after.requests[id]], records := after.records)
      && Moved(d.requests[id], after.requests[id], version, target)
      && if target == Fulfilled
         then exists i :: AccessGiven(d.records, after.records, i, r.user, r.service, expires, now)
         else after.records == d.records
  {
    hide Indexed, Actions, AccessGiven;
    ActionsExactly(r.kind, r.state, u.role == Admin, target);
    if MayMove(u, r, target) && d.requests[id].state == r.state {
      var moved := d.requests[id].(state := target, version := version + 1,
                                   log := d.requests[id].log + [Move(Some(r.state), target)]);
      StillIndexed(r, d.requests[id]);
      ReindexedTheSame(d.requests, id, moved);
      GivenByGrant(d.people, d.services, d.records, r.user, r.service, expires, now);
    }
  }

  lemma StillIndexed(r: Request, s: Request)
    requires r.kind == s.kind && r.state == s.state && (exists to :: (r.kind, r.state, to) in MOVES)
    ensures r.kind == Access ==> HoldsIndex(s)
  {
  }

  lemma GivenByGrant(people: seq<User>, services: seq<Service>, records: seq<Record>, user: nat, service: nat,
                     expires: Option<Time>, now: Time)
    ensures Records.GrantAccess(people, services, records, user, service, expires, now).Ok? <==>
      && user < |people| && people[user].enabled
      && service < |services| && services[service].published && !services[service].archived
    ensures var r := Records.GrantAccess(people, services, records, user, service, expires, now);
      r.Ok? ==> exists i :: AccessGiven(records, r.value, i, user, service, expires, now)
  {
    Records.FindRecordFinds(records, user, service);
    var found := Records.FindRecord(records, user, service);
    var r := Records.GrantAccess(people, services, records, user, service, expires, now);
    if r.Ok? {
      assert AccessGiven(records, r.value, if found.Some? then found.value else |records|, user, service, expires, now);
    }
  }

  /** A request is opened exactly for an enabled member who sees the published service and, for
      access, needs it and has no active request for it; it starts a log of its own. */
  lemma OpeningMeans(d: Desk, u: Actor, visible: bool, needed: bool, service: nat, kind: Kind)
    requires Indexed(d.requests)
    ensures SubmitCommit(d, u, visible, needed, service, kind).Ok? <==>
      && u.enabled && visible && u.id < |d.people|
      && service < |d.services| && d.services[service].published && !d.services[service].archived
      && (kind == Access ==>
            && needed
            && forall i :: 0 <= i < |d.requests| ==>
                 var r := d.requests[i];
                 r.user == u.id && r.service == service && r.kind == Access ==>
                   r.state !in {Pending, NeedsInformation, SetupPending})
    ensures var first := if kind == Access then Pending else Opened;
      SubmitCommit(d, u, visible, needed, service, kind).Ok? ==>
        SubmitCommit(d, u, visible, needed, service, kind).value
        == d.(requests := d.requests + [Request(u.id, service, kind, first, 1, [Move(None, first)])])
  {
    var first := FirstState(kind);
    var row := Request(u.id, service, kind, first, 1, [Move(None, first)]);
    var requests := d.requests + [row];
    if i :| 0 <= i < |d.requests| && HoldsIndex(d.requests[i]) && HoldsIndex(row)
            && d.requests[i].user == u.id && d.requests[i].service == service {
      assert requests[i] == d.requests[i] && requests[|d.requests|] == row;
    }
    forall i | 0 <= i < |d.requests|
      ensures HoldsIndex(d.requests[i]) <==>
        d.requests[i].kind == Access && d.requests[i].state in {Pending, NeedsInformation, SetupPending}
    {
    }
  }

  /** Where a public reply of a member sends a request that was waiting for one. */
  function AnsweredTo(state: State): State {
    match state
    case NeedsInformation => Pending
    case WaitingForMember => Opened
    case s => s
  }

  /** A reply commits exactly when the caller may see the request as read, is an administrator if it
      is private, the request as read is open if it is not, and the version is the one carried. It
      adds a version; only a member's public reply moves the request, and only one that waited. */
  lemma ReplyMeans(d: Desk, u: Actor, id: nat, version: int, private: bool)
    requires Indexed(d.requests) && id < |d.requests|
    ensures var r := d.requests[id];
      ReplyCommit(d, u, id, r, version, private).Ok? <==>
      && (u.role == Admin || (!private && r.user == u.id)) && r.version == version
      && (private || (r.kind, r.state, Cancelled) in MOVES)
    ensures var r := d.requests[id];
      ReplyCommit(d, u, id, r, version, private).Ok? ==>
        var after := ReplyCommit(d, u, id, r, version, private).value;
        && after == d.(requests := d.requests[id := after.requests[id]])
        && if private || u.role == Admin || AnsweredTo(r.state) == r.state
           then after.requests[id] == r.(version := version + 1)
           else Moved(r, after.requests[id], version, AnsweredTo(r.state))
  {
    hide Indexed;
    var r := d.requests[id];
    ReindexedTheSame(d.requests, id, r.(version := version + 1));
    if r.state == NeedsInformation || r.state == WaitingForMember {
      ReindexedTheSame(d.requests, id, r.(state := AnsweredTo(r.state), version := version + 1,
                                          log := r.log + [Move(Some(r.state), AnsweredTo(r.state))]));
    }
  }

  // ---- over whole runs -------------------------------------------------

  /** What only administrators decide. */
  const DECIDED: set<State> := {NeedsInformation, SetupPending, Fulfilled, Denied, WaitingForMember, Resolved}

  /** Logs only grow, by one move at most, and a move a decision leads to is an administrator's. */
  lemma LogsGrow(history: seq<Desk>, op: Op, id: nat)
    requires |history| > 0 && id < |Perform(history, op).requests|
    ensures var d, log := history[|history| - 1], Perform(history, op).requests[id].log;
      if id < |d.requests| then
        || log == d.requests[id].log
        || (|log| == |d.requests[id].log| + 1 && d.requests[id].log <= log
            && (log[|log| - 1].to in DECIDED ==>
                  op.Transition? && op.id == id && op.target == log[|log| - 1].to && op.u.role == Admin))
      else |log| == 1 && log[0].to !in DECIDED
  {
    hide Indexed, Records.GrantAccess, Actions;
    if op.Transition? && Commit(history, op).Ok? {
      ActionsExactly(history[op.seen].requests[op.id].kind, history[op.seen].requests[op.id].state,
                     op.u.role == Admin, op.target);
    }
  }

  /** The `k`-th commit made the `m`-th move of the request, and an administrator made it. */
  ghost predicate MovedBy(d: Desk, ops: seq<Op>, k: nat, id: nat, m: nat, to: State)
    requires k < |ops|
  {
    var before, after := Run(d, ops)[k], Run(d, ops)[k + 1];
    && ops[k].Transition? && ops[k].id == id && ops[k].target == to && ops[k].u.role == Admin
    && id < |before.requests| && |before.requests[id].log| == m
    && id < |after.requests| && |after.requests[id].log| == m + 1 && after.requests[id].log[m].to == to
  }

  /** Main theorem. In every run, honest or not, whatever was read when: every logged move to
      needs-information, set-up, fulfilled, denied, waiting or resolved that was made in the run was
      committed by an administrator. */
  lemma {:induction false} DecidedByAdministrators(d: Desk, ops: seq<Op>, n: nat, id: nat, m: nat)
    requires n <= |ops| && id < |Run(d, ops)[n].requests| && m < |Run(d, ops)[n].requests[id].log|
    requires Run(d, ops)[n].requests[id].log[m].to in DECIDED
    requires id >= |d.requests| || m >= |d.requests[id].log|
    ensures exists k :: 0 <= k < n && MovedBy(d, ops, k, id, m, Run(d, ops)[n].requests[id].log[m].to)
    decreases n
  {
    hide Run, Perform, DECIDED;
    if n == 0 {
      FirstDesk(d, ops);
    } else {
      RunNext(d, ops, n - 1);
      RunPrefix(d, ops, n - 1);
      LogsGrow(Run(d, ops[..n - 1]), ops[n - 1], id);
      var before := Run(d, ops)[n - 1];
      if id < |before.requests| && m < |before.requests[id].log| {
        DecidedByAdministrators(d, ops, n - 1, id, m);
      } else {
        assert MovedBy(d, ops, n - 1, id, m, Run(d, ops)[n].requests[id].log[m].to);
      }
    }
  }

  /** So requests give access only by an administrator's hand: a commit of the desk that changes
      access records is an administrator's, who fulfils a request read as set up. */
  lemma GrantedByAdministrators(d: Desk, ops: seq<Op>, k: nat)
    requires k < |ops| && !ops[k].Elsewhere? && Run(d, ops)[k + 1].records != Run(d, ops)[k].records
    ensures ops[k].Transition? && ops[k].target == Fulfilled && ops[k].u.role == Admin
    ensures ops[k].seen <= k && ops[k].id < |Run(d, ops)[ops[k].seen].requests|
    ensures var r := Run(d, ops)[ops[k].seen].requests[ops[k].id]; r.kind == Access && r.state == SetupPending
  {
    hide Run;
    RunNext(d, ops, k);
    RunPrefix(d, ops, k);
    GrantedStep(Run(d, ops[..k]), ops[k]);
    assert Run(d, ops)[..k + 1][ops[k].seen] == Run(d, ops)[ops[k].seen];
  }

  lemma GrantedStep(history: seq<Desk>, op: Op)
    requires |history| > 0 && !op.Elsewhere? && Perform(history, op).records != history[|history| - 1].records
    ensures op.Transition? && op.target == Fulfilled && op.u.role == Admin
    ensures op.seen < |history| && op.id < |history[op.seen].requests|
    ensures var r := history[op.seen].requests[op.id]; r.kind == Access && r.state == SetupPending
  {
    hide Indexed, Records.GrantAccess, Actions;
    if op.Transition? && Commit(history, op).Ok? {
      ActionsExactly(history[op.seen].requests[op.id].kind, history[op.seen].requests[op.id].state,
                     op.u.role == Admin, op.target);
    }
  }
}
