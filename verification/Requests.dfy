/** Service requests: optimistic updates whose reads and commits interleave. */
module Requests {
  import opened Base
  import opened Catalog
  import opened Records

  datatype Kind = Access | Support

  datatype State =
    | Pending | NeedsInformation | SetupPending | Fulfilled | Denied
    | Opened | WaitingForMember | Resolved
    | Cancelled

  /** One row of the transition log. */
  datatype Move = Move(from: Option<State>, to: State)

  datatype Request = Request(user: nat, service: nat, kind: Kind, state: State, version: int, log: seq<Move>)

  /** The tables a request transaction reads or writes. */
  datatype Desk = Desk(people: seq<User>, services: seq<Service>, records: seq<Record>, requests: seq<Request>)

  predicate ActiveState(kind: Kind, state: State) {
    if kind == Access then state == Pending || state == NeedsInformation || state == SetupPending
    else state == Opened || state == WaitingForMember
  }

  function Actions(kind: Kind, state: State, admin: bool): seq<State> {
    if !ActiveState(kind, state) then []
    else if !admin then [Cancelled]
    else if kind == Support then
      if state == Opened then [WaitingForMember, Resolved, Cancelled] else [Opened, Resolved, Cancelled]
    else
      match state
      case Pending => [NeedsInformation, SetupPending, Denied, Cancelled]
      case NeedsInformation => [Pending, SetupPending, Denied, Cancelled]
      case SetupPending => [NeedsInformation, Fulfilled, Denied, Cancelled]
      case _ => []
  }

  function FirstState(kind: Kind): State {
    if kind == Access then Pending else Opened
  }

  predicate HoldsIndex(r: Request) {
    r.kind == Access && ActiveState(Access, r.state)
  }

  /** The partial unique index on active access requests. */
  predicate Indexed(requests: seq<Request>) {
    forall i, j :: 0 <= i < j < |requests| && HoldsIndex(requests[i]) && HoldsIndex(requests[j]) ==>
      requests[i].user != requests[j].user || requests[i].service != requests[j].service
  }

  predicate Sees(u: Actor, r: Request) {
    u.role == Admin || r.user == u.id
  }

  // ---- commits ---------------------------------------------------------

  /** `visible` and `needed` are what the handler found before its transaction began: the member
      could discover the service, and for an access request that it takes requests and that the
      member had no access. */
  function SubmitCommit(d: Desk, u: Actor, visible: bool, needed: bool, service: nat, kind: Kind): Result<Desk> {
    if !u.enabled || !visible || (kind == Access && !needed) then Rejected
    else if !(service < |d.services|) || !d.services[service].published || d.services[service].archived then Rejected
    else if !(u.id < |d.people|) then Rejected
    else
      var state := FirstState(kind);
      var requests := d.requests + [Request(u.id, service, kind, state, 1, [Move(None, state)])];
      if Indexed(requests) then Ok(d.(requests := requests)) else Rejected
  }

  /** `r` is the request as the handler read it, `version` what the form carried. */
  function TransitionCommit(d: Desk, u: Actor, id: nat, r: Request, version: int, target: State,
                            expires: Option<Time>, now: Time): Result<Desk>
  {
    if !Sees(u, r) || target !in Actions(r.kind, r.state, u.role == Admin) then Rejected
    else if !(id < |d.requests|) || d.requests[id].version != version || d.requests[id].state != r.state then Rejected
    else
      var moved := d.requests[id].(state := target, version := version + 1,
                                   log := d.requests[id].log + [Move(Some(r.state), target)]);
      var requests := d.requests[id := moved];
      if !Indexed(requests) then Rejected
      else if target != Fulfilled then Ok(d.(requests := requests))
      else
        match GrantAccess(d.people, d.services, d.records, r.user, r.service, expires, now)
        case Rejected => Rejected
        case Ok(records) => Ok(d.(requests := requests, records := records))
  }

  /** Where a member's reply sends a request that was waiting for it. */
  function Answered(state: State): Option<State> {
    if state == NeedsInformation then Some(Pending)
    else if state == WaitingForMember then Some(Opened)
    else None
  }

  function ReplyCommit(d: Desk, u: Actor, id: nat, r: Request, version: int, private: bool): Result<Desk> {
    if !Sees(u, r) || (private && u.role != Admin) || (!private && !ActiveState(r.kind, r.state)) then Rejected
    else if !(id < |d.requests|) || d.requests[id].version != version then Rejected
    else
      var noted := d.requests[id].(version := version + 1);
      var target := Answered(r.state);
      if private || u.role == Admin || target.None? then Ok(d.(requests := d.requests[id := noted]))
      else
        var moved := noted.(state := target.value, log := noted.log + [Move(Some(r.state), target.value)]);
        var requests := d.requests[id := moved];
        if Indexed(requests) then Ok(d.(requests := requests)) else Rejected
  }

  // ---- interleaved runs ------------------------------------------------

  /** `seen` is the moment, counted in commits, at which the handler read the request it acts on.
      `Elsewhere` is any commit of another component. */
  datatype Op =
    | Submit(u: Actor, visible: bool, needed: bool, service: nat, kind: Kind)
    | Transition(u: Actor, id: nat, seen: nat, version: int, target: State, expires: Option<Time>, now: Time)
    | Reply(u: Actor, id: nat, seen: nat, version: int, private: bool)
    | Elsewhere(people: seq<User>, services: seq<Service>, records: seq<Record>)

  predicate Reads(history: seq<Desk>, op: Op) {
    (op.Transition? || op.Reply?) ==> op.seen < |history| && op.id < |history[op.seen].requests|
  }

  function Commit(history: seq<Desk>, op: Op): Result<Desk>
    requires |history| > 0
  {
    var d := history[|history| - 1];
    if !Reads(history, op) then Rejected
    else
      match op
      case Submit(u, visible, needed, service, kind) => SubmitCommit(d, u, visible, needed, service, kind)
      case Transition(u, id, seen, version, target, expires, now) =>
        TransitionCommit(d, u, id, history[seen].requests[id], version, target, expires, now)
      case Reply(u, id, seen, version, private) =>
        ReplyCommit(d, u, id, history[seen].requests[id], version, private)
      case Elsewhere(people, services, records) => Ok(Desk(people, services, records, d.requests))
  }

  /** The tables after one more commit or rollback. */
  function Perform(history: seq<Desk>, op: Op): Desk
    requires |history| > 0
  {
    var c := Commit(history, op);
    if c.Ok? then c.value else history[|history| - 1]
  }

  function Run(d: Desk, ops: seq<Op>): (history: seq<Desk>)
    ensures |history| == |ops| + 1
  {
    if ops == [] then [d]
    else
      var before := Run(d, ops[..|ops| - 1]);
      before + [Perform(before, ops[|ops| - 1])]
  }

  /** The same operation reading and committing with nothing in between. */
  function Atomic(d: Desk, op: Op): Desk {
    Perform([d], if op.Transition? || op.Reply? then op.(seen := 0) else op)
  }

  /** A reply carries the version it was shown, or an older one. */
  predicate Honest(history: seq<Desk>, op: Op) {
    op.Reply? && !op.private && Reads(history, op) ==> op.version <= history[op.seen].requests[op.id].version
  }

  predicate AllHonest(d: Desk, ops: seq<Op>) {
    forall k :: 0 <= k < |ops| ==> Honest(Run(d, ops)[..k + 1], ops[k])
  }

  // ---- what every commit keeps, honest or not --------------------------

  /** Rows are never deleted; a row keeps its owner, service and kind, its version never falls, and
      while the version stays so does the row. */
  ghost predicate Evolved(a: Desk, b: Desk) {
    && |a.requests| <= |b.requests|
    && forall i :: 0 <= i < |a.requests| ==>
         var r, s := a.requests[i], b.requests[i];
         && r.user == s.user && r.service == s.service && r.kind == s.kind
         && r.version <= s.version && (r.version == s.version ==> r == s)
  }

  ghost predicate Chronicle(history: seq<Desk>) {
    forall i, j :: 0 <= i <= j < |history| ==> Evolved(history[i], history[j])
  }

  lemma PerformEvolves(history: seq<Desk>, op: Op)
    requires |history| > 0
    ensures Evolved(history[|history| - 1], Perform(history, op))
  {
  }

  lemma ChronicleGrows(history: seq<Desk>, d: Desk)
    requires |history| > 0 && Chronicle(history) && Evolved(history[|history| - 1], d)
    ensures Chronicle(history + [d])
  {
  }

  lemma {:induction false} RunIsChronicle(d: Desk, ops: seq<Op>)
    ensures Chronicle(Run(d, ops))
  {
    if ops != [] {
      var before := Run(d, ops[..|ops| - 1]);
      RunIsChronicle(d, ops[..|ops| - 1]);
      PerformEvolves(before, ops[|ops| - 1]);
      ChronicleGrows(before, Perform(before, ops[|ops| - 1]));
    }
  }

  lemma {:induction false} RunPrefix(d: Desk, ops: seq<Op>, k: nat)
    requires k <= |ops|
    ensures Run(d, ops)[..k + 1] == Run(d, ops[..k])
  {
    var n := |ops|;
    if k < n {
      RunPrefix(d, ops[..n - 1], k);
      assert ops[..n - 1][..k] == ops[..k];
    } else {
      assert ops[..k] == ops;
    }
  }

  // ---- atomicity -------------------------------------------------------

  lemma ReplyIsAtomic(history: seq<Desk>, op: Op)
    requires |history| > 0 && Chronicle(history) && op.Reply? && Honest(history, op)
    ensures var d := history[|history| - 1];
      Perform(history, op) == d || Perform(history, op) == Atomic(d, op)
  {
  }

  lemma StepIsAtomic(history: seq<Desk>, op: Op)
    requires |history| > 0 && Chronicle(history) && Honest(history, op)
    ensures var d := history[|history| - 1];
      Perform(history, op) == d || Perform(history, op) == Atomic(d, op)
  {
  }

  /** Main theorem. However reads and commits interleave, every commit of an honest run changes the
      tables exactly as the same operation would have done without interruption. */
  lemma RunsAreSerial(d: Desk, ops: seq<Op>, k: nat)
    requires k < |ops| && AllHonest(d, ops)
    ensures var history := Run(d, ops);
      history[k + 1] == history[k] || history[k + 1] == Atomic(history[k], ops[k])
  {
    hide Perform, Atomic, Honest, Run;
    RunPrefix(d, ops, k);
    RunPrefix(d, ops, k + 1);
    RunIsChronicle(d, ops[..k]);
    StepIsAtomic(Run(d, ops[..k]), ops[k]);
    RunNext(d, ops, k);
  }

  lemma RunNext(d: Desk, ops: seq<Op>, k: nat)
    requires k < |ops|
    ensures Run(d, ops)[k + 1] == Perform(Run(d, ops[..k]), ops[k])
    ensures Run(d, ops)[k] == Run(d, ops[..k])[k]
  {
    RunPrefix(d, ops, k);
    RunPrefix(d, ops, k + 1);
    assert ops[..k + 1][..k] == ops[..k];
    assert Run(d, ops)[k + 1] == Run(d, ops[..k + 1])[k + 1];
  }

  // ---- the transition log ----------------------------------------------

  ghost predicate Traced(r: Request) {
    && |r.log| > 0 && r.log[0] == Move(None, FirstState(r.kind)) && r.log[|r.log| - 1].to == r.state
    && forall k :: 1 <= k < |r.log| ==>
         r.log[k].from == Some(r.log[k - 1].to) && r.log[k].to in Actions(r.kind, r.log[k - 1].to, true)
  }

  /** Every log is a path of allowed moves from the first state to the current one, and no member
      has two active access requests for a service. */
  ghost predicate GoodRequests(requests: seq<Request>) {
    (forall i :: 0 <= i < |requests| ==> Traced(requests[i])) && Indexed(requests)
  }

  lemma Continues(r: Request, target: State, version: int, admin: bool)
    requires Traced(r) && target in Actions(r.kind, r.state, admin)
    ensures Traced(r.(state := target, version := version, log := r.log + [Move(Some(r.state), target)]))
  {
  }

  lemma AnswerIsAllowed(r: Request)
    requires ActiveState(r.kind, r.state) && Answered(r.state).Some?
    ensures Answered(r.state).value in Actions(r.kind, r.state, true)
  {
  }

  lemma ReindexedTheSame(requests: seq<Request>, id: nat, r: Request)
    requires id < |requests| && Indexed(requests)
    requires r.user == requests[id].user && r.service == requests[id].service
    requires r.kind == requests[id].kind && (HoldsIndex(r) ==> HoldsIndex(requests[id]))
    ensures Indexed(requests[id := r])
  {
  }

  lemma TransitionKeeps(d: Desk, op: Op)
    requires GoodRequests(d.requests) && op.Transition?
    ensures GoodRequests(Atomic(d, op).requests)
  {
    hide GrantAccess, Actions, Traced;
    if Atomic(d, op) != d {
      Continues(d.requests[op.id], op.target, op.version + 1, op.u.role == Admin);
    }
  }

  lemma ReplyKeeps(d: Desk, op: Op)
    requires GoodRequests(d.requests) && op.Reply?
    ensures GoodRequests(Atomic(d, op).requests)
  {
    hide Actions, Traced, Indexed, Answered;
    if Atomic(d, op) != d {
      var r := d.requests[op.id];
      var noted := r.(version := op.version + 1);
      ReindexedTheSame(d.requests, op.id, noted);
      assert Traced(noted) by { NotedIsTraced(r, op.version + 1); }
      if !op.private && Answered(r.state).Some? {
        AnswerIsAllowed(r);
        Continues(r, Answered(r.state).value, op.version + 1, true);
      }
    }
  }

  lemma NotedIsTraced(r: Request, version: int)
    requires Traced(r)
    ensures Traced(r.(version := version))
  {
  }

  lemma AtomicKeeps(d: Desk, op: Op)
    requires GoodRequests(d.requests)
    ensures GoodRequests(Atomic(d, op).requests)
  {
    match op
    case Transition(_, _, _, _, _, _, _) => TransitionKeeps(d, op);
    case Reply(_, _, _, _, _) => ReplyKeeps(d, op);
    case Elsewhere(_, _, _) =>
    case Submit(u, _, _, service, kind) =>
      assert Traced(Request(u.id, service, kind, FirstState(kind), 1, [Move(None, FirstState(kind))]));
  }

  /** Every desk of an honest run has connected logs and unique active requests. */
  lemma {:induction false} RunKeeps(d: Desk, ops: seq<Op>, k: nat)
    requires k <= |ops| && AllHonest(d, ops) && GoodRequests(d.requests)
    ensures GoodRequests(Run(d, ops)[k].requests)
  {
    hide GoodRequests, Atomic, Honest;
    if k > 0 {
      RunKeeps(d, ops, k - 1);
      RunsAreSerial(d, ops, k - 1);
      AtomicKeeps(Run(d, ops)[k - 1], ops[k - 1]);
    } else {
      RunPrefix(d, ops, 0);
    }
  }

  lemma PerformIndexed(history: seq<Desk>, op: Op)
    requires |history| > 0 && Indexed(history[|history| - 1].requests)
    ensures Indexed(Perform(history, op).requests)
  {
    hide Indexed, GrantAccess, Actions;
    if op.Reply? && Commit(history, op).Ok? {
      var d := history[|history| - 1];
      ReindexedTheSame(d.requests, op.id, d.requests[op.id].(version := op.version + 1));
    }
  }

  /** In every run, honest or not, a member has at most one active access request for a service. */
  lemma {:induction false} OneActiveAlways(d: Desk, ops: seq<Op>, k: nat)
    requires k <= |ops| && Indexed(d.requests)
    ensures Indexed(Run(d, ops)[k].requests)
  {
    hide Indexed, Perform, Run;
    if k > 0 {
      OneActiveAlways(d, ops, k - 1);
      RunNext(d, ops, k - 1);
      PerformIndexed(Run(d, ops[..k - 1]), ops[k - 1]);
    } else {
      FirstDesk(d, ops);
    }
  }

  lemma FirstDesk(d: Desk, ops: seq<Op>)
    ensures Run(d, ops)[0] == d
  {
    RunPrefix(d, ops, 0);
  }

  lemma AtomicLeavesClosed(d: Desk, op: Op, id: nat)
    requires id < |d.requests| && !ActiveState(d.requests[id].kind, d.requests[id].state)
    ensures id < |Atomic(d, op).requests|
    ensures var r, s := d.requests[id], Atomic(d, op).requests[id];
      s.kind == r.kind && s.state == r.state && s.log == r.log
  {
  }

  /** A closed request stays closed, in the state it was closed in. */
  lemma {:induction false} ClosedStaysClosed(d: Desk, ops: seq<Op>, j: nat, k: nat, id: nat)
    requires j <= k <= |ops| && AllHonest(d, ops)
    requires id < |Run(d, ops)[j].requests|
    requires var r := Run(d, ops)[j].requests[id]; !ActiveState(r.kind, r.state)
    ensures id < |Run(d, ops)[k].requests|
    ensures var r, s := Run(d, ops)[j].requests[id], Run(d, ops)[k].requests[id];
      s.kind == r.kind && s.state == r.state && s.log == r.log
  {
    hide Atomic, Honest, ActiveState, Run;
    if j < k {
      ClosedStaysClosed(d, ops, j, k - 1, id);
      RunsAreSerial(d, ops, k - 1);
      AtomicLeavesClosed(Run(d, ops)[k - 1], ops[k - 1], id);
    }
  }

  /** In an honest run a closed request takes no public reply: nothing at all changes. */
  lemma ClosedTakesNoReply(d: Desk, ops: seq<Op>, k: nat)
    requires k < |ops| && AllHonest(d, ops) && ops[k].Reply? && !ops[k].private
    requires ops[k].id < |Run(d, ops)[k].requests|
    requires var r := Run(d, ops)[k].requests[ops[k].id]; !ActiveState(r.kind, r.state)
    ensures Run(d, ops)[k + 1] == Run(d, ops)[k]
  {
    hide Run, Honest;
    RunsAreSerial(d, ops, k);
  }

  /** The states the schema's check constraint allows for each kind. */
  predicate FitsKind(kind: Kind, state: State) {
    if kind == Access then state in {Pending, NeedsInformation, SetupPending, Fulfilled, Denied, Cancelled}
    else state in {Opened, WaitingForMember, Resolved, Cancelled}
  }

  /** A logged request is always in a state of its kind, it was never moved on from a closed state,
      and one that is fulfilled was set up just before. */
  lemma {:induction false} LogsMakeSense(r: Request, k: nat)
    requires Traced(r) && k < |r.log|
    ensures FitsKind(r.kind, r.log[k].to)
    ensures k + 1 < |r.log| ==> ActiveState(r.kind, r.log[k].to)
    ensures r.log[k].to == Fulfilled ==> k > 0 && r.kind == Access && r.log[k - 1].to == SetupPending
  {
    if k > 0 {
      LogsMakeSense(r, k - 1);
      assert r.log[k].to in Actions(r.kind, r.log[k - 1].to, true);
    }
    if k + 1 < |r.log| {
      assert r.log[k + 1].to in Actions(r.kind, r.log[k].to, true);
    }
  }

  // ---- exactly when a reply is atomic ----------------------------------

  const SYSTEM: Actor := Actor(0, Admin, true, 0)

  /** An administrator cancels the request and then adds `n` private notes. */
  function CancelAndNote(id: nat, version: int, n: nat): seq<Op> {
    if n == 0 then [Transition(SYSTEM, id, 0, version, Cancelled, None, 0)]
    else CancelAndNote(id, version, n - 1) + [Reply(SYSTEM, id, 0, version + n, true)]
  }

  /** The desk after the request was cancelled and `n` notes were added. */
  function CancelledDesk(d: Desk, id: nat, n: nat): Desk
    requires id < |d.requests|
  {
    var r := d.requests[id];
    d.(requests := d.requests[id := r.(state := Cancelled, version := r.version + 1 + n,
                                       log := r.log + [Move(Some(r.state), Cancelled)])])
  }

  lemma {:induction false} CancelledMeanwhile(d: Desk, id: nat, n: nat)
    requires id < |d.requests| && ActiveState(d.requests[id].kind, d.requests[id].state) && Indexed(d.requests)
    ensures var history := Run(d, CancelAndNote(id, d.requests[id].version, n));
      history[0] == d && history[|history| - 1] == CancelledDesk(d, id, n)
  {
    var version := d.requests[id].version;
    var ops := CancelAndNote(id, version, n);
    if n == 0 {
      CancelledFirst(d, id);
      assert ops[..0] == [];
      assert Run(d, ops) == [d, Perform([d], ops[0])];
    } else {
      var before := CancelAndNote(id, version, n - 1);
      CancelledMeanwhile(d, id, n - 1);
      assert ops[..|ops| - 1] == before && ops[|ops| - 1] == Reply(SYSTEM, id, 0, version + n, true);
      hide Indexed, Run, Perform, CancelledDesk, CancelAndNote;
      RunLast(d, ops);
      NotedNext(d, Run(d, before), id, n - 1);
    }
  }

  lemma CancelledFirst(d: Desk, id: nat)
    requires id < |d.requests| && ActiveState(d.requests[id].kind, d.requests[id].state) && Indexed(d.requests)
    ensures var op := Transition(SYSTEM, id, 0, d.requests[id].version, Cancelled, None, 0);
      Perform([d], op) == CancelledDesk(d, id, 0)
  {
    ReindexedTheSame(d.requests, id, CancelledDesk(d, id, 0).requests[id]);
    hide Indexed;
  }

  lemma NotedNext(d: Desk, history: seq<Desk>, id: nat, n: nat)
    requires id < |d.requests| && |history| > 0 && history[0] == d
    requires history[|history| - 1] == CancelledDesk(d, id, n)
    ensures Perform(history, Reply(SYSTEM, id, 0, d.requests[id].version + n + 1, true)) == CancelledDesk(d, id, n + 1)
  {
    hide Indexed;
  }

  lemma RunLast(d: Desk, ops: seq<Op>)
    requires ops != []
    ensures Run(d, ops) == Run(d, ops[..|ops| - 1]) + [Perform(Run(d, ops[..|ops| - 1]), ops[|ops| - 1])]
  {
  }

  /** Nothing between the reply's read and its commit can make it act on a stale request. */
  ghost predicate AlwaysAtomic(d: Desk, reply: Op) {
    forall ops: seq<Op> :: AtomicAfter(d, ops, reply)
  }

  ghost predicate AtomicAfter(d: Desk, ops: seq<Op>, reply: Op) {
    var history := Run(d, ops);
    var last := history[|history| - 1];
    Perform(history, reply) == last || Perform(history, reply) == Atomic(last, reply)
  }

  /** A reply that passed the checks made when it read the request is atomic under every
      interleaving if and only if the version it carries is not ahead of the one it read: given a
      later version it can act on a request closed in between, and reopen it. */
  lemma ReplyAtomicExactly(d: Desk, u: Actor, id: nat, version: int)
    requires id < |d.requests| && Indexed(d.requests)
    requires Sees(u, d.requests[id]) && ActiveState(d.requests[id].kind, d.requests[id].state)
    ensures AlwaysAtomic(d, Reply(u, id, 0, version, false)) <==> version <= d.requests[id].version
  {
    var reply := Reply(u, id, 0, version, false);
    if version <= d.requests[id].version {
      forall ops: seq<Op> ensures AtomicAfter(d, ops, reply) {
        RunIsChronicle(d, ops);
        RunPrefix(d, ops, 0);
        ReplyIsAtomic(Run(d, ops), reply);
      }
    } else {
      AheadActsOnClosed(d, u, id, version);
      assert !AtomicAfter(d, CancelAndNote(id, d.requests[id].version, version - d.requests[id].version - 1), reply);
    }
  }

  lemma AheadActsOnClosed(d: Desk, u: Actor, id: nat, version: int)
    requires id < |d.requests| && Indexed(d.requests) && version > d.requests[id].version
    requires Sees(u, d.requests[id]) && ActiveState(d.requests[id].kind, d.requests[id].state)
    ensures var ops := CancelAndNote(id, d.requests[id].version, version - d.requests[id].version - 1);
      !AtomicAfter(d, ops, Reply(u, id, 0, version, false))
  {
    hide Indexed, Run, CancelAndNote;
    var r := d.requests[id];
    var n := version - r.version - 1;
    var history := Run(d, CancelAndNote(id, r.version, n));
    CancelledMeanwhile(d, id, n);
    var last := history[|history| - 1];
    StaleReplyCommits(d, last, u, id, version);
    assert Perform(history, Reply(u, id, 0, version, false)).requests[id].version == version + 1;
    assert Atomic(last, Reply(u, id, 0, version, false)) == last;
  }

  lemma StaleReplyCommits(d: Desk, last: Desk, u: Actor, id: nat, version: int)
    requires id < |d.requests| && Indexed(d.requests)
    requires Sees(u, d.requests[id]) && ActiveState(d.requests[id].kind, d.requests[id].state)
    requires id < |last.requests| && last.requests == d.requests[id := last.requests[id]]
    requires last.requests[id] == d.requests[id].(state := Cancelled, version := version, log := last.requests[id].log)
    ensures ReplyCommit(last, u, id, d.requests[id], version, false).Ok?
    ensures ReplyCommit(last, u, id, d.requests[id], version, false).value.requests[id].version == version + 1
  {
  }

  const ASKED: Request :=
    Request(7, 0, Access, NeedsInformation, 2, [Move(None, Pending), Move(Some(Pending), NeedsInformation)])
  const CANCEL: Op := Transition(SYSTEM, 0, 0, 2, Cancelled, None, 0)
  const LATE_REPLY: Op := Reply(Actor(7, Member, true, 1), 0, 0, 3, false)

  /** A concrete run: a member reads a request that needs information at version 2, it is then
      cancelled, and the reply, carrying version 3, reopens it behind a broken log. */
  lemma ReopenedByReply()
    ensures GoodRequests([ASKED])
    ensures var history := Run(Desk([], [], [], [ASKED]), [CANCEL, LATE_REPLY]);
      && |history[1].requests| == |history[2].requests| == 1
      && history[1].requests[0].state == Cancelled
      && history[2].requests[0].state == Pending && !Traced(history[2].requests[0])
  {
    var d := Desk([], [], [], [ASKED]);
    var ops := [CANCEL, LATE_REPLY];
    assert ops[..1] == [CANCEL] && ops[..1][..0] == [];
    assert Run(d, [CANCEL]) == [d, Perform([d], CANCEL)];
    var closed := Perform([d], CANCEL);
    assert closed.requests == [ASKED.(state := Cancelled, version := 3,
                                        log := ASKED.log + [Move(Some(NeedsInformation), Cancelled)])];
    RunLast(d, ops);
    var reopened := Perform([d, closed], LATE_REPLY);
    assert Run(d, ops) == [d, closed] + [reopened];
    assert reopened.requests[0].log == closed.requests[0].log + [Move(Some(NeedsInformation), Pending)];
    var log := reopened.requests[0].log;
    assert log[2] == Move(Some(NeedsInformation), Cancelled) && log[3] == Move(Some(NeedsInformation), Pending);
  }

  // ---- the transactions as they run ------------------------------------

  lemma IndexIgnoresLogs(a: seq<Request>, b: seq<Request>)
    requires |a| == |b|
    requires forall i :: 0 <= i < |a| ==> b[i] == a[i].(log := b[i].log)
    ensures Indexed(a) == Indexed(b)
  {
  }

  class RequestStore {
    var desk: Desk
    var accepting: bool   // whether the database will accept the next commit

    constructor (desk: Desk, accepting: bool)
      ensures this.desk == desk && this.accepting == accepting
    {
      this.desk, this.accepting := desk, accepting;
    }

    /** Refused exactly where the model refuses; otherwise it commits what the model says, or
        changes nothing when the database does not accept the commit. */
    ghost predicate Settled(before: Desk, r: Result<Desk>, o: Commitment)
      reads this
    {
      && o == (if r.Rejected? then Refused else if accepting then Committed else RolledBack)
      && desk == (if o == Committed then r.value else before)
    }

    method Commit(tx: Desk) returns (o: Commitment)
      modifies this`desk
      ensures o == (if accepting then Committed else RolledBack) && desk == (if accepting then tx else old(desk))
    {
      o := RolledBack;
      if accepting {
        desk := tx;
        o := Committed;
      }
    }

    method SubmitOne(u: Actor, visible: bool, needed: bool, service: nat, kind: Kind) returns (o: Commitment)
      modifies this`desk
      ensures Settled(old(desk), SubmitCommit(old(desk), u, visible, needed, service, kind), o)
    {
      hide Indexed;
      if !u.enabled || !visible || (kind == Access && !needed) {
        return Refused;
      }
      var state := Pending;
      if kind == Support {
        state := Opened;
      }
      if !(service < |desk.services|) || !desk.services[service].published || desk.services[service].archived
        || !(u.id < |desk.people|) {
        return Refused;
      }
      var id := |desk.requests|;
      var inserted := desk.requests + [Request(u.id, service, kind, state, 1, [])];
      var logged := inserted[id := inserted[id].(log := [Move(None, state)])];
      IndexIgnoresLogs(inserted, logged);
      assert logged == desk.requests + [Request(u.id, service, kind, state, 1, [Move(None, state)])];
      if !Indexed(inserted) {
        return Refused;
      }
      o := Commit(desk.(requests := logged));
    }

    /** `r` was read before the transaction began. */
    method TransitionOne(u: Actor, id: nat, r: Request, version: int, target: State, expires: Option<Time>, now: Time)
      returns (o: Commitment)
      modifies this`desk
      ensures Settled(old(desk), TransitionCommit(old(desk), u, id, r, version, target, expires, now), o)
    {
      hide Indexed, GrantAccess, Actions;
      if !Sees(u, r) || target !in Actions(r.kind, r.state, u.role == Admin) {
        return Refused;
      }
      if !(id < |desk.requests| && desk.requests[id].version == version && desk.requests[id].state == r.state) {
        return Refused;
      }
      var updated := desk.requests[id := desk.requests[id].(state := target, version := version + 1)];
      var logged := updated[id := updated[id].(log := updated[id].log + [Move(Some(r.state), target)])];
      IndexIgnoresLogs(updated, logged);
      assert logged == desk.requests[id := logged[id]];
      if !Indexed(updated) {
        return Refused;
      }
      var tx := desk.(requests := logged);
      if target == Fulfilled {
        var granted := Upsert(tx.people, tx.services, tx.records, r.user, r.service, expires, now);
        if granted.Rejected? {
          return Refused;
        }
        tx := tx.(records := granted.value);
      }
      o := Commit(tx);
    }

    /** `r` was read before the transaction began. */
    method ReplyOne(u: Actor, id: nat, r: Request, version: int, private: bool) returns (o: Commitment)
      modifies this`desk
      ensures Settled(old(desk), ReplyCommit(old(desk), u, id, r, version, private), o)
    {
      hide Indexed;
      if !Sees(u, r) || (private && u.role != Admin) || (!private && !ActiveState(r.kind, r.state)) {
        return Refused;
      }
      if !(id < |desk.requests| && desk.requests[id].version == version) {
        return Refused;
      }
      var requests := desk.requests[id := desk.requests[id].(version := version + 1)];
      if !private && u.role != Admin {
        var target := None;
        if r.state == NeedsInformation {
          target := Some(Pending);
        }
        if r.state == WaitingForMember {
          target := Some(Opened);
        }
        if target.Some? {
          var updated := requests[id := requests[id].(state := target.value)];
          requests := updated[id := updated[id].(log := updated[id].log + [Move(Some(r.state), target.value)])];
          IndexIgnoresLogs(updated, requests);
          assert requests == desk.requests[id := requests[id]];
          if !Indexed(updated) {
            return Refused;
          }
        }
      }
      o := Commit(desk.(requests := requests));
    }
  }
}
