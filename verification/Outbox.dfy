/** The mail outbox: any number of workers, leases, retries and back-off. */
module Outbox {
  import opened Base

  type Time = int

  const LEASE: Time := 120
  const MINUTE: Time := 60

  datatype MailState = Queued | Sending | Sent | Failed | Cancelled

  /** `failures` remembers when the attempts since the last administrator's retry failed. */
  datatype Mail = Mail(state: MailState, attempts: nat, available: Time, lease: Option<nat>, failures: seq<Time>)

  /** A worker holding, or believing to hold, a message it claimed at `at`. */
  datatype Claim = Claim(id: nat, lease: nat, attempts: nat, at: Time)

  /** How an attempt ends: accepted by the server, no longer wanted, undecodable, or refused. */
  datatype Ending = Delivered | Withdrawn | Broken | Bounced

  datatype State = State(clock: Time, rows: seq<Mail>, claims: set<Claim>, issued: nat)

  // ---- transactions ----------------------------------------------------

  predicate Reclaimable(m: Mail, now: Time) {
    m.state == Sending && m.available < now
  }

  function Reclaimed(rows: seq<Mail>, now: Time): seq<Mail> {
    seq(|rows|, i requires 0 <= i < |rows| =>
      if Reclaimable(rows[i], now) then rows[i].(state := Queued, lease := None) else rows[i])
  }

  predicate Due(m: Mail, now: Time) {
    m.state == Queued && m.available <= now
  }

  /** The first message due, from `from` on. */
  function FirstDue(rows: seq<Mail>, now: Time, from: nat): Option<nat>
    requires from <= |rows|
    decreases |rows| - from
  {
    if from == |rows| then None else if Due(rows[from], now) then Some(from) else FirstDue(rows, now, from + 1)
  }

  function Leased(m: Mail, lease: nat, now: Time): Mail {
    m.(state := Sending, lease := Some(lease), available := now + LEASE)
  }

  /** Reclaiming and claiming are one transaction: with nothing to claim, nothing is reclaimed. The
      three statements read the clock one after the other. */
  function Claimed(s: State, n1: Time, n2: Time, n3: Time): Result<(State, Claim)> {
    if !(s.clock <= n1 <= n2 <= n3) then Rejected
    else
      var rows := Reclaimed(s.rows, n1);
      match FirstDue(rows, n2, 0)
      case None => Rejected
      case Some(i) =>
        if !(i < |rows|) then Rejected
        else
          var c := Claim(i, s.issued, rows[i].attempts, n3);
          Ok((State(n3, rows[i := Leased(rows[i], s.issued, n3)], s.claims + {c}, s.issued + 1), c))
  }

  function EndState(e: Ending, attempts: nat): MailState {
    match e
    case Delivered => Sent
    case Withdrawn => Cancelled
    case Broken => Failed
    case Bounced => if attempts >= 4 then Failed else Queued
  }

  /** The update guarded by the worker's lease; its exponent is the number of attempts the worker
      read when it claimed, capped at 8. */
  function Finished(rows: seq<Mail>, c: Claim, e: Ending, now: Time): seq<Mail> {
    if !(c.id < |rows|) || rows[c.id].lease != Some(c.lease) then rows
    else
      var m, to := rows[c.id], EndState(e, c.attempts);
      rows[c.id := m.(state := to, attempts := m.attempts + 1, available := now + Pow2(Min(c.attempts, 8)) * MINUTE,
                      lease := None,
                      failures := if to == Queued || to == Failed then m.failures + [now] else m.failures)]
  }

  function Retried(rows: seq<Mail>, id: nat, now: Time): seq<Mail> {
    if !(id < |rows|) || rows[id].state != Failed then rows
    else rows[id := rows[id].(state := Queued, attempts := 0, available := now, failures := [])]
  }

  datatype Step =
    | Wait(until: Time)
    | Enqueue
    | Take(n1: Time, n2: Time, n3: Time)
    | Finish(c: Claim, e: Ending)
    | Retry(id: nat)

  /** A worker that crashes simply takes no further step. */
  function Next(s: State, step: Step): State {
    match step
    case Wait(until) => if until < s.clock then s else s.(clock := until)
    case Enqueue => s.(rows := s.rows + [Mail(Queued, 0, s.clock, None, [])])
    case Take(n1, n2, n3) =>
      var c := Claimed(s, n1, n2, n3);
      if c.Ok? then c.value.0 else s
    case Finish(c, e) => if c in s.claims then s.(rows := Finished(s.rows, c, e, s.clock)) else s
    case Retry(id) => s.(rows := Retried(s.rows, id, s.clock))
  }

  const START: State := State(0, [], {}, 0)

  function Run(s: State, steps: seq<Step>): State {
    if steps == [] then s else Next(Run(s, steps[..|steps| - 1]), steps[|steps| - 1])
  }

  // ---- the invariant ---------------------------------------------------

  /** The next attempt comes no sooner than the back-off after the last failure. */
  predicate Spaced(failures: seq<Time>) {
    forall k :: 0 < k < |failures| ==> failures[k - 1] + Pow2(k - 1) * MINUTE <= failures[k]
  }

  predicate BackedOff(failures: seq<Time>, t: Time) {
    |failures| > 0 ==> failures[|failures| - 1] + Pow2(|failures| - 1) * MINUTE <= t
  }

  ghost predicate GoodMail(m: Mail, now: Time) {
    && (m.lease.Some? <==> m.state == Sending)
    && (m.state == Queued || m.state == Sending ==> m.attempts <= 4 && BackedOff(m.failures, m.available))
    && (m.state == Sending ==> BackedOff(m.failures, now))
    && m.attempts <= 5
    && |m.failures| == m.attempts - (if m.state == Sent || m.state == Cancelled then 1 else 0)
    && Spaced(m.failures)
  }

  /** What a worker read when it claimed is still so while its lease is there. */
  ghost predicate Honoured(c: Claim, rows: seq<Mail>) {
    && c.attempts <= 4 && c.id < |rows|
    && (rows[c.id].lease == Some(c.lease) ==> rows[c.id].attempts == c.attempts && rows[c.id].available == c.at + LEASE)
  }

  ghost predicate Inv(s: State) {
    && (forall i :: 0 <= i < |s.rows| ==> GoodMail(s.rows[i], s.clock))
    && (forall i :: 0 <= i < |s.rows| && s.rows[i].lease.Some? ==> s.rows[i].lease.value < s.issued)
    && (forall c :: c in s.claims ==> c.lease < s.issued && Honoured(c, s.rows))
  }

  lemma {:induction false} FirstDueIsFirst(rows: seq<Mail>, now: Time, from: nat)
    requires from <= |rows|
    ensures var f := FirstDue(rows, now, from);
      && (f.Some? ==> from <= f.value < |rows| && Due(rows[f.value], now)
                        && forall i :: from <= i < f.value ==> !Due(rows[i], now))
      && (f.None? ==> forall i :: from <= i < |rows| ==> !Due(rows[i], now))
    decreases |rows| - from
  {
    if from < |rows| && !Due(rows[from], now) {
      FirstDueIsFirst(rows, now, from + 1);
    }
  }

  lemma LaterIsGood(m: Mail, now: Time, later: Time)
    requires GoodMail(m, now) && now <= later
    ensures GoodMail(m, later)
  {
  }

  lemma TakeKeeps(s: State, n1: Time, n2: Time, n3: Time)
    requires Inv(s) && Claimed(s, n1, n2, n3).Ok?
    ensures Inv(Claimed(s, n1, n2, n3).value.0)
  {
    hide FirstDue, Spaced, Pow2;
    var rows := Reclaimed(s.rows, n1);
    FirstDueIsFirst(rows, n2, 0);
    var (after, c) := Claimed(s, n1, n2, n3).value;
    forall i | 0 <= i < |rows| ensures GoodMail(after.rows[i], after.clock) {
      assert GoodMail(s.rows[i], s.clock);
      LaterIsGood(s.rows[i], s.clock, n3);
    }
    assert Honoured(c, after.rows);
    forall d | d in s.claims ensures Honoured(d, after.rows) {
      assert Honoured(d, s.rows);
    }
  }

  lemma FinishKeeps(s: State, c: Claim, e: Ending)
    requires Inv(s) && c in s.claims
    ensures Inv(s.(rows := Finished(s.rows, c, e, s.clock)))
  {
  }

  lemma NextKeeps(s: State, step: Step)
    requires Inv(s)
    ensures Inv(Next(s, step))
  {
    hide Claimed, Finished, Pow2;
    match step
    case Wait(until) =>
      forall i | 0 <= i < |s.rows| && s.clock <= until ensures GoodMail(s.rows[i], until) {
        LaterIsGood(s.rows[i], s.clock, until);
      }
    case Take(n1, n2, n3) =>
      if Claimed(s, n1, n2, n3).Ok? {
        TakeKeeps(s, n1, n2, n3);
      }
    case Finish(c, e) =>
      if c in s.claims {
        FinishKeeps(s, c, e);
      }
    case Enqueue =>
    case Retry(_) =>
  }

  lemma {:induction false} RunKeeps(steps: seq<Step>)
    ensures Inv(Run(START, steps))
  {
    hide Next;
    if steps != [] {
      hide Inv;
      RunKeeps(steps[..|steps| - 1]);
      NextKeeps(Run(START, steps[..|steps| - 1]), steps[|steps| - 1]);
    }
  }

  // ---- what it means ---------------------------------------------------

  /** Main theorem. In every state any number of workers can reach: a message has a lease exactly
      while it is being sent; a message waiting or being sent has failed at most four times and any
      message at most five; the failures since an administrator last retried are spaced by doubling
      minutes, and the next attempt waits for the back-off after the last, so the first and the fifth
      are at least 900 seconds apart; and no worker holds a claim on which the cap would bite. */
  lemma LeasesAndRetries(steps: seq<Step>)
    ensures var s := Run(START, steps);
      && (forall i :: 0 <= i < |s.rows| ==>
            var m := s.rows[i];
            && (m.lease.Some? <==> m.state == Sending)
            && m.attempts <= 5 && (m.state == Queued || m.state == Sending ==> m.attempts <= 4)
            && Spaced(m.failures) && (m.state == Queued ==> BackedOff(m.failures, m.available))
            && |m.failures| <= 5 && (|m.failures| == 5 ==> m.failures[4] - m.failures[0] >= 900))
      && (forall c :: c in s.claims ==> Min(c.attempts, 8) == c.attempts)
  {
    RunKeeps(steps);
    var s := Run(START, steps);
    forall i | 0 <= i < |s.rows| && |s.rows[i].failures| == 5
      ensures s.rows[i].failures[4] - s.rows[i].failures[0] >= 900
    {
      assert GoodMail(s.rows[i], s.clock);
      FifthFailure(s.rows[i].failures);
    }
    forall i | 0 <= i < |s.rows| ensures GoodMail(s.rows[i], s.clock) {}
  }

  lemma FifthFailure(failures: seq<Time>)
    requires Spaced(failures) && |failures| == 5
    ensures failures[4] - failures[0] >= 900
  {
    PowersOfTwo();
    assert failures[0] + Pow2(0) * MINUTE <= failures[1];
    assert failures[1] + Pow2(1) * MINUTE <= failures[2];
    assert failures[2] + Pow2(2) * MINUTE <= failures[3];
    assert failures[3] + Pow2(3) * MINUTE <= failures[4];
  }

  /** A message that may be claimed: waiting and due, or being sent under a lease that has run out. */
  predicate Claimable(m: Mail, n1: Time, n2: Time) {
    (m.state == Queued && m.available <= n2) || (m.state == Sending && m.available < n1)
  }

  /** Claiming: exactly when some message may be claimed. The first such is leased for two minutes to
      this worker alone, every other lease that has run out is taken back, and nothing else changes. */
  lemma ClaimingMeans(s: State, n1: Time, n2: Time, n3: Time)
    requires s.clock <= n1 <= n2 <= n3
    ensures Claimed(s, n1, n2, n3).Ok? <==> exists i :: 0 <= i < |s.rows| && Claimable(s.rows[i], n1, n2)
    ensures Claimed(s, n1, n2, n3).Ok? ==>
      var (after, c) := Claimed(s, n1, n2, n3).value;
      && c.id < |s.rows| && |after.rows| == |s.rows| && Claimable(s.rows[c.id], n1, n2)
      && (forall i :: 0 <= i < c.id ==> !Claimable(s.rows[i], n1, n2))
      && c == Claim(c.id, s.issued, s.rows[c.id].attempts, n3)
      && after == State(n3, after.rows, s.claims + {c}, s.issued + 1)
      && after.rows[c.id] == s.rows[c.id].(state := Sending, lease := Some(s.issued), available := n3 + 120)
      && forall i :: 0 <= i < |s.rows| && i != c.id ==>
           after.rows[i] == if s.rows[i].state == Sending && s.rows[i].available < n1
                            then s.rows[i].(state := Queued, lease := None) else s.rows[i]
  {
    hide FirstDue;
    var rows := Reclaimed(s.rows, n1);
    FirstDueIsFirst(rows, n2, 0);
    forall i | 0 <= i < |s.rows| ensures Due(rows[i], n2) <==> Claimable(s.rows[i], n1, n2) {}
  }

  const MINUTES: seq<int> := [1, 2, 4, 8, 16]

  /** How an attempt ends. Under the worker's lease it counts, the lease is over, and the message is
      sent, cancelled or failed as the ending says; refused by the server, it waits for the next
      attempt until the fifth failure since an administrator queued it, which is the last. */
  lemma AttemptMeans(s: State, c: Claim, e: Ending)
    requires Inv(s) && c in s.claims
    ensures var after := Next(s, Finish(c, e));
      if c.id < |s.rows| && s.rows[c.id].lease == Some(c.lease) then
        && |s.rows[c.id].failures| < 5
        && after == s.(rows := s.rows[c.id := after.rows[c.id]])
        && var m, n := s.rows[c.id], after.rows[c.id];
           && n.attempts == m.attempts + 1 && n.lease == None
           && n.available == s.clock + MINUTES[|m.failures|] * 60
           && n.failures == (if e == Bounced || e == Broken then m.failures + [s.clock] else m.failures)
           && n.state == match e
                         case Delivered => Sent
                         case Withdrawn => Cancelled
                         case Broken => Failed
                         case Bounced => if |m.failures| + 1 == 5 then Failed else Queued
      else after == s
  {
    hide Spaced, BackedOff;
    if c.id < |s.rows| && s.rows[c.id].lease == Some(c.lease) {
      assert Honoured(c, s.rows) && GoodMail(s.rows[c.id], s.clock);
      PowersOfTwo();
    }
  }

  lemma PowersOfTwo()
    ensures Pow2(0) == 1 && Pow2(1) == 2 && Pow2(2) == 4 && Pow2(3) == 8 && Pow2(4) == 16
  {
    assert Pow2(2) == 2 * Pow2(1);
    assert Pow2(3) == 2 * Pow2(2);
    assert Pow2(4) == 2 * Pow2(3);
  }

  /** A new message waits and is due; an administrator's retry makes a failed one so, with a fresh
      count, and does nothing to any other. */
  lemma QueueingMeans(s: State, id: nat)
    ensures Next(s, Enqueue) == s.(rows := s.rows + [Mail(Queued, 0, s.clock, None, [])])
    ensures Next(s, Retry(id)) ==
      if id < |s.rows| && s.rows[id].state == Failed
      then s.(rows := s.rows[id := Mail(Queued, 0, s.clock, s.rows[id].lease, [])]) else s
  {
  }

  /** While one worker's lease stands, another can claim the message only after the lease time. */
  lemma LeaseIsExclusive(steps: seq<Step>, held: Claim, n1: Time, n2: Time, n3: Time)
    requires var s := Run(START, steps);
      && held in s.claims && held.id < |s.rows| && s.rows[held.id].lease == Some(held.lease)
      && Claimed(s, n1, n2, n3).Ok? && Claimed(s, n1, n2, n3).value.1.id == held.id
    ensures n1 > held.at + LEASE
  {
    hide Run;
    RunKeeps(steps);
    var s := Run(START, steps);
    FirstDueIsFirst(Reclaimed(s.rows, n1), n2, 0);
    assert Honoured(held, s.rows) && GoodMail(s.rows[held.id], s.clock);
  }

  /** A claim whose lease was taken over is dead for good: however it ends, whenever it ends,
      nothing changes. */
  lemma {:induction false} LostLeaseIsDead(s: State, steps: seq<Step>, c: Claim, e: Ending)
    requires Inv(s) && c in s.claims && c.id < |s.rows| && s.rows[c.id].lease != Some(c.lease)
    ensures var later := Run(s, steps);
      && Inv(later) && c in later.claims && c.id < |later.rows| && later.rows[c.id].lease != Some(c.lease)
      && Next(later, Finish(c, e)) == later
  {
    if steps != [] {
      hide Inv, Next;
      var before := Run(s, steps[..|steps| - 1]);
      LostLeaseIsDead(s, steps[..|steps| - 1], c, e);
      NextKeeps(before, steps[|steps| - 1]);
      LeaseStaysLost(before, steps[|steps| - 1], c);
    }
    DeadFinish(Run(s, steps), c, e);
  }

  lemma LeaseStaysLost(s: State, step: Step, c: Claim)
    requires Inv(s) && c in s.claims && c.id < |s.rows| && s.rows[c.id].lease != Some(c.lease)
    ensures c in Next(s, step).claims && c.id < |Next(s, step).rows|
    ensures Next(s, step).rows[c.id].lease != Some(c.lease)
  {
  }

  lemma DeadFinish(s: State, c: Claim, e: Ending)
    requires c.id < |s.rows| && s.rows[c.id].lease != Some(c.lease)
    ensures Next(s, Finish(c, e)) == s
  {
  }

  /** A message sent or cancelled never changes again. */
  lemma {:induction false} SettledForGood(s: State, steps: seq<Step>, id: nat)
    requires Inv(s) && id < |s.rows| && (s.rows[id].state == Sent || s.rows[id].state == Cancelled)
    ensures Inv(Run(s, steps)) && id < |Run(s, steps).rows| && Run(s, steps).rows[id] == s.rows[id]
  {
    if steps != [] {
      hide Inv, Next;
      var before := Run(s, steps[..|steps| - 1]);
      SettledForGood(s, steps[..|steps| - 1], id);
      NextKeeps(before, steps[|steps| - 1]);
      SettledStep(before, steps[|steps| - 1], id);
    }
  }

  lemma SettledStep(s: State, step: Step, id: nat)
    requires Inv(s) && id < |s.rows| && (s.rows[id].state == Sent || s.rows[id].state == Cancelled)
    ensures id < |Next(s, step).rows| && Next(s, step).rows[id] == s.rows[id]
  {
    hide FirstDue, Pow2, Spaced, BackedOff;
    assert GoodMail(s.rows[id], s.clock);
    if step.Take? {
      FirstDueIsFirst(Reclaimed(s.rows, step.n1), step.n2, 0);
    }
  }

  /** When a claim finds nothing and is rolled back, there was nothing to reclaim: a reclaimed
      message is always due. */
  lemma RollbackLosesNothing(s: State, n1: Time, n2: Time, n3: Time)
    requires s.clock <= n1 <= n2 <= n3 && Claimed(s, n1, n2, n3).Rejected?
    ensures Reclaimed(s.rows, n1) == s.rows
    ensures forall i :: 0 <= i < |s.rows| ==> !Due(s.rows[i], n2) && !Reclaimable(s.rows[i], n1)
  {
    var rows := Reclaimed(s.rows, n1);
    FirstDueIsFirst(rows, n2, 0);
    forall i | 0 <= i < |s.rows| ensures !Due(s.rows[i], n2) && !Reclaimable(s.rows[i], n1) {
      assert !Due(rows[i], n2);
    }
  }

  // ---- the worker ------------------------------------------------------

  class Mailer {
    var state: State
    var accepting: bool   // whether the database will accept the next commit

    constructor (accepting: bool)
      ensures state == START && this.accepting == accepting
    {
      state, this.accepting := START, accepting;
    }

    /** The claiming transaction. */
    method TakeOne(n1: Time, n2: Time, n3: Time) returns (o: Commitment, claim: Option<Claim>)
      requires state.clock <= n1 <= n2 <= n3
      modifies this`state
      ensures var c := Claimed(old(state), n1, n2, n3);
        && o == (if c.Rejected? then Refused else if accepting then Committed else RolledBack)
        && state == (if o == Committed then c.value.0 else old(state))
        && claim == (if o == Committed then Some(c.value.1) else None)
    {
      var lease := state.issued;
      var rows := state.rows;
      for i := 0 to |rows|
        invariant |rows| == |state.rows| && state == old(state)
        invariant rows[..i] == Reclaimed(state.rows, n1)[..i] && rows[i..] == state.rows[i..]
      {
        assert rows[i] == state.rows[i];
        if rows[i].state == Sending && rows[i].available < n1 {
          rows := rows[i := rows[i].(state := Queued, lease := None)];
        }
      }
      assert rows == Reclaimed(state.rows, n1);
      var id := 0;
      while id < |rows| && !(rows[id].state == Queued && rows[id].available <= n2)
        invariant 0 <= id <= |rows| && FirstDue(rows, n2, 0) == FirstDue(rows, n2, id)
      {
        id := id + 1;
      }
      if id == |rows| {
        return Refused, None;
      }
      var c := Claim(id, lease, rows[id].attempts, n3);
      rows := rows[id := rows[id].(state := Sending, lease := Some(lease), available := n3 + LEASE)];
      if !accepting {
        return RolledBack, None;
      }
      state := State(n3, rows, state.claims + {c}, lease + 1);
      return Committed, Some(c);
    }

    /** The guarded update that ends an attempt; whether it took place is not looked at. */
    method FinishOne(c: Claim, e: Ending)
      requires c in state.claims
      modifies this`state
      ensures state == if accepting then Next(old(state), Finish(c, e)) else old(state)
    {
      var to := EndState(e, c.attempts);
      var rows := state.rows;
      if accepting && c.id < |rows| && rows[c.id].lease == Some(c.lease) {
        var m := rows[c.id];
        m := m.(state := to, attempts := m.attempts + 1);
        m := m.(available := state.clock + Pow2(Min(c.attempts, 8)) * MINUTE, lease := None);
        if to == Queued || to == Failed {
          m := m.(failures := m.failures + [state.clock]);
        }
        rows := rows[c.id := m];
      }
      state := state.(rows := rows);
    }

    /** An administrator queues a failed message again. */
    method RetryOne(id: nat)
      modifies this`state
      ensures state == if accepting then Next(old(state), Retry(id)) else old(state)
    {
      if accepting && id < |state.rows| && state.rows[id].state == Failed {
        var m := state.rows[id].(state := Queued, attempts := 0, available := state.clock, failures := []);
        state := state.(rows := state.rows[id := m]);
      }
    }
  }
}
