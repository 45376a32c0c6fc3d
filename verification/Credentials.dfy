/** What each step does to an account, field by field and with the numbers written out, and what
    follows over whole runs: recovery codes are spent, old sessions end, powers are given. */
module Credentials {
  import opened Base
  import opened Accounts

  // ---- when a transaction is refused -----------------------------------

  /** The code is right for a time step not used before, the one of now or one beside it. */
  predicate RightNear(now: nat, last: int, right: int -> bool) {
    exists s | now / 30 - 1 <= s <= now / 30 + 1 :: s > last && right(s)
  }

  lemma StepsExactly(now: nat, last: int, right: int -> bool)
    ensures StepFor(now, last, right).Some? <==> RightNear(now, last, right)
    ensures StepFor(now, last, right).Some? ==>
      var s := StepFor(now, last, right).value;
      now / 30 - 1 <= s <= now / 30 + 1 && s > last && right(s)
  {
    hide StepFor;
    StepForExactly(now, last, right);
  }

  /** Codes and factors: each needs the account enabled and at the generation authenticated. */
  lemma FactorsExactly(rows: seq<Account>, id: nat, generation: nat, key: string, codes: set<string>, secret: Secret,
                       now: nat, right: int -> bool)
    requires id < |rows|
    ensures var a := rows[id];
      var same := a.enabled && a.generation == generation;
      && (Checked(a, generation, now, right).Ok? <==> same && a.totp.Some? && RightNear(now, a.lastStep, right))
      && (Enrolled(a, generation, secret, codes, now, right).Ok? <==> same && RightNear(now, -1, right))
      && (Registered(rows, id, generation, key, codes).Ok? <==>
          same && forall i :: 0 <= i < |rows| ==> key !in rows[i].passkeys)
      && (TotpRemoved(a, generation).Ok? <==> same && a.passkeys != {})
      && (KeyRemoved(a, generation, key).Ok? <==>
          same && key in a.passkeys && (a.totp.Some? || exists other :: other in a.passkeys && other != key))
      && (Recoded(a, generation, codes).Ok? <==> same)
  {
    hide StepFor, RightNear;
    var a := rows[id];
    StepsExactly(now, a.lastStep, right);
    StepsExactly(now, -1, right);
    if key in a.passkeys {
      AnotherKey(a.passkeys, key);
    }
  }

  lemma AnotherKey(keys: set<string>, key: string)
    requires key in keys
    ensures |keys| >= 2 <==> exists other :: other in keys && other != key
  {
    assert keys == (keys - {key}) + {key};
    if other :| other in keys && other != key {
      assert other in keys - {key};
    } else {
      assert keys - {key} == {};
    }
  }

  /** Recovery and links: a code held, another member and the administrator authenticated, an
      outstanding link before its expiry, an administrator's account at the machine itself. */
  lemma RecoveriesExactly(rows: seq<Account>, id: nat, actor: nat, generation: nat, code: string, link: Link, now: nat,
                          resetFactors: bool)
    requires id < |rows| && actor < |rows|
    ensures var a := rows[id];
      && (RecoveryUsed(a, code).Ok? <==> a.enabled && code in a.codes)
      && (FactorsReset(rows, actor, generation, id, link).Ok? <==>
          actor != id && rows[actor].admin && rows[actor].enabled && rows[actor].generation == generation && a.enabled)
      && (LinkIssued(a, link).Ok? <==> a.enabled)
      && (Redeemed(a, link, now).Ok? <==> a.enabled && link in a.links && now < link.expires)
      && (LocallyRecovered(a, resetFactors).Ok? <==> a.admin)
  {
  }

  /** Names: an invitation and the first administrator need a valid name that no account has in any
      case; an invitation is redeemed with its link, before its expiry, while the name is free. */
  lemma NamesExactly(rows: seq<Account>, invites: map<string, Link>, username: string, link: Link, now: nat)
    ensures var free := forall i :: 0 <= i < |rows| ==> !SameName(rows[i].username, username);
      && (Invited(rows, invites, username, link).Ok? <==> ValidName(username) && free)
      && (Joined(rows, invites, username, link, now).Ok? <==>
          username in invites && invites[username] == link && now < link.expires && free)
      && (Bootstrapped(rows, username).Ok? <==>
          ValidName(username) && free && forall i :: 0 <= i < |rows| ==> !(rows[i].admin && rows[i].enabled))
  {
  }

  // ---- what an accepted step changes -----------------------------------

  predicate Accepts(s: State, step: Step) {
    Logins(s, step).Ok? || Factors(s, step).Ok? || Totp(s, step).Ok? || Administration(s, step).Ok?
    || Invitations(s, step).Ok?
  }

  /** The account a step is about. */
  function Subject(step: Step): Option<nat> {
    match step
    case CheckTotp(t, _, _) => Some(t.id)
    case ConfirmTotp(t, _, _, _, _) => Some(t.id)
    case Register(t, _, _) => Some(t.id)
    case RemoveTotp(t) => Some(t.id)
    case RemoveKey(t, _) => Some(t.id)
    case NewCodes(t, _) => Some(t.id)
    case ChangePassword(t) => Some(t.id)
    case Recover(id, _) => Some(id)
    case ResetFactors(_, id, _) => Some(id)
    case IssueLink(id, _) => Some(id)
    case WithdrawLinks(id, _) => Some(id)
    case Redeem(id, _, _) => Some(id)
    case LocalRecovery(id, _) => Some(id)
    case SaveMember(id, _, _) => Some(id)
    case _ => None
  }

  predicate Hits(s: State, step: Step, id: nat) {
    Accepts(s, step) && Subject(step) == Some(id)
  }

  predicate ClearsFactors(step: Step) {
    step.Recover? || step.ResetFactors? || (step.LocalRecovery? && step.resetFactors)
  }

  /** By how much a step about an account raises its generation. */
  function Raises(step: Step): nat {
    match step
    case LocalRecovery(_, resetFactors) => if resetFactors then 2 else 1
    case CheckTotp(_, _, _) => 0
    case IssueLink(_, _) => 0
    case WithdrawLinks(_, _) => 0
    case _ => 1
  }

  /** Name, role, status, generation and lock after a step about the account. */
  ghost predicate StandingAfter(a: Account, b: Account, step: Step) {
    && b.username == a.username
    && b.generation == a.generation + Raises(step)
    && b.admin == (if step.SaveMember? then step.admin else a.admin)
    && b.enabled == (if step.SaveMember? then step.enabled else step.LocalRecovery? || a.enabled)
    && b.locked == (if step.ResetFactors? then true
                    else if step.Redeem? && step.link.factor then false
                    else if step.LocalRecovery? && step.resetFactors then false
                    else a.locked)
  }

  /** Factors and recovery codes after it. */
  ghost predicate FactorsAfter(a: Account, b: Account, step: Step) {
    && b.passkeys == (if ClearsFactors(step) then {}
                      else if step.Register? then a.passkeys + {step.key}
                      else if step.RemoveKey? then a.passkeys - {step.key}
                      else a.passkeys)
    && b.totp == (if ClearsFactors(step) || step.RemoveTotp? then None
                  else if step.ConfirmTotp? then Some(step.setup.secret)
                  else a.totp)
    && b.codes == (if ClearsFactors(step) then {}
                   else if step.ConfirmTotp? || step.NewCodes? || (step.Register? && a.codes == {}) then step.codes
                   else a.codes)
    && (if ClearsFactors(step) || step.RemoveTotp? then b.lastStep == -1
        else if step.CheckTotp? || step.ConfirmTotp? then
          && step.now / 30 - 1 <= b.lastStep <= step.now / 30 + 1 && step.right(b.lastStep)
          && b.lastStep > if step.CheckTotp? then a.lastStep else -1
        else b.lastStep == a.lastStep)
  }

  /** Outstanding links after it; a new one carries the next hash and lasts an hour. */
  ghost predicate LinksAfter(a: Account, b: Account, step: Step, hash: nat) {
    match step
    case Recover(_, _) => b.links == {}
    case ResetFactors(_, _, now) => b.links == {Link(hash, true, now + 3600)}
    case LocalRecovery(_, _) => b.links == {}
    case ChangePassword(_) => b.links == {}
    case SaveMember(_, _, enabled) => b.links == if enabled then a.links else {}
    case IssueLink(_, now) => b.links == (set l | l in a.links && l.factor) + {Link(hash, false, now + 3600)}
    case WithdrawLinks(_, factor) => b.links == set l | l in a.links && l.factor != factor
    case Redeem(_, link, _) => b.links == a.links - {link}
    case _ => b.links == a.links
  }

  ghost predicate AccountAfter(a: Account, b: Account, step: Step, hash: nat) {
    StandingAfter(a, b, step) && FactorsAfter(a, b, step) && LinksAfter(a, b, step, hash)
  }

  lemma FactorsChange(s: State, step: Step, id: nat)
    requires Factors(s, step).Ok? && id < |s.accounts|
    ensures var after := Factors(s, step).value;
      && |after.accounts| == |s.accounts| && Subject(step).Some?
      && (if Subject(step) == Some(id) then AccountAfter(s.accounts[id], after.accounts[id], step, s.issued)
          else after.accounts[id] == s.accounts[id])
  {
    hide KeyTaken;
  }

  lemma TotpChanges(s: State, step: Step, id: nat)
    requires Totp(s, step).Ok? && id < |s.accounts|
    ensures var after := Totp(s, step).value;
      && |after.accounts| == |s.accounts|
      && (if Subject(step) == Some(id) then AccountAfter(s.accounts[id], after.accounts[id], step, s.issued)
          else after.accounts[id] == s.accounts[id])
  {
    hide StepFor, FirstStep;
    match step
    case CheckTotp(t, now, right) => StepsExactly(now, s.accounts[t.id].lastStep, right);
    case ConfirmTotp(t, _, _, now, right) => StepsExactly(now, -1, right);
    case _ =>
  }

  lemma AdministrationChanges(s: State, step: Step, id: nat)
    requires Administration(s, step).Ok? && id < |s.accounts|
    ensures var after := Administration(s, step).value;
      && |after.accounts| == |s.accounts| && Subject(step).Some?
      && (if Subject(step) == Some(id) then AccountAfter(s.accounts[id], after.accounts[id], step, s.issued)
          else after.accounts[id] == s.accounts[id])
  {
    hide StandingAfter, FactorsAfter, LinksAfter, Administration;
    AdministrationFrame(s, step, id);
    if Subject(step) == Some(id) {
      AdministrationStanding(s, step, id);
      AdministrationFactors(s, step, id);
      AdministrationLinks(s, step, id);
    }
  }

  lemma AdministrationFrame(s: State, step: Step, id: nat)
    requires Administration(s, step).Ok? && id < |s.accounts|
    ensures |Administration(s, step).value.accounts| == |s.accounts| && Subject(step).Some?
    ensures Subject(step) != Some(id) ==> Administration(s, step).value.accounts[id] == s.accounts[id]
  {
  }

  lemma AdministrationStanding(s: State, step: Step, id: nat)
    requires Administration(s, step).Ok? && id < |s.accounts| && Subject(step) == Some(id)
    ensures |Administration(s, step).value.accounts| == |s.accounts|
    ensures StandingAfter(s.accounts[id], Administration(s, step).value.accounts[id], step)
  {
    hide Administration, With, WithoutChallenges, Hold;
    AdministrationOutcome(s, step, id);
  }

  /** Which transaction's outcome the account is. */
  lemma AdministrationOutcome(s: State, step: Step, id: nat)
    requires Administration(s, step).Ok? && id < |s.accounts| && Subject(step) == Some(id)
    ensures |Administration(s, step).value.accounts| == |s.accounts|
    ensures var a, b := s.accounts[id], Administration(s, step).value.accounts[id];
      match step
      case Recover(_, code) => RecoveryUsed(a, code) == Ok(b)
      case ResetFactors(t, _, now) =>
        t.id < |s.accounts|
        && FactorsReset(s.accounts, t.id, t.generation, id, Link(s.issued, true, now + HOUR)) == Ok(b)
      case IssueLink(_, now) => LinkIssued(a, Link(s.issued, false, now + HOUR)) == Ok(b)
      case WithdrawLinks(_, factor) => b == Withdrawn(a, factor)
      case Redeem(_, link, now) => Redeemed(a, link, now) == Ok(b)
      case LocalRecovery(_, resetFactors) => LocallyRecovered(a, resetFactors) == Ok(b)
      case SaveMember(_, admin, enabled) => b == Saved(a, admin, enabled)
      case ChangePassword(_) => b == PasswordChanged(a)
      case _ => false
  {
    hide RecoveryUsed, FactorsReset, LinkIssued, Withdrawn, Redeemed, LocallyRecovered, Saved, PasswordChanged;
  }

  lemma AdministrationFactors(s: State, step: Step, id: nat)
    requires Administration(s, step).Ok? && id < |s.accounts| && Subject(step) == Some(id)
    ensures |Administration(s, step).value.accounts| == |s.accounts|
    ensures FactorsAfter(s.accounts[id], Administration(s, step).value.accounts[id], step)
  {
    hide Administration, With, WithoutChallenges, Hold;
    AdministrationOutcome(s, step, id);
  }

  lemma AdministrationLinks(s: State, step: Step, id: nat)
    requires Administration(s, step).Ok? && id < |s.accounts| && Subject(step) == Some(id)
    ensures |Administration(s, step).value.accounts| == |s.accounts|
    ensures LinksAfter(s.accounts[id], Administration(s, step).value.accounts[id], step, s.issued)
  {
    hide Administration, With, WithoutChallenges, Hold;
    AdministrationOutcome(s, step, id);
  }

  /** A new account, of the first administrator or of an invited member. */
  predicate NewMember(b: Account, step: Step) {
    (step.Bootstrap? || step.RedeemInvite?)
    && b == Account(step.username, step.Bootstrap?, true, 1, false, None, -1, {}, {}, {})
  }

  /** Outstanding invitations after it; one lasts two days. */
  predicate InvitesAfter(s: State, invites: map<string, Link>, step: Step) {
    match step
    case IssueInvite(username, now) => invites == s.invites[username := Link(s.issued, false, now + 48 * 3600)]
    case WithdrawInvite(username) => invites == s.invites - {username}
    case RedeemInvite(username, _, _) => invites == s.invites - {username}
    case _ => invites == s.invites
  }

  lemma InvitationsChange(s: State, step: Step)
    requires Invitations(s, step).Ok?
    ensures var after := Invitations(s, step).value;
      && Subject(step).None? && s.accounts <= after.accounts && |after.accounts| <= |s.accounts| + 1
      && (|after.accounts| > |s.accounts| ==> NewMember(after.accounts[|s.accounts|], step))
      && (|after.accounts| > |s.accounts| <==> step.Bootstrap? || step.RedeemInvite?)
      && InvitesAfter(s, after.invites, step)
  {
    hide NameTaken;
  }

  lemma LoginsChangeNone(s: State, step: Step)
    requires Logins(s, step).Ok?
    ensures Logins(s, step).value.accounts == s.accounts && Subject(step).None?
  {
  }

  /** Main theorem. A step that is accepted changes the account it is about exactly so, and no
      other; accounts are never removed, and a new one is the first administrator's or that of a
      member who redeemed an invitation. A step that is refused changes nothing. */
  lemma AccountsExactly(s: State, step: Step, id: nat)
    ensures |s.accounts| <= |Next(s, step).accounts| <= |s.accounts| + 1
    ensures id < |s.accounts| ==>
      if Hits(s, step, id) then AccountAfter(s.accounts[id], Next(s, step).accounts[id], step, s.issued)
      else Next(s, step).accounts[id] == s.accounts[id]
    ensures |Next(s, step).accounts| > |s.accounts| ==> NewMember(Next(s, step).accounts[|s.accounts|], step)
    ensures !Accepts(s, step) ==> Next(s, step) == s
  {
    hide Logins, Factors, Totp, Administration, Invitations, AccountAfter, NewMember;
    if Logins(s, step).Ok? {
      LoginsChangeNone(s, step);
    } else if Factors(s, step).Ok? {
      if id < |s.accounts| {
        FactorsChange(s, step, id);
      }
      FactorsLength(s, step);
    } else if Totp(s, step).Ok? {
      if id < |s.accounts| {
        TotpChanges(s, step, id);
      }
      TotpLength(s, step);
    } else if Administration(s, step).Ok? {
      if id < |s.accounts| {
        AdministrationChanges(s, step, id);
      }
      AdministrationLength(s, step);
    } else if Invitations(s, step).Ok? {
      InvitationsChange(s, step);
    }
  }

  lemma FactorsLength(s: State, step: Step)
    requires Factors(s, step).Ok?
    ensures |Factors(s, step).value.accounts| == |s.accounts|
  {
    hide KeyTaken;
  }

  lemma TotpLength(s: State, step: Step)
    requires Totp(s, step).Ok?
    ensures |Totp(s, step).value.accounts| == |s.accounts|
  {
    hide StepFor;
  }

  lemma AdministrationLength(s: State, step: Step)
    requires Administration(s, step).Ok?
    ensures |Administration(s, step).value.accounts| == |s.accounts|
  {
  }

  /** Clearing an account's factors ends its pending enrolments, and no other. */
  lemma ChallengesEnd(s: State, step: Step, c: Setup)
    requires Accepts(s, step) && ClearsFactors(step)
    ensures c in Next(s, step).setups <==> c in s.setups && (Subject(step) != Some(c.id) || c.taken)
  {
    hide Cleared, RecoveryUsed, FactorsReset, LocallyRecovered;
  }

  // ---- handlers and sessions -------------------------------------------

  /** The account is there, enabled, and at the generation the handler saw. */
  predicate Same(s: State, id: nat, generation: nat) {
    id < |s.accounts| && s.accounts[id].enabled && s.accounts[id].generation == generation
  }

  /** When a step of a login is accepted, and the one handler or session it then adds. */
  lemma LoginsMean(s: State, step: Step)
    ensures match step
      case LoginPassword(id) =>
        if id < |s.accounts| && s.accounts[id].enabled
        then AddsHandler(s, step, PasswordOk(id, s.accounts[id].generation)) else !Accepts(s, step)
      case LoginReread(t) =>
        if t in s.tickets && t.PasswordOk? && Same(s, t.id, t.generation)
        then AddsHandler(s, step, Reread(t.id, t.generation)) else !Accepts(s, step)
      case LoginLock(t) =>
        if t in s.tickets && t.Reread? && t.id < |s.accounts| && !s.accounts[t.id].locked
        then AddsHandler(s, step, NotLocked(t.id, t.generation)) else !Accepts(s, step)
      case LoginTotp(t) =>
        if t in s.tickets && t.NotLocked? && t.id < |s.accounts|
        then AddsHandler(s, step, TotpSeen(t.id, t.generation, s.accounts[t.id].totp != None)) else !Accepts(s, step)
      case LoginKeys(t) =>
        if t in s.tickets && t.TotpSeen? && t.id < |s.accounts|
        then AddsSession(s, step, Waiting(t.id, t.generation, !t.has && s.accounts[t.id].passkeys == {}))
        else !Accepts(s, step)
      case RecoverEnter(t) =>
        if t in s.tickets && t.CodeSpent? && Same(s, t.id, t.generation)
        then AddsSession(s, step, Waiting(t.id, t.generation, true)) else !Accepts(s, step)
      case Enter(x) =>
        if x in s.sessions && Same(s, x.id, x.generation)
        then AddsHandler(s, step, Inside(x.id, x.generation, x)) else !Accepts(s, step)
      case PasskeyUser(id, key) =>
        if id < |s.accounts| then AddsHandler(s, step, KeyFound(id, s.accounts[id].generation, key))
        else !Accepts(s, step)
      case PasskeyFinish(t) =>
        if t in s.tickets && t.KeyFound? && Same(s, t.id, t.generation) && t.key in s.accounts[t.id].passkeys
        then AddsHandler(s, step, Proven(t.id, t.generation)) else !Accepts(s, step)
      case SignIn(t) =>
        if t in s.tickets && t.Proven? && Same(s, t.id, t.generation)
        then AddsSession(s, step, Full(t.id, t.generation)) else !Accepts(s, step)
      case _ => true
  {
  }

  predicate AddsHandler(s: State, step: Step, t: Ticket) {
    Accepts(s, step) && Next(s, step) == s.(tickets := s.tickets + {t})
  }

  predicate AddsSession(s: State, step: Step, x: Session) {
    Accepts(s, step) && Next(s, step) == s.(sessions := s.sessions + {x})
  }

  /** The handler of a session that passed a factor, or of one that may enrol. */
  predicate FromFull(s: State, t: Ticket) {
    t in s.tickets && t.Inside? && t.session.Full? && t.id < |s.accounts|
  }

  predicate FromEnrolling(s: State, t: Ticket) {
    t in s.tickets && t.Inside? && (t.session.Full? || t.session.enroll) && t.id < |s.accounts|
  }

  /** Whose handler may change factors, and that a change makes the one that may sign in with it. */
  lemma ChangesMean(s: State, step: Step)
    requires step.Register? || step.RemoveTotp? || step.RemoveKey? || step.NewCodes?
    ensures Accepts(s, step) <==>
      && (if step.Register? then FromEnrolling(s, step.t) else FromFull(s, step.t))
      && var a, g := s.accounts[step.t.id], step.t.generation;
         match step
         case Register(t, key, codes) => Registered(s.accounts, t.id, g, key, codes).Ok?
         case RemoveTotp(_) => TotpRemoved(a, g).Ok?
         case RemoveKey(_, key) => KeyRemoved(a, g, key).Ok?
         case _ => Recoded(a, g, step.codes).Ok?
    ensures Accepts(s, step) ==>
      Next(s, step) == s.(accounts := Next(s, step).accounts,
                          tickets := s.tickets + {Proven(step.t.id, step.t.generation + 1)})
  {
    hide Registered, TotpRemoved, KeyRemoved, Recoded, With;
    if Factors(s, step).Ok? {
      MutatedMean(s, step);
    }
  }

  lemma MutatedMean(s: State, step: Step)
    requires Factors(s, step).Ok?
    ensures var after := Factors(s, step).value;
      after == s.(accounts := after.accounts, tickets := s.tickets + {Proven(step.t.id, step.t.generation + 1)})
  {
    hide KeyTaken;
  }

  /** TOTP: a secret is offered and taken by a handler that may enrol, confirmed once by a right code,
      and checked for any session but one waiting to enrol; an accepted code is remembered. */
  lemma TotpMeans(s: State, step: Step)
    ensures match step
      case StartTotp(t) =>
        if t in s.tickets && t.Inside? && (t.session.Full? || t.session.enroll) then
          Accepts(s, step) && Next(s, step) == s.(setups := s.setups + {Setup(s.issued, t.id, t.generation, false)},
                                                  issued := s.issued + 1)
        else !Accepts(s, step)
      case TakeTotp(t, c) =>
        if t in s.tickets && t.Inside? && (t.session.Full? || t.session.enroll)
           && c in s.setups && !c.taken && (c.id, c.generation) == (t.id, t.generation) then
          Accepts(s, step)
          && Next(s, step) == s.(setups := s.setups - {c} + {Setup(c.secret, c.id, c.generation, true)})
        else !Accepts(s, step)
      case ConfirmTotp(t, c, codes, now, right) =>
        if FromEnrolling(s, t) && c in s.setups && c.taken && c.id == t.id
           && Enrolled(s.accounts[t.id], t.generation, c.secret, codes, now, right).Ok? then
          Accepts(s, step) && t.id < |Next(s, step).accounts|
          && Next(s, step) == s.(accounts := Next(s, step).accounts, setups := s.setups - {c},
                                 tickets := s.tickets + {Proven(t.id, t.generation + 1)},
                                 uses := s.uses + [Use(c.secret, Next(s, step).accounts[t.id].lastStep)])
        else !Accepts(s, step)
      case CheckTotp(t, now, right) =>
        if t in s.tickets && t.Inside? && (t.session.Full? || !t.session.enroll) && t.id < |s.accounts|
           && Checked(s.accounts[t.id], t.generation, now, right).Ok? then
          Accepts(s, step) && t.id < |Next(s, step).accounts| && s.accounts[t.id].totp.Some?
          && Next(s, step) == s.(accounts := Next(s, step).accounts,
                                 tickets := if t.session.Full? then s.tickets
                                            else s.tickets + {Proven(t.id, t.generation)},
                                 uses := s.uses + [Use(s.accounts[t.id].totp.value,
                                                       Next(s, step).accounts[t.id].lastStep)])
        else !Accepts(s, step)
      case _ => true
  {
    hide StepFor;
  }

  /** Administration: resets and changes of password are for a session that passed a factor; none of
      these steps makes a session. */
  lemma AdministrationMeans(s: State, step: Step)
    ensures match step
      case ResetFactors(t, id, now) =>
        Accepts(s, step) <==>
        && FromFull(s, t) && id < |s.accounts|
        && FactorsReset(s.accounts, t.id, t.generation, id, Link(s.issued, true, now + 3600)).Ok?
      case IssueLink(id, now) =>
        Accepts(s, step) <==> id < |s.accounts| && LinkIssued(s.accounts[id], Link(s.issued, false, now + 3600)).Ok?
      case WithdrawLinks(id, _) => Accepts(s, step) <==> id < |s.accounts|
      case Redeem(id, link, now) => Accepts(s, step) <==> id < |s.accounts| && Redeemed(s.accounts[id], link, now).Ok?
      case LocalRecovery(id, reset) =>
        Accepts(s, step) <==> id < |s.accounts| && LocallyRecovered(s.accounts[id], reset).Ok?
      case SaveMember(id, _, _) => Accepts(s, step) <==> id < |s.accounts|
      case ChangePassword(t) => Accepts(s, step) <==> FromFull(s, t)
      case _ => true
    ensures Administration(s, step).Ok? ==> var after := Next(s, step);
      && after.sessions == s.sessions && after.uses == s.uses && after.invites == s.invites
      && after.tickets == (if step.Recover? && step.id < |after.accounts|
                           then s.tickets + {CodeSpent(step.id, after.accounts[step.id].generation)} else s.tickets)
      && after.redeemed == (if step.Redeem? then s.redeemed + [step.link.hash] else s.redeemed)
      && after.issued == s.issued + if step.ResetFactors? || step.IssueLink? then 1 else 0
  {
    hide FactorsReset, LinkIssued, Redeemed, LocallyRecovered, RecoveryUsed;
  }

  // ---- recovery codes are spent ----------------------------------------

  /** The step stores this recovery code for the account: with a new TOTP secret, with a first
      passkey, or as a new set. */
  predicate Stores(s: State, step: Step, id: nat, code: string) {
    && Hits(s, step, id) && (step.ConfirmTotp? || step.Register? || step.NewCodes?) && code in step.codes
  }

  predicate HasCode(s: State, id: nat, code: string) {
    id < |s.accounts| && code in s.accounts[id].codes
  }

  lemma CodesComeFrom(s: State, step: Step, id: nat, code: string)
    requires HasCode(Next(s, step), id, code)
    ensures HasCode(s, id, code) || Stores(s, step, id, code)
  {
    hide Next, Accepts;
    AccountsExactly(s, step, id);
  }

  /** Recovery with a code is accepted exactly when the enabled account holds it. Afterwards the
      account has no code, no passkey, no TOTP secret and no link, its pending enrolments are gone,
      and it is a generation later; the rest of it, and every other account, is as it was. */
  lemma RecoveryMeans(s: State, id: nat, code: string)
    ensures Accepts(s, Recover(id, code)) <==>
      id < |s.accounts| && s.accounts[id].enabled && code in s.accounts[id].codes
    ensures Accepts(s, Recover(id, code)) ==>
      var after := Next(s, Recover(id, code));
      var a, b := s.accounts[id], after.accounts[id];
      && b.codes == {} && b.passkeys == {} && b.totp == None && b.lastStep == -1 && b.links == {}
      && b.generation == a.generation + 1
      && (b.username, b.admin, b.enabled, b.locked) == (a.username, a.admin, a.enabled, a.locked)
      && (forall i :: 0 <= i < |s.accounts| && i != id ==> after.accounts[i] == s.accounts[i])
      && (forall c :: c in after.setups <==> c in s.setups && (c.id != id || c.taken))
      && after.sessions == s.sessions
  {
  }

  /** Main theorem. A recovery code that was accepted is not accepted again, in any run, unless a
      step in between stored it again for the account. */
  lemma RecoveryCodesAreSpent(steps: seq<Step>, j: nat, k: nat, id: nat, code: string)
    requires j < k < |steps| && steps[j] == steps[k] == Recover(id, code)
    requires Accepts(Run(START, steps[..j]), steps[j]) && Accepts(Run(START, steps[..k]), steps[k])
    ensures exists m :: j < m < k && Stores(Run(START, steps[..m]), steps[m], id, code)
  {
    hide Run, Next, Accepts, Stores;
    RecoveryMeans(Run(START, steps[..j]), id, code);
    RecoveryMeans(Run(START, steps[..k]), id, code);
    RunStep(steps, j);
    AccountsExactly(Run(START, steps[..j]), steps[j], id);
    StoredBetween(steps, j + 1, k, id, code);
  }

  lemma {:induction false} StoredBetween(steps: seq<Step>, j: nat, k: nat, id: nat, code: string)
    requires j <= k <= |steps|
    requires !HasCode(Run(START, steps[..j]), id, code) && HasCode(Run(START, steps[..k]), id, code)
    ensures exists m :: j <= m < k && Stores(Run(START, steps[..m]), steps[m], id, code)
  {
    hide Run, Next, Stores, HasCode;
    RunStep(steps, k - 1);
    CodesComeFrom(Run(START, steps[..k - 1]), steps[k - 1], id, code);
    if HasCode(Run(START, steps[..k - 1]), id, code) {
      StoredBetween(steps, j, k - 1, id, code);
    }
  }

  lemma RunStep(steps: seq<Step>, k: nat)
    requires k < |steps|
    ensures Run(START, steps[..k + 1]) == Next(Run(START, steps[..k]), steps[k])
  {
    assert steps[..k + 1][..k] == steps[..k];
  }

  // ---- old sessions end ------------------------------------------------

  lemma {:induction false} GenerationsRise(steps: seq<Step>, j: nat, k: nat, id: nat)
    requires j <= k <= |steps| && id < |Run(START, steps[..j]).accounts|
    ensures id < |Run(START, steps[..k]).accounts|
    ensures Run(START, steps[..j]).accounts[id].generation <= Run(START, steps[..k]).accounts[id].generation
  {
    hide Run, Next, Accepts, FactorsAfter, LinksAfter;
    if j < k {
      GenerationsRise(steps, j, k - 1, id);
      RunStep(steps, k - 1);
      AccountsExactly(Run(START, steps[..k - 1]), steps[k - 1], id);
    }
  }

  /** Main theorem. Once a step has raised an account's generation (a redeemed link, a changed
      password, a recovery, a reset, a change of factors, role or status), no session or handler of
      the account that was there before is ever accepted again. */
  lemma OldSessionsEnd(steps: seq<Step>, k: nat, later: nat, id: nat)
    requires k < later <= |steps|
    requires Hits(Run(START, steps[..k]), steps[k], id) && Raises(steps[k]) > 0
    ensures id < |Run(START, steps[..k]).accounts| && id < |Run(START, steps[..later]).accounts|
    ensures var was, now := Run(START, steps[..k]), Run(START, steps[..later]).accounts[id];
      && (forall x :: x in was.sessions && x.id == id ==> x.generation < now.generation)
      && (forall t :: t in was.tickets && t.id == id ==> t.generation < now.generation)
  {
    hide Run, Next, Accepts, FactorsAfter, LinksAfter, Ledger, LinkLedger;
    var before := Run(START, steps[..k]);
    RunKeeps(steps[..k]);
    SubjectIsThere(before, steps[k], id);
    RunStep(steps, k);
    AccountsExactly(before, steps[k], id);
    GenerationsRise(steps, k + 1, later, id);
    Bounded(before, id);
  }

  lemma SubjectIsThere(s: State, step: Step, id: nat)
    requires Hits(s, step, id)
    ensures id < |s.accounts| || step.StartTotp? || step.TakeTotp?
  {
    hide StepFor, KeyTaken, NameTaken;
  }

  /** No session and no handler is ahead of its account. */
  lemma Bounded(s: State, id: nat)
    requires Claims(s) && id < |s.accounts|
    ensures forall x :: x in s.sessions && x.id == id ==> x.generation <= s.accounts[id].generation
    ensures forall t :: t in s.tickets && t.id == id ==> t.generation <= s.accounts[id].generation
  {
    hide Fits;
  }

  // ---- powers ----------------------------------------------------------

  /** An account is an administrator's, or enabled, only as the first one, by an invitation redeemed
      (enabled, and never an administrator's), by saving the member so, or by local recovery of an
      administrator. */
  lemma PowersAreGiven(s: State, step: Step, id: nat)
    requires id < |Next(s, step).accounts|
    ensures Next(s, step).accounts[id].admin && !(id < |s.accounts| && s.accounts[id].admin) ==>
      step.Bootstrap? || (step.SaveMember? && step.id == id && step.admin)
    ensures Next(s, step).accounts[id].enabled && !(id < |s.accounts| && s.accounts[id].enabled) ==>
      || step.Bootstrap? || step.RedeemInvite? || (step.SaveMember? && step.id == id && step.enabled)
      || (step.LocalRecovery? && step.id == id && s.accounts[id].admin)
  {
    hide Next, Accepts, FactorsAfter, LinksAfter;
    AccountsExactly(s, step, id);
    if step.LocalRecovery? && Hits(s, step, id) {
      RecoveredIsAdmin(s, step);
    }
  }

  lemma RecoveredIsAdmin(s: State, step: Step)
    requires step.LocalRecovery? && Accepts(s, step)
    ensures step.id < |s.accounts| && s.accounts[step.id].admin
  {
  }

  // ---- who has a factor gets in ----------------------------------------

  /** Password, account read again, lock read, factors read, waiting session, and its handler. */
  function Entered(s: State, id: nat): State
    requires id < |s.accounts|
  {
    var a := s.accounts[id];
    var g := a.generation;
    var read := Next(Next(s, LoginPassword(id)), LoginReread(PasswordOk(id, g)));
    var seen := Next(Next(read, LoginLock(Reread(id, g))), LoginTotp(NotLocked(id, g)));
    Next(Next(seen, LoginKeys(TotpSeen(id, g, a.totp.Some?))), Enter(Waiting(id, g, !HasFactor(a))))
  }

  /** The same state, but for handlers and sessions, among them these. */
  ghost predicate Reached(s: State, after: State, tickets: set<Ticket>, sessions: set<Session>) {
    && after == s.(tickets := after.tickets, sessions := after.sessions)
    && tickets <= after.tickets && sessions <= after.sessions
  }

  lemma Reads(s: State, id: nat)
    requires id < |s.accounts| && s.accounts[id].enabled
    ensures var g := s.accounts[id].generation;
      Reached(s, Next(Next(s, LoginPassword(id)), LoginReread(PasswordOk(id, g))), {Reread(id, g)}, {})
  {
  }

  lemma Looks(s: State, id: nat, g: nat)
    requires id < |s.accounts| && !s.accounts[id].locked && Reread(id, g) in s.tickets
    ensures Reached(s, Next(Next(s, LoginLock(Reread(id, g))), LoginTotp(NotLocked(id, g))),
                    {TotpSeen(id, g, s.accounts[id].totp.Some?)}, {})
  {
  }

  lemma Waits(s: State, id: nat)
    requires id < |s.accounts| && s.accounts[id].enabled
    requires TotpSeen(id, s.accounts[id].generation, s.accounts[id].totp.Some?) in s.tickets
    ensures var a := s.accounts[id];
      var waiting := Waiting(id, a.generation, !HasFactor(a));
      Reached(s, Next(Next(s, LoginKeys(TotpSeen(id, a.generation, a.totp.Some?))), Enter(waiting)),
              {Inside(id, a.generation, waiting)}, {waiting})
  {
  }

  lemma PasswordEnters(s: State, id: nat)
    requires id < |s.accounts| && s.accounts[id].enabled && !s.accounts[id].locked
    ensures var a := s.accounts[id];
      var waiting := Waiting(id, a.generation, !HasFactor(a));
      Reached(s, Entered(s, id), {Inside(id, a.generation, waiting)}, {waiting})
  {
    hide Next, HasFactor;
    var g := s.accounts[id].generation;
    Reads(s, id);
    var read := Next(Next(s, LoginPassword(id)), LoginReread(PasswordOk(id, g)));
    Looks(read, id, g);
    Waits(Next(Next(read, LoginLock(Reread(id, g))), LoginTotp(NotLocked(id, g))), id);
  }

  lemma ProvenSignsIn(s: State, id: nat)
    requires id < |s.accounts| && s.accounts[id].enabled && Proven(id, s.accounts[id].generation) in s.tickets
    ensures var g := s.accounts[id].generation;
      Accepted(Next(s, SignIn(Proven(id, g))), Full(id, g))
  {
  }

  /** Main theorem. Whoever has the password of an enabled, unlocked account with a TOTP secret, and a
      code that is right for an unused step near now, gets a session that is accepted. */
  lemma CodeGetsIn(s: State, id: nat, now: nat, right: int -> bool)
    requires id < |s.accounts| && s.accounts[id].enabled && !s.accounts[id].locked && s.accounts[id].totp.Some?
    requires RightNear(now, s.accounts[id].lastStep, right)
    ensures var g := s.accounts[id].generation;
      var checked := Next(Entered(s, id), CheckTotp(Inside(id, g, Waiting(id, g, false)), now, right));
      Accepted(Next(checked, SignIn(Proven(id, g))), Full(id, g))
  {
    hide Next, Entered, RightNear, StepFor, Accepted;
    var g := s.accounts[id].generation;
    PasswordEnters(s, id);
    var t := Inside(id, g, Waiting(id, g, false));
    CodeProves(Entered(s, id), t, now, right);
    ProvenSignsIn(Next(Entered(s, id), CheckTotp(t, now, right)), id);
  }

  lemma CodeProves(s: State, t: Ticket, now: nat, right: int -> bool)
    requires t in s.tickets && t.Inside? && t.session.Waiting? && !t.session.enroll && t.id < |s.accounts|
    requires Identity(s.accounts[t.id], t.generation) && s.accounts[t.id].totp.Some?
    requires RightNear(now, s.accounts[t.id].lastStep, right)
    ensures var after := Next(s, CheckTotp(t, now, right));
      && t.id < |after.accounts| && Identity(after.accounts[t.id], t.generation)
      && Proven(t.id, t.generation) in after.tickets
  {
    hide StepFor, RightNear;
    StepsExactly(now, s.accounts[t.id].lastStep, right);
  }

  /** Whoever has the password of one without factors, and a right code for the secret on offer,
      enrols it and gets such a session, at the next generation. */
  lemma EnrolmentGetsIn(s: State, id: nat, codes: set<string>, now: nat, right: int -> bool)
    requires id < |s.accounts| && s.accounts[id].enabled && !s.accounts[id].locked && !HasFactor(s.accounts[id])
    requires RightNear(now, -1, right)
    ensures var g := s.accounts[id].generation;
      var t, setup := Inside(id, g, Waiting(id, g, true)), Setup(s.issued, id, g, false);
      var taken := Next(Next(Entered(s, id), StartTotp(t)), TakeTotp(t, setup));
      var enrolled := Next(taken, ConfirmTotp(t, setup.(taken := true), codes, now, right));
      && enrolled.accounts[id].totp == Some(s.issued)
      && Accepted(Next(enrolled, SignIn(Proven(id, g + 1))), Full(id, g + 1))
  {
    hide Next, Entered, RightNear, StepFor, Accepted, HasFactor;
    var g := s.accounts[id].generation;
    var t, setup := Inside(id, g, Waiting(id, g, true)), Setup(s.issued, id, g, false);
    PasswordEnters(s, id);
    SecretIsTaken(Entered(s, id), t);
    var taken := Next(Next(Entered(s, id), StartTotp(t)), TakeTotp(t, setup));
    CodeEnrols(taken, t, setup.(taken := true), codes, now, right);
    ProvenSignsIn(Next(taken, ConfirmTotp(t, setup.(taken := true), codes, now, right)), id);
  }

  lemma SecretIsTaken(s: State, t: Ticket)
    requires t in s.tickets && MayEnroll(t)
    ensures var setup := Setup(s.issued, t.id, t.generation, false);
      var taken := Next(Next(s, StartTotp(t)), TakeTotp(t, setup));
      taken.accounts == s.accounts && taken.tickets == s.tickets && setup.(taken := true) in taken.setups
  {
  }

  lemma CodeEnrols(s: State, t: Ticket, setup: Setup, codes: set<string>, now: nat, right: int -> bool)
    requires t in s.tickets && MayEnroll(t) && t.id < |s.accounts| && Identity(s.accounts[t.id], t.generation)
    requires setup in s.setups && setup.taken && setup.id == t.id && RightNear(now, -1, right)
    ensures var after := Next(s, ConfirmTotp(t, setup, codes, now, right));
      && t.id < |after.accounts| && Identity(after.accounts[t.id], t.generation + 1)
      && after.accounts[t.id].totp == Some(setup.secret) && Proven(t.id, t.generation + 1) in after.tickets
  {
    hide StepFor, RightNear;
    StepsExactly(now, -1, right);
  }

  /** Whoever asserts a passkey of an enabled account gets such a session. */
  lemma PasskeyGetsIn(s: State, id: nat, key: string)
    requires id < |s.accounts| && s.accounts[id].enabled && key in s.accounts[id].passkeys
    ensures var g := s.accounts[id].generation;
      var found := Next(Next(s, PasskeyUser(id, key)), PasskeyFinish(KeyFound(id, g, key)));
      Accepted(Next(found, SignIn(Proven(id, g))), Full(id, g))
  {
    hide Next, Accepted;
    KeyProves(s, id, key);
    var g := s.accounts[id].generation;
    ProvenSignsIn(Next(Next(s, PasskeyUser(id, key)), PasskeyFinish(KeyFound(id, g, key))), id);
  }

  lemma KeyProves(s: State, id: nat, key: string)
    requires id < |s.accounts| && s.accounts[id].enabled && key in s.accounts[id].passkeys
    ensures var g := s.accounts[id].generation;
      var found := Next(Next(s, PasskeyUser(id, key)), PasskeyFinish(KeyFound(id, g, key)));
      found.accounts == s.accounts && Proven(id, g) in found.tickets
  {
  }
}
