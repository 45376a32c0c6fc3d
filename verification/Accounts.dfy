/** Accounts, login factors and sessions: what survives every interleaving of reads and commits. */
module Accounts {
  import opened Base

  /** Time steps of 30 seconds, section 5.2 of RFC 6238. */
  const PERIOD: int := 30

  type Secret = nat

  const HOUR: nat := 3600

  /** A link to set a password, not yet consumed; `factor` is the kind that also ends a lock. */
  datatype Link = Link(hash: nat, factor: bool, expires: nat)

  datatype Account = Account(username: string, admin: bool, enabled: bool, generation: nat, locked: bool,
                             totp: Option<Secret>, lastStep: int, passkeys: set<string>, codes: set<string>,
                             links: set<Link>)

  function NewAccount(username: string, admin: bool): Account {
    Account(username, admin, true, 1, false, None, -1, {}, {}, {})
  }

  predicate HasFactor(a: Account) {
    a.totp.Some? || a.passkeys != {}
  }

  // ---- one-time codes --------------------------------------------------

  const OFFSETS: seq<int> := [0, -1, 1]

  /** The first step near `step`, in the order tried, that is unused and for which the code is right. */
  function FirstStep(step: int, last: int, right: int -> bool, from: nat): Option<int>
    requires from <= |OFFSETS|
    decreases |OFFSETS| - from
  {
    if from == |OFFSETS| then None
    else if step + OFFSETS[from] > last && right(step + OFFSETS[from]) then Some(step + OFFSETS[from])
    else FirstStep(step, last, right, from + 1)
  }

  function StepFor(now: nat, last: int, right: int -> bool): Option<int> {
    FirstStep(now / PERIOD, last, right, 0)
  }

  method ValidStep(now: nat, last: int, right: int -> bool) returns (found: Option<int>)
    ensures found == StepFor(now, last, right)
  {
    var step := now / PERIOD;
    for i := 0 to |OFFSETS|
      invariant StepFor(now, last, right) == FirstStep(step, last, right, i)
    {
      var s := step + OFFSETS[i];
      if s <= last {
        continue;
      }
      if right(s) {
        return Some(s);
      }
    }
    found := None;
  }

  /** A code is accepted exactly when it is right for some unused step within one of now. */
  lemma StepForExactly(now: nat, last: int, right: int -> bool)
    ensures var found := StepFor(now, last, right);
      && (found.Some? ==>
            found.value > last && right(found.value) && now / PERIOD - 1 <= found.value <= now / PERIOD + 1)
      && (found.None? ==> forall s :: s > last && now / PERIOD - 1 <= s <= now / PERIOD + 1 ==> !right(s))
  {
  }

  // ---- transactions on one account -------------------------------------

  /** The account is enabled and still the one the handler authenticated. */
  predicate Identity(a: Account, generation: nat) {
    a.enabled && a.generation == generation
  }

  function Checked(a: Account, generation: nat, now: nat, right: int -> bool): Result<Account> {
    if !Identity(a, generation) || a.totp.None? then Rejected
    else
      match StepFor(now, a.lastStep, right)
      case None => Rejected
      case Some(s) => Ok(a.(lastStep := s))
  }

  function Enrolled(a: Account, generation: nat, secret: Secret, codes: set<string>, now: nat,
                    right: int -> bool): Result<Account> {
    if !Identity(a, generation) then Rejected
    else
      match StepFor(now, -1, right)
      case None => Rejected
      case Some(s) => Ok(a.(totp := Some(secret), lastStep := s, codes := codes, generation := generation + 1))
  }

  /** The primary key of the passkeys table: no two accounts share a key. */
  predicate KeyTaken(rows: seq<Account>, key: string) {
    exists i :: 0 <= i < |rows| && key in rows[i].passkeys
  }

  function Registered(rows: seq<Account>, id: nat, generation: nat, key: string, codes: set<string>): Result<Account>
    requires id < |rows|
  {
    var a := rows[id];
    if !Identity(a, generation) || KeyTaken(rows, key) then Rejected
    else Ok(a.(passkeys := a.passkeys + {key}, codes := if a.codes == {} then codes else a.codes,
               generation := generation + 1))
  }

  function TotpRemoved(a: Account, generation: nat): Result<Account> {
    if !Identity(a, generation) || a.passkeys == {} then Rejected
    else Ok(a.(totp := None, lastStep := -1, generation := generation + 1))
  }

  function KeyRemoved(a: Account, generation: nat, key: string): Result<Account> {
    if !Identity(a, generation) || |a.passkeys| + (if a.totp.Some? then 1 else 0) < 2 || key !in a.passkeys
    then Rejected
    else Ok(a.(passkeys := a.passkeys - {key}, generation := generation + 1))
  }

  function Recoded(a: Account, generation: nat, codes: set<string>): Result<Account> {
    if !Identity(a, generation) then Rejected else Ok(a.(codes := codes, generation := generation + 1))
  }

  /** Factors, recovery codes and outstanding links are gone, and so is the generation. */
  function Cleared(a: Account): Account {
    a.(passkeys := {}, codes := {}, totp := None, lastStep := -1, links := {}, generation := a.generation + 1)
  }

  function RecoveryUsed(a: Account, code: string): Result<Account> {
    if !a.enabled || code !in a.codes then Rejected else Ok(Cleared(a))
  }

  /** An administrator, still the one authenticated, resets another member's factors. A change of
      role is a change of generation, so the role is that of the generation. */
  function FactorsReset(rows: seq<Account>, actor: nat, generation: nat, id: nat, link: Link): Result<Account>
    requires actor < |rows| && id < |rows|
  {
    if actor == id || !rows[actor].admin || !Identity(rows[actor], generation) || !rows[id].enabled then Rejected
    else Ok(Cleared(rows[id]).(locked := true, links := {link}))
  }

  /** A new reset link takes the place of those before it. */
  function LinkIssued(a: Account, link: Link): Result<Account> {
    if !a.enabled then Rejected
    else Ok(a.(links := (set l | l in a.links && l.factor) + {link}))
  }

  function Redeemed(a: Account, link: Link, now: nat): Result<Account> {
    if !a.enabled || link !in a.links || link.expires <= now then Rejected
    else Ok(a.(generation := a.generation + 1, locked := a.locked && !link.factor, links := a.links - {link}))
  }

  /** An administrator withdraws the outstanding links of one kind. */
  function Withdrawn(a: Account, factor: bool): Account {
    a.(links := set l | l in a.links && l.factor != factor)
  }

  /** Recovery at the machine itself is for administrators' accounts. */
  function LocallyRecovered(a: Account, resetFactors: bool): Result<Account> {
    if !a.admin then Rejected
    else
      var enabled := a.(enabled := true, generation := a.generation + 1, links := {});
      Ok(if resetFactors then Cleared(enabled).(locked := false) else enabled)
  }

  /** A change of role or status; disabling consumes the links. */
  function Saved(a: Account, admin: bool, enabled: bool): Account {
    a.(admin := admin, enabled := enabled, generation := a.generation + 1, links := if enabled then a.links else {})
  }

  function PasswordChanged(a: Account): Account {
    a.(generation := a.generation + 1, links := {})
  }

  // ---- invitations -----------------------------------------------------

  predicate NameTaken(rows: seq<Account>, username: string) {
    exists i :: 0 <= i < |rows| && SameName(rows[i].username, username)
  }

  predicate NameChar(c: char) {
    'a' <= c <= 'z' || 'A' <= c <= 'Z' || '0' <= c <= '9' || c in "_-."
  }

  predicate ValidName(username: string) {
    3 <= |username| <= 40 && forall c :: c in username ==> NameChar(c)
  }

  /** A spelling has at most one outstanding invitation; a new one takes its place. */
  function Invited(rows: seq<Account>, invites: map<string, Link>, username: string, link: Link)
    : Result<map<string, Link>>
  {
    if !ValidName(username) || NameTaken(rows, username) then Rejected else Ok(invites[username := link])
  }

  /** The accounts with the one invited, and the invitations without the one consumed. */
  function Joined(rows: seq<Account>, invites: map<string, Link>, username: string, link: Link, now: nat)
    : Result<(seq<Account>, map<string, Link>)>
  {
    if username !in invites || invites[username] != link || link.expires <= now then Rejected
    else if NameTaken(rows, username) then Rejected
    else Ok((rows + [NewAccount(username, false)], invites - {username}))
  }

  /** The first administrator is made at the machine itself. */
  function Bootstrapped(rows: seq<Account>, username: string): Result<seq<Account>> {
    if !ValidName(username) || (exists i :: 0 <= i < |rows| && rows[i].admin && rows[i].enabled) then Rejected
    else if NameTaken(rows, username) then Rejected
    else Ok(rows + [NewAccount(username, true)])
  }

  // ---- claims ----------------------------------------------------------

  /** What a session or a handler in flight may rely on, about an account at one generation. */
  datatype Fact = Nothing | Unlocked | NoTotp | Bare | Strong

  predicate Fits(a: Account, f: Fact) {
    match f
    case Nothing => true
    case Unlocked => !a.locked
    case NoTotp => !a.locked && a.totp.None?
    case Bare => !a.locked && !HasFactor(a)
    case Strong => !a.locked && HasFactor(a)
  }

  /** Holds once and for all: as soon as the generation has passed, the claim is worth nothing. */
  predicate Holds(a: Account, generation: nat, f: Fact) {
    generation <= a.generation && (generation == a.generation ==> Fits(a, f))
  }

  datatype Session = Full(id: nat, generation: nat) | Waiting(id: nat, generation: nat, enroll: bool)

  /** A handler between two of its steps. */
  datatype Ticket =
    | PasswordOk(id: nat, generation: nat)
    | Reread(id: nat, generation: nat)
    | NotLocked(id: nat, generation: nat)
    | TotpSeen(id: nat, generation: nat, has: bool)
    | CodeSpent(id: nat, generation: nat)
    | Inside(id: nat, generation: nat, session: Session)
    | KeyFound(id: nat, generation: nat, key: string)
    | Proven(id: nat, generation: nat)

  /** A TOTP secret on its way to an account; `taken` once its challenge has been consumed. */
  datatype Setup = Setup(secret: Secret, id: nat, generation: nat, taken: bool)

  /** A code accepted for a secret at a time step. */
  datatype Use = Use(secret: Secret, step: int)

  datatype State = State(accounts: seq<Account>, sessions: set<Session>, tickets: set<Ticket>,
                         setups: set<Setup>, issued: Secret, uses: seq<Use>, redeemed: seq<nat>,
                         invites: map<string, Link>)

  function SessionFact(s: Session): Fact {
    if s.Full? then Strong else if s.enroll then Bare else Unlocked
  }

  function TicketFact(t: Ticket): Fact {
    match t
    case NotLocked(_, _) => Unlocked
    case TotpSeen(_, _, has) => if has then Unlocked else NoTotp
    case CodeSpent(_, _) => Bare
    case Inside(_, _, s) => SessionFact(s)
    case Proven(_, _) => Strong
    case _ => Nothing
  }

  // ---- steps -----------------------------------------------------------

  /** Reads and commits are separate steps of separate handlers. The time limits on sessions
      and challenges are left open: each of them may still be good at any time. */
  datatype Step =
    | Bootstrap(username: string)
    | IssueInvite(username: string, now: nat)
    | WithdrawInvite(username: string)
    | RedeemInvite(username: string, link: Link, now: nat)
    | LoginPassword(id: nat)
    | LoginReread(t: Ticket)
    | LoginLock(t: Ticket)
    | LoginTotp(t: Ticket)
    | LoginKeys(t: Ticket)
    | Recover(id: nat, code: string)
    | RecoverEnter(t: Ticket)
    | Enter(s: Session)
    | CheckTotp(t: Ticket, now: nat, right: int -> bool)
    | StartTotp(t: Ticket)
    | TakeTotp(t: Ticket, setup: Setup)
    | ConfirmTotp(t: Ticket, setup: Setup, codes: set<string>, now: nat, right: int -> bool)
    | Register(t: Ticket, key: string, codes: set<string>)
    | RemoveTotp(t: Ticket)
    | RemoveKey(t: Ticket, key: string)
    | NewCodes(t: Ticket, codes: set<string>)
    | PasskeyUser(id: nat, key: string)
    | PasskeyFinish(t: Ticket)
    | SignIn(t: Ticket)
    | ResetFactors(t: Ticket, id: nat, now: nat)
    | IssueLink(id: nat, now: nat)
    | WithdrawLinks(id: nat, factor: bool)
    | Redeem(id: nat, link: Link, now: nat)
    | LocalRecovery(id: nat, resetFactors: bool)
    | SaveMember(id: nat, admin: bool, enabled: bool)
    | ChangePassword(t: Ticket)

  function With(s: State, id: nat, a: Account): State
    requires id < |s.accounts|
  {
    s.(accounts := s.accounts[id := a])
  }

  function Hold(s: State, t: Ticket): State {
    s.(tickets := s.tickets + {t})
  }

  function Save(s: State, session: Session): State {
    s.(sessions := s.sessions + {session})
  }

  /** A factor change: the account as changed, and a handler entitled to sign in at its generation. */
  function Mutated(s: State, id: nat, a: Result<Account>): Result<State>
    requires id < |s.accounts|
  {
    if a.Rejected? then Rejected else Ok(Hold(With(s, id, a.value), Proven(id, a.value.generation)))
  }

  /** An account's challenges that have not been consumed are deleted with its factors. */
  function Without(setups: set<Setup>, id: nat): set<Setup> {
    set c | c in setups && (c.id != id || c.taken)
  }

  function WithoutChallenges(s: State, id: nat): State {
    s.(setups := Without(s.setups, id))
  }

  /** A handler of a session that passed a factor. */
  predicate SignedIn(t: Ticket) {
    t.Inside? && t.session.Full?
  }

  /** A handler of a session that may enrol: signed in, or waiting to enrol. */
  predicate MayEnroll(t: Ticket) {
    t.Inside? && (t.session.Full? || t.session.enroll)
  }

  function Logins(s: State, step: Step): Result<State> {
    match step
    case LoginPassword(id) =>
      if !(id < |s.accounts|) || !s.accounts[id].enabled then Rejected
      else Ok(Hold(s, PasswordOk(id, s.accounts[id].generation)))
    case LoginReread(t) =>
      if !(t in s.tickets && t.PasswordOk? && t.id < |s.accounts|
           && Identity(s.accounts[t.id], t.generation)) then Rejected
      else Ok(Hold(s, Reread(t.id, t.generation)))
    case LoginLock(t) =>
      if !(t in s.tickets && t.Reread? && t.id < |s.accounts|) || s.accounts[t.id].locked then Rejected
      else Ok(Hold(s, NotLocked(t.id, t.generation)))
    case LoginTotp(t) =>
      if !(t in s.tickets && t.NotLocked? && t.id < |s.accounts|) then Rejected
      else Ok(Hold(s, TotpSeen(t.id, t.generation, s.accounts[t.id].totp.Some?)))
    case LoginKeys(t) =>
      if !(t in s.tickets && t.TotpSeen? && t.id < |s.accounts|) then Rejected
      else Ok(Save(s, Waiting(t.id, t.generation, !t.has && s.accounts[t.id].passkeys == {})))
    case RecoverEnter(t) =>
      if !(t in s.tickets && t.CodeSpent? && t.id < |s.accounts|
           && Identity(s.accounts[t.id], t.generation)) then Rejected
      else Ok(Save(s, Waiting(t.id, t.generation, true)))
    case Enter(session) =>
      if !(session in s.sessions && session.id < |s.accounts|
           && Identity(s.accounts[session.id], session.generation)) then Rejected
      else Ok(Hold(s, Inside(session.id, session.generation, session)))
    case PasskeyUser(id, key) =>
      if !(id < |s.accounts|) then Rejected else Ok(Hold(s, KeyFound(id, s.accounts[id].generation, key)))
    case PasskeyFinish(t) =>
      if !(t in s.tickets && t.KeyFound? && t.id < |s.accounts| && Identity(s.accounts[t.id], t.generation)
           && t.key in s.accounts[t.id].passkeys) then Rejected
      else Ok(Hold(s, Proven(t.id, t.generation)))
    case SignIn(t) =>
      if !(t in s.tickets && t.Proven? && t.id < |s.accounts| && Identity(s.accounts[t.id], t.generation)) then Rejected
      else Ok(Save(s, Full(t.id, t.generation)))
    case _ => Rejected
  }

  function Factors(s: State, step: Step): Result<State> {
    match step
    case Register(t, key, codes) =>
      if !(t in s.tickets && MayEnroll(t) && t.id < |s.accounts|) then Rejected
      else Mutated(s, t.id, Registered(s.accounts, t.id, t.generation, key, codes))
    case RemoveTotp(t) =>
      if !(t in s.tickets && SignedIn(t) && t.id < |s.accounts|) then Rejected
      else Mutated(s, t.id, TotpRemoved(s.accounts[t.id], t.generation))
    case RemoveKey(t, key) =>
      if !(t in s.tickets && SignedIn(t) && t.id < |s.accounts|) then Rejected
      else Mutated(s, t.id, KeyRemoved(s.accounts[t.id], t.generation, key))
    case NewCodes(t, codes) =>
      if !(t in s.tickets && SignedIn(t) && t.id < |s.accounts|) then Rejected
      else Mutated(s, t.id, Recoded(s.accounts[t.id], t.generation, codes))
    case _ => Rejected
  }

  function Totp(s: State, step: Step): Result<State> {
    match step
    case CheckTotp(t, now, right) =>
      if !(t in s.tickets && t.Inside? && t.id < |s.accounts|) || (t.session.Waiting? && t.session.enroll) then Rejected
      else
        var checked := Checked(s.accounts[t.id], t.generation, now, right);
        if checked.Rejected? || s.accounts[t.id].totp.None? then Rejected
        else
          var used := With(s, t.id, checked.value)
          .(uses := s.uses + [Use(s.accounts[t.id].totp.value, checked.value.lastStep)]);
          Ok(if t.session.Full? then used else Hold(used, Proven(t.id, t.generation)))
    case StartTotp(t) =>
      if !(t in s.tickets && MayEnroll(t)) then Rejected
      else Ok(s.(setups := s.setups + {Setup(s.issued, t.id, t.generation, false)}, issued := s.issued + 1))
    case TakeTotp(t, setup) =>
      if !(t in s.tickets && MayEnroll(t) && setup in s.setups && !setup.taken
           && setup.id == t.id && setup.generation == t.generation)
      then Rejected
      else Ok(s.(setups := s.setups - {setup} + {setup.(taken := true)}))
    case ConfirmTotp(t, setup, codes, now, right) =>
      if !(t in s.tickets && MayEnroll(t) && t.id < |s.accounts| && setup in s.setups && setup.taken
           && setup.id == t.id) then Rejected
      else
        var enrolled := Enrolled(s.accounts[t.id], t.generation, setup.secret, codes, now, right);
        if enrolled.Rejected? then Rejected
        else Ok(Hold(With(s, t.id, enrolled.value), Proven(t.id, enrolled.value.generation))
                .(setups := s.setups - {setup}, uses := s.uses + [Use(setup.secret, enrolled.value.lastStep)]))
    case _ => Rejected
  }

  function Administration(s: State, step: Step): Result<State> {
    match step
    case Recover(id, code) =>
      if !(id < |s.accounts|) then Rejected
      else
        var cleared := RecoveryUsed(s.accounts[id], code);
        if cleared.Rejected? then Rejected
        else Ok(WithoutChallenges(Hold(With(s, id, cleared.value), CodeSpent(id, cleared.value.generation)), id))
    case ResetFactors(t, id, now) =>
      if !(t in s.tickets && SignedIn(t) && t.id < |s.accounts| && id < |s.accounts|) then Rejected
      else
        var reset := FactorsReset(s.accounts, t.id, t.generation, id, Link(s.issued, true, now + HOUR));
        if reset.Rejected? then Rejected
        else Ok(WithoutChallenges(With(s, id, reset.value), id).(issued := s.issued + 1))
    case IssueLink(id, now) =>
      if !(id < |s.accounts|) then Rejected
      else
        var linked := LinkIssued(s.accounts[id], Link(s.issued, false, now + HOUR));
        if linked.Rejected? then Rejected else Ok(With(s, id, linked.value).(issued := s.issued + 1))
    case WithdrawLinks(id, factor) =>
      if !(id < |s.accounts|) then Rejected else Ok(With(s, id, Withdrawn(s.accounts[id], factor)))
    case Redeem(id, link, now) =>
      if !(id < |s.accounts|) then Rejected
      else
        var redeemed := Redeemed(s.accounts[id], link, now);
        if redeemed.Rejected? then Rejected
        else Ok(With(s, id, redeemed.value).(redeemed := s.redeemed + [link.hash]))
    case LocalRecovery(id, resetFactors) =>
      if !(id < |s.accounts|) then Rejected
      else
        var recovered := LocallyRecovered(s.accounts[id], resetFactors);
        if recovered.Rejected? then Rejected
        else if resetFactors then Ok(WithoutChallenges(With(s, id, recovered.value), id))
        else Ok(With(s, id, recovered.value))
    case SaveMember(id, admin, enabled) =>
      if !(id < |s.accounts|) then Rejected else Ok(With(s, id, Saved(s.accounts[id], admin, enabled)))
    case ChangePassword(t) =>
      if !(t in s.tickets && SignedIn(t) && t.id < |s.accounts|) then Rejected
      else Ok(With(s, t.id, PasswordChanged(s.accounts[t.id])))
    case _ => Rejected
  }

  function Invitations(s: State, step: Step): Result<State> {
    match step
    case Bootstrap(username) =>
      var rows := Bootstrapped(s.accounts, username);
      if rows.Rejected? then Rejected else Ok(s.(accounts := rows.value))
    case IssueInvite(username, now) =>
      var invites := Invited(s.accounts, s.invites, username, Link(s.issued, false, now + 48 * HOUR));
      if invites.Rejected? then Rejected else Ok(s.(invites := invites.value, issued := s.issued + 1))
    case WithdrawInvite(username) => Ok(s.(invites := s.invites - {username}))
    case RedeemInvite(username, link, now) =>
      var joined := Joined(s.accounts, s.invites, username, link, now);
      if joined.Rejected? then Rejected
      else Ok(s.(accounts := joined.value.0, invites := joined.value.1, redeemed := s.redeemed + [link.hash]))
    case _ => Rejected
  }

  /** A step that is refused changes nothing. */
  function Next(s: State, step: Step): State {
    var a, b, c := Logins(s, step), Factors(s, step), Totp(s, step);
    var d, e := Administration(s, step), Invitations(s, step);
    if a.Ok? then a.value else if b.Ok? then b.value else if c.Ok? then c.value
    else if d.Ok? then d.value else if e.Ok? then e.value else s
  }

  // ---- the invariant ---------------------------------------------------

  /** A locked account has neither factors nor recovery codes. */
  predicate GoodAccount(a: Account) {
    a.locked ==> !HasFactor(a) && a.codes == {}
  }

  ghost predicate GoodSessions(s: State) {
    forall x :: x in s.sessions ==>
      x.id < |s.accounts| && Holds(s.accounts[x.id], x.generation, SessionFact(x))
  }

  ghost predicate GoodTickets(s: State) {
    forall t :: t in s.tickets ==>
      && t.id < |s.accounts| && Holds(s.accounts[t.id], t.generation, TicketFact(t))
      && (t.Inside? ==> t.session.id == t.id && t.session.generation == t.generation)
  }

  ghost predicate GoodAccounts(s: State) {
    forall i :: 0 <= i < |s.accounts| ==> GoodAccount(s.accounts[i])
  }

  ghost predicate Claims(s: State) {
    GoodAccounts(s) && GoodSessions(s) && GoodTickets(s)
  }

  /** How a commit may change an account: to a later generation, or not where claims look. */
  predicate Moves(a: Account, b: Account) {
    || a.generation < b.generation
    || (b.generation == a.generation && b.locked == a.locked && b.totp == a.totp && b.passkeys == a.passkeys)
  }

  lemma HoldKeeps(s: State, t: Ticket)
    requires Claims(s) && t.id < |s.accounts| && Holds(s.accounts[t.id], t.generation, TicketFact(t))
    requires t.Inside? ==> t.session.id == t.id && t.session.generation == t.generation
    ensures Claims(Hold(s, t))
  {
  }

  lemma SaveKeeps(s: State, x: Session)
    requires Claims(s) && x.id < |s.accounts| && Holds(s.accounts[x.id], x.generation, SessionFact(x))
    ensures Claims(Save(s, x))
  {
  }

  lemma LoginsKeep(s: State, step: Step)
    requires Claims(s) && Logins(s, step).Ok?
    ensures Claims(Logins(s, step).value)
  {
    hide Claims, Hold, Save;
    match step
    case LoginPassword(id) => HoldKeeps(s, PasswordOk(id, s.accounts[id].generation));
    case LoginReread(t) => HoldKeeps(s, Reread(t.id, t.generation));
    case LoginLock(t) =>
      TicketHolds(s, t);
      HoldKeeps(s, NotLocked(t.id, t.generation));
    case LoginTotp(t) =>
      TicketHolds(s, t);
      HoldKeeps(s, TotpSeen(t.id, t.generation, s.accounts[t.id].totp.Some?));
    case LoginKeys(t) =>
      TicketHolds(s, t);
      SaveKeeps(s, Waiting(t.id, t.generation, !t.has && s.accounts[t.id].passkeys == {}));
    case RecoverEnter(t) =>
      TicketHolds(s, t);
      SaveKeeps(s, Waiting(t.id, t.generation, true));
    case Enter(x) =>
      SessionHolds(s, x);
      HoldKeeps(s, Inside(x.id, x.generation, x));
    case PasskeyUser(id, key) => HoldKeeps(s, KeyFound(id, s.accounts[id].generation, key));
    case PasskeyFinish(t) =>
      AccountIsGood(s, t.id);
      HoldKeeps(s, Proven(t.id, t.generation));
    case SignIn(t) =>
      TicketHolds(s, t);
      SaveKeeps(s, Full(t.id, t.generation));
    case _ =>
  }

  lemma TicketHolds(s: State, t: Ticket)
    requires Claims(s) && t in s.tickets
    ensures t.id < |s.accounts| && Holds(s.accounts[t.id], t.generation, TicketFact(t))
    ensures t.Inside? ==> t.session.id == t.id && t.session.generation == t.generation
  {
  }

  lemma SessionHolds(s: State, x: Session)
    requires Claims(s) && x in s.sessions
    ensures x.id < |s.accounts| && Holds(s.accounts[x.id], x.generation, SessionFact(x))
  {
  }

  lemma AccountIsGood(s: State, id: nat)
    requires Claims(s) && id < |s.accounts|
    ensures GoodAccount(s.accounts[id])
  {
  }

  /** Committing a change to one account. */
  lemma WithKeeps(s: State, id: nat, a: Account)
    requires Claims(s) && id < |s.accounts| && Moves(s.accounts[id], a) && GoodAccount(a)
    ensures Claims(With(s, id, a))
  {
  }

  lemma MutatedKeeps(s: State, id: nat, a: Account)
    requires Claims(s) && id < |s.accounts| && s.accounts[id].generation < a.generation
    requires !a.locked && HasFactor(a)
    ensures Claims(Hold(With(s, id, a), Proven(id, a.generation)))
  {
  }

  lemma FactorsKeep(s: State, step: Step)
    requires Claims(s) && Factors(s, step).Ok?
    ensures Claims(Factors(s, step).value)
  {
    hide Claims, Hold, With;
    var t := step.t;
    TicketHolds(s, t);
    match step
    case Register(_, key, codes) =>
      var a := Registered(s.accounts, t.id, t.generation, key, codes).value;
      assert key in a.passkeys;
      MutatedKeeps(s, t.id, a);
    case RemoveTotp(_) => MutatedKeeps(s, t.id, TotpRemoved(s.accounts[t.id], t.generation).value);
    case RemoveKey(_, key) =>
      var a := KeyRemoved(s.accounts[t.id], t.generation, key).value;
      if a.totp.None? {
        assert |a.passkeys| >= 1;
      }
      MutatedKeeps(s, t.id, a);
    case NewCodes(_, codes) => MutatedKeeps(s, t.id, Recoded(s.accounts[t.id], t.generation, codes).value);
    case _ =>
  }

  lemma ClaimsFrame(s: State, after: State)
    requires Claims(s) && after.accounts == s.accounts && after.sessions == s.sessions && after.tickets == s.tickets
    ensures Claims(after)
  {
  }

  lemma CheckKeeps(s: State, t: Ticket, now: nat, right: int -> bool)
    requires Claims(s) && Totp(s, CheckTotp(t, now, right)).Ok?
    ensures Claims(Totp(s, CheckTotp(t, now, right)).value)
  {
    hide Claims, StepFor;
    TicketHolds(s, t);
    AccountIsGood(s, t.id);
    var a := Checked(s.accounts[t.id], t.generation, now, right).value;
    WithKeeps(s, t.id, a);
    var used := With(s, t.id, a).(uses := s.uses + [Use(s.accounts[t.id].totp.value, a.lastStep)]);
    ClaimsFrame(With(s, t.id, a), used);
    if t.session.Waiting? {
      HoldKeeps(used, Proven(t.id, t.generation));
    }
  }

  lemma TotpKeeps(s: State, step: Step)
    requires Claims(s) && Totp(s, step).Ok?
    ensures Claims(Totp(s, step).value)
  {
    hide Claims, StepFor;
    match step
    case CheckTotp(t, now, right) => CheckKeeps(s, t, now, right);
    case StartTotp(t) => ClaimsFrame(s, Totp(s, step).value);
    case TakeTotp(t, setup) => ClaimsFrame(s, Totp(s, step).value);
    case ConfirmTotp(t, setup, codes, now, right) =>
      TicketHolds(s, t);
      var a := Enrolled(s.accounts[t.id], t.generation, setup.secret, codes, now, right).value;
      MutatedKeeps(s, t.id, a);
      ClaimsFrame(Hold(With(s, t.id, a), Proven(t.id, a.generation)), Totp(s, step).value);
    case _ =>
  }

  lemma AdministrationKeeps(s: State, step: Step)
    requires Claims(s) && Administration(s, step).Ok?
    ensures Claims(Administration(s, step).value)
  {
    hide Claims;
    var after := Administration(s, step).value;
    match step
    case Recover(id, code) =>
      AccountIsGood(s, id);
      var a := RecoveryUsed(s.accounts[id], code).value;
      WithKeeps(s, id, a);
      HoldKeeps(With(s, id, a), CodeSpent(id, a.generation));
      ClaimsFrame(Hold(With(s, id, a), CodeSpent(id, a.generation)), after);
    case ResetFactors(t, id, now) =>
      var link := Link(s.issued, true, now + HOUR);
      CommitKeeps(s, id, FactorsReset(s.accounts, t.id, t.generation, id, link).value, after);
    case IssueLink(id, now) =>
      AccountIsGood(s, id);
      CommitKeeps(s, id, LinkIssued(s.accounts[id], Link(s.issued, false, now + HOUR)).value, after);
    case WithdrawLinks(id, factor) =>
      AccountIsGood(s, id);
      WithKeeps(s, id, Withdrawn(s.accounts[id], factor));
    case Redeem(id, link, now) =>
      AccountIsGood(s, id);
      CommitKeeps(s, id, Redeemed(s.accounts[id], link, now).value, after);
    case LocalRecovery(id, resetFactors) =>
      AccountIsGood(s, id);
      CommitKeeps(s, id, LocallyRecovered(s.accounts[id], resetFactors).value, after);
    case SaveMember(id, admin, enabled) =>
      AccountIsGood(s, id);
      WithKeeps(s, id, Saved(s.accounts[id], admin, enabled));
    case ChangePassword(t) =>
      AccountIsGood(s, t.id);
      WithKeeps(s, t.id, PasswordChanged(s.accounts[t.id]));
    case _ =>
  }

  lemma CommitKeeps(s: State, id: nat, a: Account, after: State)
    requires Claims(s) && id < |s.accounts| && Moves(s.accounts[id], a) && GoodAccount(a)
    requires after.accounts == s.accounts[id := a] && after.sessions == s.sessions && after.tickets == s.tickets
    ensures Claims(after)
  {
    hide Claims;
    WithKeeps(s, id, a);
    ClaimsFrame(With(s, id, a), after);
  }

  lemma AddKeeps(s: State, a: Account)
    requires Claims(s) && GoodAccount(a)
    ensures Claims(s.(accounts := s.accounts + [a]))
  {
  }

  lemma InvitationsKeep(s: State, step: Step)
    requires Claims(s) && Invitations(s, step).Ok?
    ensures Claims(Invitations(s, step).value)
  {
    hide Claims;
    match step
    case Bootstrap(username) => AddKeeps(s, NewAccount(username, true));
    case IssueInvite(_, _) => ClaimsFrame(s, Invitations(s, step).value);
    case WithdrawInvite(_) => ClaimsFrame(s, Invitations(s, step).value);
    case RedeemInvite(username, _, _) =>
      AddKeeps(s, NewAccount(username, false));
      ClaimsFrame(s.(accounts := s.accounts + [NewAccount(username, false)]), Invitations(s, step).value);
    case _ =>
  }

  lemma NextKeeps(s: State, step: Step)
    requires Claims(s)
    ensures Claims(Next(s, step))
  {
    hide Claims, Logins, Factors, Totp, Administration, Invitations;
    if Logins(s, step).Ok? {
      LoginsKeep(s, step);
    } else if Factors(s, step).Ok? {
      FactorsKeep(s, step);
    } else if Totp(s, step).Ok? {
      TotpKeeps(s, step);
    } else if Administration(s, step).Ok? {
      AdministrationKeeps(s, step);
    } else if Invitations(s, step).Ok? {
      InvitationsKeep(s, step);
    }
  }

  // ---- codes are used once ---------------------------------------------

  /** Secrets not yet enrolled were never used and are each on their way once; the codes accepted
      for an enrolled secret are at or before its last step; no code was accepted twice. */
  ghost predicate Ledger(s: State) {
    && (forall x :: x in s.setups ==> x.secret < s.issued && Unused(s, x.secret))
    && (forall x, y :: x in s.setups && y in s.setups && x.secret == y.secret ==> x == y)
    && (forall i :: 0 <= i < |s.accounts| && s.accounts[i].totp.Some? ==>
          AtMost(s, s.accounts[i].totp.value, s.accounts[i].lastStep))
    && OneOwner(s)
    && (forall k :: 0 <= k < |s.uses| ==> s.uses[k].secret < s.issued)
    && Ascending(s.uses)
  }

  ghost predicate Unused(s: State, secret: Secret) {
    && (forall k :: 0 <= k < |s.uses| ==> s.uses[k].secret != secret)
    && (forall i :: 0 <= i < |s.accounts| ==> s.accounts[i].totp != Some(secret))
  }

  ghost predicate AtMost(s: State, secret: Secret, step: int) {
    secret < s.issued && forall k :: 0 <= k < |s.uses| && s.uses[k].secret == secret ==> s.uses[k].step <= step
  }

  ghost predicate OneOwner(s: State) {
    forall i, j :: 0 <= i < j < |s.accounts| && s.accounts[i].totp.Some? ==> s.accounts[i].totp != s.accounts[j].totp
  }

  /** The steps accepted for one secret strictly increase. */
  ghost predicate Ascending(uses: seq<Use>) {
    forall j, k :: 0 <= j < k < |uses| && uses[j].secret == uses[k].secret ==> uses[j].step < uses[k].step
  }

  lemma CheckedOnce(s: State, t: Ticket, now: nat, right: int -> bool)
    requires Ledger(s) && Totp(s, CheckTotp(t, now, right)).Ok?
    ensures Ledger(Totp(s, CheckTotp(t, now, right)).value)
  {
    hide StepFor;
    StepForExactly(now, s.accounts[t.id].lastStep, right);
  }

  lemma ConfirmedOnce(s: State, t: Ticket, setup: Setup, codes: set<string>, now: nat, right: int -> bool)
    requires Ledger(s) && Totp(s, ConfirmTotp(t, setup, codes, now, right)).Ok?
    ensures Ledger(Totp(s, ConfirmTotp(t, setup, codes, now, right)).value)
  {
    hide StepFor;
  }

  lemma SetupsKeep(s: State, step: Step)
    requires Ledger(s) && (step.StartTotp? || step.TakeTotp?) && Totp(s, step).Ok?
    ensures Ledger(Totp(s, step).value)
  {
  }

  /** Any other commit may take secrets away from accounts and setups, and touches nothing else. */
  ghost predicate Sheds(s: State, after: State) {
    && after.uses == s.uses && after.issued >= s.issued && after.setups <= s.setups
    && |s.accounts| <= |after.accounts|
    && (forall i :: 0 <= i < |s.accounts| ==>
          after.accounts[i].totp.None?
          || (after.accounts[i].totp == s.accounts[i].totp && after.accounts[i].lastStep == s.accounts[i].lastStep))
    && (forall i :: |s.accounts| <= i < |after.accounts| ==> after.accounts[i].totp.None?)
  }

  lemma ShedKeeps(s: State, after: State)
    requires Ledger(s) && Sheds(s, after)
    ensures Ledger(after)
  {
  }

  lemma OthersShed(s: State, step: Step)
    requires !step.CheckTotp? && !step.ConfirmTotp? && !step.StartTotp? && !step.TakeTotp?
    ensures Sheds(s, Next(s, step))
  {
    hide Logins, Factors, Administration, Invitations;
    if Logins(s, step).Ok? {
      LoginsShed(s, step);
    } else if Factors(s, step).Ok? {
      FactorsShed(s, step);
    } else if Administration(s, step).Ok? {
      AdministrationSheds(s, step);
    } else if Invitations(s, step).Ok? {
      InvitationsShed(s, step);
    }
  }

  lemma InvitationsShed(s: State, step: Step)
    requires Invitations(s, step).Ok?
    ensures Sheds(s, Invitations(s, step).value)
  {
    hide NameTaken;
  }

  lemma LoginsShed(s: State, step: Step)
    requires Logins(s, step).Ok?
    ensures Sheds(s, Logins(s, step).value)
  {
  }

  lemma FactorsShed(s: State, step: Step)
    requires Factors(s, step).Ok?
    ensures Sheds(s, Factors(s, step).value)
  {
    hide KeyTaken;
  }

  lemma AdministrationSheds(s: State, step: Step)
    requires Administration(s, step).Ok?
    ensures Sheds(s, Administration(s, step).value)
  {
  }

  lemma NextOnce(s: State, step: Step)
    requires Ledger(s)
    ensures Ledger(Next(s, step))
  {
    hide Ledger, Logins, Factors, Administration, Invitations;
    match step
    case CheckTotp(t, now, right) =>
      OnlyTotp(s, step);
      if Totp(s, step).Ok? {
        CheckedOnce(s, t, now, right);
      }
    case ConfirmTotp(t, setup, codes, now, right) =>
      OnlyTotp(s, step);
      if Totp(s, step).Ok? {
        ConfirmedOnce(s, t, setup, codes, now, right);
      }
    case StartTotp(_) =>
      OnlyTotp(s, step);
      if Totp(s, step).Ok? {
        SetupsKeep(s, step);
      }
    case TakeTotp(_, _) =>
      OnlyTotp(s, step);
      if Totp(s, step).Ok? {
        SetupsKeep(s, step);
      }
    case _ =>
      OthersShed(s, step);
      ShedKeeps(s, Next(s, step));
  }

  lemma OnlyTotp(s: State, step: Step)
    requires step.CheckTotp? || step.ConfirmTotp? || step.StartTotp? || step.TakeTotp?
    ensures Next(s, step) == if Totp(s, step).Ok? then Totp(s, step).value else s
  {
  }

  // ---- links are used once ---------------------------------------------

  /** Whose a link is: an account's, or a name's that is invited. */
  datatype Owner = OfAccount(id: nat) | OfName(username: string)

  predicate HasLink(s: State, o: Owner, l: Link) {
    match o
    case OfAccount(i) => i < |s.accounts| && l in s.accounts[i].links
    case OfName(u) => u in s.invites && s.invites[u] == l
  }

  /** A link not yet consumed was never redeemed and has one owner, and no link was redeemed twice. */
  ghost predicate LinkLedger(s: State) {
    && (forall o, l :: HasLink(s, o, l) ==> l.hash < s.issued && l.hash !in s.redeemed)
    && (forall o, p, l, m :: HasLink(s, o, l) && HasLink(s, p, m) && l.hash == m.hash ==> o == p && l == m)
    && (forall h :: h in s.redeemed ==> h < s.issued)
    && Distinct(s.redeemed)
  }

  /** Any step but a redemption gives nobody a link, or one owner a link with a new hash. */
  ghost predicate LinksShed(s: State, after: State, owner: Owner, made: Link) {
    && made.hash == s.issued <= after.issued && after.redeemed == s.redeemed
    && forall o, l :: HasLink(after, o, l) ==>
         HasLink(s, o, l) || (o == owner && l == made && s.issued < after.issued)
  }

  lemma LinksShedKeep(s: State, after: State, owner: Owner, made: Link)
    requires LinkLedger(s) && LinksShed(s, after, owner, made)
    ensures LinkLedger(after)
  {
    hide HasLink;
  }

  function Issuer(step: Step): Owner {
    match step
    case ResetFactors(_, id, _) => OfAccount(id)
    case IssueLink(id, _) => OfAccount(id)
    case IssueInvite(username, _) => OfName(username)
    case _ => OfAccount(0)
  }

  function Made(s: State, step: Step): Link {
    match step
    case ResetFactors(_, _, now) => Link(s.issued, true, now + HOUR)
    case IssueLink(_, now) => Link(s.issued, false, now + HOUR)
    case IssueInvite(_, now) => Link(s.issued, false, now + 48 * HOUR)
    case _ => Link(s.issued, false, 0)
  }

  lemma LoginsShedLinks(s: State, step: Step)
    requires Logins(s, step).Ok?
    ensures LinksShed(s, Logins(s, step).value, Issuer(step), Made(s, step))
  {
  }

  lemma FactorsShedLinks(s: State, step: Step)
    requires Factors(s, step).Ok?
    ensures LinksShed(s, Factors(s, step).value, Issuer(step), Made(s, step))
  {
    hide KeyTaken;
  }

  lemma TotpShedsLinks(s: State, step: Step)
    requires Totp(s, step).Ok?
    ensures LinksShed(s, Totp(s, step).value, Issuer(step), Made(s, step))
  {
    hide StepFor;
  }

  lemma AdministrationShedsLinks(s: State, step: Step)
    requires Administration(s, step).Ok? && !step.Redeem?
    ensures LinksShed(s, Administration(s, step).value, Issuer(step), Made(s, step))
  {
  }

  lemma InvitationsShedLinks(s: State, step: Step)
    requires Invitations(s, step).Ok? && !step.RedeemInvite?
    ensures LinksShed(s, Invitations(s, step).value, Issuer(step), Made(s, step))
  {
    hide NameTaken;
  }

  /** A redemption takes the link from its owner and gives nobody another. */
  lemma RedeemedOnce(s: State, after: State, owner: Owner, link: Link)
    requires LinkLedger(s) && HasLink(s, owner, link)
    requires after.redeemed == s.redeemed + [link.hash] && after.issued == s.issued
    requires forall o, l :: HasLink(after, o, l) ==> HasLink(s, o, l) && (o, l) != (owner, link)
    ensures LinkLedger(after)
  {
    hide HasLink;
  }

  lemma AccountRedeems(s: State, id: nat, link: Link, now: nat)
    requires LinkLedger(s) && Administration(s, Redeem(id, link, now)).Ok?
    ensures LinkLedger(Administration(s, Redeem(id, link, now)).value)
  {
    hide LinkLedger;
    var after := Administration(s, Redeem(id, link, now)).value;
    RedeemedOnce(s, after, OfAccount(id), link);
  }

  lemma InviteRedeems(s: State, username: string, link: Link, now: nat)
    requires LinkLedger(s) && Invitations(s, RedeemInvite(username, link, now)).Ok?
    ensures LinkLedger(Invitations(s, RedeemInvite(username, link, now)).value)
  {
    hide LinkLedger, NameTaken;
    var after := Invitations(s, RedeemInvite(username, link, now)).value;
    RedeemedOnce(s, after, OfName(username), link);
  }

  lemma NextLinksOnce(s: State, step: Step)
    requires LinkLedger(s)
    ensures LinkLedger(Next(s, step))
  {
    hide LinkLedger, LinksShed, Logins, Factors, Totp, Administration, Invitations, Issuer, Made;
    if Logins(s, step).Ok? {
      LoginsShedLinks(s, step);
      LinksShedKeep(s, Next(s, step), Issuer(step), Made(s, step));
    } else if Factors(s, step).Ok? {
      FactorsShedLinks(s, step);
      LinksShedKeep(s, Next(s, step), Issuer(step), Made(s, step));
    } else if Totp(s, step).Ok? {
      TotpShedsLinks(s, step);
      LinksShedKeep(s, Next(s, step), Issuer(step), Made(s, step));
    } else if Administration(s, step).Ok? {
      if step.Redeem? {
        AccountRedeems(s, step.id, step.link, step.now);
      } else {
        AdministrationShedsLinks(s, step);
        LinksShedKeep(s, Next(s, step), Issuer(step), Made(s, step));
      }
    } else if Invitations(s, step).Ok? {
      if step.RedeemInvite? {
        InviteRedeems(s, step.username, step.link, step.now);
      } else {
        InvitationsShedLinks(s, step);
        LinksShedKeep(s, Next(s, step), Issuer(step), Made(s, step));
      }
    }
  }

  // ---- runs ------------------------------------------------------------

  const START: State := State([], {}, {}, {}, 0, [], [], map[])

  function Run(s: State, steps: seq<Step>): State {
    if steps == [] then s else Next(Run(s, steps[..|steps| - 1]), steps[|steps| - 1])
  }

  lemma {:induction false} RunKeeps(steps: seq<Step>)
    ensures Claims(Run(START, steps)) && Ledger(Run(START, steps)) && LinkLedger(Run(START, steps))
  {
    hide Next;
    if steps != [] {
      hide Claims, Ledger, LinkLedger;
      RunKeeps(steps[..|steps| - 1]);
      NextKeeps(Run(START, steps[..|steps| - 1]), steps[|steps| - 1]);
      NextOnce(Run(START, steps[..|steps| - 1]), steps[|steps| - 1]);
      NextLinksOnce(Run(START, steps[..|steps| - 1]), steps[|steps| - 1]);
    }
  }

  /** A session is accepted when it passed a factor and its generation is still the account's. */
  predicate Accepted(s: State, x: Session) {
    x in s.sessions && x.Full? && x.id < |s.accounts| && Identity(s.accounts[x.id], x.generation)
  }

  /** Main theorem. In every interleaving of logins, recoveries, factor changes and administration:
      an account whose session is accepted has a factor and is not locked; while an account is
      locked, no session of either kind carries its generation, and it has no factor and no code;
      and a password alone leads to enrolment only on an account without factors. */
  lemma SessionsAndFactors(steps: seq<Step>)
    ensures var s := Run(START, steps);
      && (forall x :: Accepted(s, x) ==> HasFactor(s.accounts[x.id]) && !s.accounts[x.id].locked)
      && (forall i :: 0 <= i < |s.accounts| && s.accounts[i].locked ==>
            && !HasFactor(s.accounts[i]) && s.accounts[i].codes == {}
            && forall x :: x in s.sessions && x.id == i ==> x.generation < s.accounts[i].generation)
      && (forall x :: x in s.sessions && x.Waiting? && x.enroll && x.id < |s.accounts| ==>
            (s.accounts[x.id].generation == x.generation ==> !HasFactor(s.accounts[x.id])))
  {
    RunKeeps(steps);
  }

  /** A handler that may enrol, still the one authenticated. */
  predicate Entitled(s: State, t: Ticket, id: nat)
    requires id < |s.accounts|
  {
    t in s.tickets && MayEnroll(t) && t.id == id && Identity(s.accounts[id], t.generation)
  }

  /** In state `s` the step proves account `id` at this generation: a handler that logged in with the
      password gets a code accepted for the enrolled secret, a passkey of the account is asserted, or
      a factor is enrolled or changed, which makes the generation. */
  predicate Proves(s: State, step: Step, id: nat, generation: nat) {
    && id < |s.accounts|
    && var a := s.accounts[id];
       match step
       case CheckTotp(t, now, right) =>
         && t in s.tickets && t.Inside? && t.session.Waiting? && t.id == id && t.generation == generation
         && Identity(a, generation) && a.totp.Some? && StepFor(now, a.lastStep, right).Some?
       case PasskeyFinish(t) =>
         && t in s.tickets && t.KeyFound? && t.id == id && t.generation == generation
         && Identity(a, generation) && t.key in a.passkeys
       case ConfirmTotp(t, setup, _, now, right) =>
         && ChangesFactors(s, t, id, generation) && setup in s.setups && setup.taken && setup.id == id
         && StepFor(now, -1, right).Some?
       case Register(t, key, _) => ChangesFactors(s, t, id, generation) && !KeyTaken(s.accounts, key)
       case RemoveTotp(t) => ChangesFactors(s, t, id, generation) && SignedIn(t)
       case RemoveKey(t, _) => ChangesFactors(s, t, id, generation) && SignedIn(t)
       case NewCodes(t, _) => ChangesFactors(s, t, id, generation) && SignedIn(t)
       case _ => false
  }

  predicate ChangesFactors(s: State, t: Ticket, id: nat, generation: nat)
    requires id < |s.accounts|
  {
    Entitled(s, t, id) && t.generation + 1 == generation
  }

  /** Some step of the run proved the account at this generation. */
  ghost predicate WasProven(steps: seq<Step>, id: nat, generation: nat) {
    exists k :: 0 <= k < |steps| && Proves(Run(START, steps[..k]), steps[k], id, generation)
  }

  lemma ProvenBefore(steps: seq<Step>, n: nat, id: nat, generation: nat)
    requires n <= |steps| && WasProven(steps[..n], id, generation)
    ensures WasProven(steps, id, generation)
  {
    hide Proves, Run;
    var k :| 0 <= k < n && Proves(Run(START, steps[..n][..k]), steps[..n][k], id, generation);
    assert steps[..n][..k] == steps[..k];
  }

  lemma TicketBy(s: State, step: Step, id: nat, generation: nat)
    requires Proven(id, generation) in Next(s, step).tickets
    ensures Proven(id, generation) in s.tickets || Proves(s, step, id, generation)
  {
    hide Logins, Factors, Totp, Administration, Invitations, Proves;
    if Logins(s, step).Ok? {
      LoginsProve(s, step, id, generation);
    } else if Factors(s, step).Ok? {
      FactorsProve(s, step, id, generation);
    } else if Totp(s, step).Ok? {
      TotpProves(s, step, id, generation);
    } else if Administration(s, step).Ok? {
      AdministrationProvesNone(s, step, id, generation);
    } else if Invitations(s, step).Ok? {
      InvitationsProveNone(s, step);
    }
  }

  lemma LoginsProve(s: State, step: Step, id: nat, generation: nat)
    requires Logins(s, step).Ok? && Proven(id, generation) in Logins(s, step).value.tickets
    ensures Proven(id, generation) in s.tickets || Proves(s, step, id, generation)
  {
  }

  lemma FactorsProve(s: State, step: Step, id: nat, generation: nat)
    requires Factors(s, step).Ok? && Proven(id, generation) in Factors(s, step).value.tickets
    ensures Proven(id, generation) in s.tickets || Proves(s, step, id, generation)
  {
    hide KeyTaken;
  }

  lemma TotpProves(s: State, step: Step, id: nat, generation: nat)
    requires Totp(s, step).Ok? && Proven(id, generation) in Totp(s, step).value.tickets
    ensures Proven(id, generation) in s.tickets || Proves(s, step, id, generation)
  {
    hide StepFor;
  }

  lemma AdministrationProvesNone(s: State, step: Step, id: nat, generation: nat)
    requires Administration(s, step).Ok? && Proven(id, generation) in Administration(s, step).value.tickets
    ensures Proven(id, generation) in s.tickets
  {
  }

  lemma InvitationsProveNone(s: State, step: Step)
    requires Invitations(s, step).Ok?
    ensures Invitations(s, step).value.tickets == s.tickets
  {
    hide NameTaken;
  }

  /** Full sessions are made only by signing in, with the ticket of a proof. */
  lemma SessionBy(s: State, step: Step, x: Session)
    requires x.Full? && x in Next(s, step).sessions
    ensures x in s.sessions || Proven(x.id, x.generation) in s.tickets
  {
    hide Factors, Totp, Administration, Invitations;
    if Logins(s, step).Rejected? {
      OthersSaveNone(s, step);
    }
  }

  lemma OthersSaveNone(s: State, step: Step)
    ensures Logins(s, step).Rejected? ==> Next(s, step).sessions == s.sessions
  {
    hide Logins, StepFor, KeyTaken, NameTaken;
  }

  lemma {:induction false} TicketsWereProven(steps: seq<Step>, id: nat, generation: nat)
    requires Proven(id, generation) in Run(START, steps).tickets
    ensures WasProven(steps, id, generation)
  {
    assert steps != [];
    hide Next, Proves;
    var n := |steps| - 1;
    TicketBy(Run(START, steps[..n]), steps[n], id, generation);
    if Proven(id, generation) in Run(START, steps[..n]).tickets {
      TicketsWereProven(steps[..n], id, generation);
      ProvenBefore(steps, n, id, generation);
    }
  }

  /** Main theorem. Every full session, in every run, goes back to a step that proved its account at
      its generation: an accepted code, an asserted passkey, or a factor change. */
  lemma {:induction false} SessionsWereProven(steps: seq<Step>, x: Session)
    requires x.Full? && x in Run(START, steps).sessions
    ensures WasProven(steps, x.id, x.generation)
  {
    assert steps != [];
    hide Next, WasProven;
    var n := |steps| - 1;
    SessionBy(Run(START, steps[..n]), steps[n], x);
    if x in Run(START, steps[..n]).sessions {
      SessionsWereProven(steps[..n], x);
    } else {
      TicketsWereProven(steps[..n], x.id, x.generation);
    }
    ProvenBefore(steps, n, x.id, x.generation);
  }

  /** No code is ever accepted twice, over all accounts, secrets and handlers, and the steps
      accepted for one secret strictly increase from the one that enrolled it. */
  lemma CodesAreUsedOnce(steps: seq<Step>)
    ensures var uses := Run(START, steps).uses;
      Distinct(uses) && Ascending(uses)
  {
    RunKeeps(steps);
  }

  /** No link is redeemed twice, invitations included, over all accounts and under any interleaving. */
  lemma LinksAreUsedOnce(steps: seq<Step>)
    ensures Distinct(Run(START, steps).redeemed)
  {
    RunKeeps(steps);
  }

  /** A lock ends only by redeeming the link that came with the reset, or by local recovery of an
      administrator. */
  lemma LockEndsBy(s: State, step: Step, id: nat)
    requires id < |s.accounts| && s.accounts[id].locked
    requires id < |Next(s, step).accounts| && !Next(s, step).accounts[id].locked
    ensures (step.Redeem? && step.id == id && step.link.factor && step.link in s.accounts[id].links)
         || (step.LocalRecovery? && step.id == id && step.resetFactors && s.accounts[id].admin)
  {
    hide Logins, Factors, Totp, Administration, Invitations;
    if Logins(s, step).Ok? {
      LoginsLeave(s, step);
    } else if Factors(s, step).Ok? {
      FactorsAdd(s, step, id);
    } else if Totp(s, step).Ok? {
      TotpAdds(s, step, id);
    } else if Administration(s, step).Ok? {
      AdministrationUnlocks(s, step, id);
    } else if Invitations(s, step).Ok? {
      InvitationsAdd(s, step, id);
    }
  }

  lemma AdministrationUnlocks(s: State, step: Step, id: nat)
    requires Administration(s, step).Ok? && id < |s.accounts| && s.accounts[id].locked
    requires id < |Administration(s, step).value.accounts| && !Administration(s, step).value.accounts[id].locked
    ensures (step.Redeem? && step.id == id && step.link.factor && step.link in s.accounts[id].links)
         || (step.LocalRecovery? && step.id == id && step.resetFactors && s.accounts[id].admin)
  {
  }

  /** `step` gives account `id` a passkey or a TOTP secret it did not have. */
  predicate Adds(s: State, step: Step, id: nat) {
    Gains(s, Next(s, step), id)
  }

  predicate Gains(s: State, after: State, id: nat) {
    && id < |s.accounts| && id < |after.accounts|
    && var a, b := s.accounts[id], after.accounts[id];
       !(b.passkeys <= a.passkeys) || (b.totp != a.totp && b.totp.Some?)
  }

  /** A factor is added to an account that has one only by a handler of a session that passed one. */
  lemma OnlySignedInAdds(steps: seq<Step>, step: Step, id: nat)
    requires Adds(Run(START, steps), step, id) && HasFactor(Run(START, steps).accounts[id])
    ensures (step.Register? || step.ConfirmTotp?) && step.t.Inside? && step.t.session.Full?
    ensures step.t in Run(START, steps).tickets && step.t.id == id
  {
    hide Run, Ledger, LinkLedger, Next;
    RunKeeps(steps);
    OnlyMayEnrollAdds(Run(START, steps), step, id);
    EnrollsBare(Run(START, steps), step.t);
  }

  lemma OnlyMayEnrollAdds(s: State, step: Step, id: nat)
    requires Adds(s, step, id)
    ensures (step.Register? || step.ConfirmTotp?) && Entitled(s, step.t, id)
  {
    hide Logins, Factors, Totp, Administration, Invitations, Entitled;
    if Logins(s, step).Ok? {
      LoginsLeave(s, step);
    } else if Factors(s, step).Ok? {
      FactorsAdd(s, step, id);
    } else if Totp(s, step).Ok? {
      TotpAdds(s, step, id);
    } else if Administration(s, step).Ok? {
      AdministrationAddsNone(s, step, id);
    } else if Invitations(s, step).Ok? {
      InvitationsAdd(s, step, id);
    }
  }

  lemma LoginsLeave(s: State, step: Step)
    requires Logins(s, step).Ok?
    ensures Logins(s, step).value.accounts == s.accounts
  {
  }

  lemma FactorsAdd(s: State, step: Step, id: nat)
    requires Factors(s, step).Ok?
    ensures Gains(s, Factors(s, step).value, id) ==> step.Register? && Entitled(s, step.t, id)
    ensures id < |s.accounts| ==>
      id < |Factors(s, step).value.accounts| && Factors(s, step).value.accounts[id].locked == s.accounts[id].locked
  {
    hide KeyTaken;
  }

  lemma TotpAdds(s: State, step: Step, id: nat)
    requires Totp(s, step).Ok?
    ensures Gains(s, Totp(s, step).value, id) ==> step.ConfirmTotp? && Entitled(s, step.t, id)
    ensures id < |s.accounts| ==>
      id < |Totp(s, step).value.accounts| && Totp(s, step).value.accounts[id].locked == s.accounts[id].locked
  {
    hide StepFor;
  }

  lemma InvitationsAdd(s: State, step: Step, id: nat)
    requires Invitations(s, step).Ok? && id < |s.accounts|
    ensures id < |Invitations(s, step).value.accounts| && Invitations(s, step).value.accounts[id] == s.accounts[id]
  {
    hide NameTaken;
  }

  lemma AdministrationAddsNone(s: State, step: Step, id: nat)
    requires Administration(s, step).Ok?
    ensures !Gains(s, Administration(s, step).value, id)
  {
  }

  /** A handler waiting to enrol commits only where there is no factor. */
  lemma EnrollsBare(s: State, t: Ticket)
    requires Claims(s) && t in s.tickets && MayEnroll(t)
    ensures t.id < |s.accounts|
    ensures Identity(s.accounts[t.id], t.generation) && HasFactor(s.accounts[t.id]) ==> t.session.Full?
  {
    TicketHolds(s, t);
  }

  // ---- the transactions as they run ------------------------------------

  /** A transaction on one row is refused exactly where the model refuses it; otherwise it commits
      what the model says, or changes nothing when the database does not accept the commit. */
  ghost predicate Commits(before: seq<Account>, id: nat, changed: Result<Account>, accepting: bool,
                          o: Commitment, after: seq<Account>)
    requires id < |before|
  {
    && o == (if changed.Rejected? then Refused else if accepting then Committed else RolledBack)
    && after == (if o == Committed then before[id := changed.value] else before)
  }

  /** The same for a transaction that also deletes the account's challenges. */
  ghost predicate Clears(before: seq<Account>, setups: set<Setup>, id: nat, changed: Result<Account>, accepting: bool,
                         o: Commitment, after: seq<Account>, left: set<Setup>)
    requires id < |before|
  {
    && Commits(before, id, changed, accepting, o, after)
    && left == (if o == Committed then Without(setups, id) else setups)
  }

  /** The account rows, with their factors, challenges and invitations, and the transactions that
      change them. */
  class Vault {
    var rows: seq<Account>
    var setups: set<Setup>
    var invites: map<string, Link>
    var accepting: bool   // whether the database will accept the next commit

    constructor (accepting: bool)
      ensures rows == [] && setups == {} && invites == map[] && this.accepting == accepting
    {
      rows, setups, invites, this.accepting := [], {}, map[], accepting;
    }

    method Commit(id: nat, row: Account) returns (o: Commitment)
      requires id < |rows|
      modifies this`rows
      ensures o == (if accepting then Committed else RolledBack)
      ensures rows == (if accepting then old(rows)[id := row] else old(rows))
    {
      o := RolledBack;
      if accepting {
        rows := rows[id := row];
        o := Committed;
      }
    }

    method CommitClear(id: nat, row: Account, left: set<Setup>) returns (o: Commitment)
      requires id < |rows|
      modifies this`rows, this`setups
      ensures o == (if accepting then Committed else RolledBack)
      ensures rows == (if accepting then old(rows)[id := row] else old(rows))
      ensures setups == (if accepting then left else old(setups))
    {
      o := Commit(id, row);
      if o == Committed {
        setups := left;
      }
    }

    method CheckTotp(id: nat, generation: nat, now: nat, right: int -> bool) returns (o: Commitment)
      requires id < |rows|
      modifies this`rows
      ensures Commits(old(rows), id, Checked(old(rows)[id], generation, now, right), accepting, o, rows)
    {
      hide StepFor;
      var row := rows[id];
      if !Identity(row, generation) || row.totp.None? {
        return Refused;
      }
      var step := ValidStep(now, row.lastStep, right);
      if step.None? {
        return Refused;
      }
      o := Commit(id, row.(lastStep := step.value));
    }

    /** The code is checked before the transaction, against no earlier step. */
    method ConfirmTotp(id: nat, generation: nat, secret: Secret, codes: set<string>, now: nat, right: int -> bool)
      returns (o: Commitment)
      requires id < |rows|
      modifies this`rows
      ensures Commits(old(rows), id, Enrolled(old(rows)[id], generation, secret, codes, now, right), accepting, o, rows)
    {
      hide StepFor;
      var step := ValidStep(now, -1, right);
      if step.None? || !Identity(rows[id], generation) {
        return Refused;
      }
      var row := rows[id].(totp := Some(secret), lastStep := step.value);
      row := row.(codes := {});
      row := row.(codes := codes);
      row := row.(generation := row.generation + 1);
      o := Commit(id, row);
    }

    method FinishRegistration(id: nat, generation: nat, key: string, codes: set<string>) returns (o: Commitment)
      requires id < |rows|
      modifies this`rows
      ensures Commits(old(rows), id, Registered(old(rows), id, generation, key, codes), accepting, o, rows)
    {
      var row := rows[id];
      if !Identity(row, generation) || KeyTaken(rows, key) {
        return Refused;
      }
      row := row.(passkeys := row.passkeys + {key});
      if row.codes == {} {
        row := row.(codes := codes);
      }
      row := row.(generation := row.generation + 1);
      o := Commit(id, row);
    }

    method RemoveTotp(id: nat, generation: nat) returns (o: Commitment)
      requires id < |rows|
      modifies this`rows
      ensures Commits(old(rows), id, TotpRemoved(old(rows)[id], generation), accepting, o, rows)
    {
      var row := rows[id];
      if !Identity(row, generation) || |row.passkeys| == 0 {
        return Refused;
      }
      row := row.(totp := None, lastStep := -1);
      row := row.(generation := row.generation + 1);
      o := Commit(id, row);
    }

    method RemoveKey(id: nat, generation: nat, key: string) returns (o: Commitment)
      requires id < |rows|
      modifies this`rows
      ensures Commits(old(rows), id, KeyRemoved(old(rows)[id], generation, key), accepting, o, rows)
    {
      var row := rows[id];
      if !Identity(row, generation) {
        return Refused;
      }
      var n := |row.passkeys| + (if row.totp.Some? then 1 else 0);
      if n < 2 || key !in row.passkeys {
        return Refused;
      }
      row := row.(passkeys := row.passkeys - {key});
      row := row.(generation := row.generation + 1);
      o := Commit(id, row);
    }

    /** The statements that clear an account's factors and challenges, in order, within a transaction. */
    static method ClearFactors(a: Account, id: nat, setups: set<Setup>) returns (row: Account, left: set<Setup>)
      ensures row == Cleared(a) && left == Without(setups, id)
    {
      row := a.(passkeys := {});
      row := row.(codes := {});
      left := setups - (set c | c in setups && c.id == id && !c.taken);
      row := row.(totp := None, lastStep := -1);
      row := row.(links := {});
      row := row.(generation := row.generation + 1);
    }

    method UseRecoveryCode(id: nat, code: string) returns (o: Commitment)
      requires id < |rows|
      modifies this`rows, this`setups
      ensures Clears(old(rows), old(setups), id, RecoveryUsed(old(rows)[id], code), accepting, o, rows, setups)
    {
      if !rows[id].enabled || code !in rows[id].codes {
        return Refused;
      }
      var row, left := ClearFactors(rows[id], id, setups);
      o := CommitClear(id, row, left);
    }

    method ResetFactors(actor: nat, generation: nat, id: nat, link: Link) returns (o: Commitment)
      requires actor < |rows| && id < |rows|
      modifies this`rows, this`setups
      ensures Clears(old(rows), old(setups), id, FactorsReset(old(rows), actor, generation, id, link), accepting, o,
                     rows, setups)
    {
      if !rows[actor].admin || id == actor || !Identity(rows[actor], generation) || !rows[id].enabled {
        return Refused;
      }
      var row, left := ClearFactors(rows[id], id, setups);
      row := row.(locked := true);
      row := row.(links := row.links + {link});
      assert row.links == {link};
      o := CommitClear(id, row, left);
    }

    method IssueReset(id: nat, link: Link) returns (o: Commitment)
      requires id < |rows|
      modifies this`rows
      ensures Commits(old(rows), id, LinkIssued(old(rows)[id], link), accepting, o, rows)
    {
      var row := rows[id];
      if !row.enabled {
        return Refused;
      }
      row := row.(links := row.links - (set l | l in row.links && !l.factor));
      row := row.(links := row.links + {link});
      assert row.links == (set l | l in rows[id].links && l.factor) + {link};
      o := Commit(id, row);
    }

    method Redeem(id: nat, link: Link, now: nat) returns (o: Commitment)
      requires id < |rows|
      modifies this`rows
      ensures Commits(old(rows), id, Redeemed(old(rows)[id], link, now), accepting, o, rows)
    {
      var row := rows[id];
      if link !in row.links || link.expires <= now || !row.enabled {
        return Refused;
      }
      row := row.(generation := row.generation + 1, locked := if link.factor then false else row.locked);
      row := row.(links := row.links - {link});
      o := Commit(id, row);
    }

    method IssueInvite(username: string, link: Link) returns (o: Commitment)
      modifies this`invites
      ensures var invited := Invited(rows, old(invites), username, link);
        && o == (if invited.Rejected? then Refused else if accepting then Committed else RolledBack)
        && invites == if o == Committed then invited.value else old(invites)
    {
      if !ValidName(username) || NameTaken(rows, username) {
        return Refused;
      }
      var next := invites - {username};
      next := next[username := link];
      assert next == invites[username := link];
      o := RolledBack;
      if accepting {
        invites := next;
        o := Committed;
      }
    }

    /** Account and invitation change together. */
    method RedeemInvite(username: string, link: Link, now: nat) returns (o: Commitment)
      modifies this`rows, this`invites
      ensures var joined := Joined(old(rows), old(invites), username, link, now);
        && o == (if joined.Rejected? then Refused else if accepting then Committed else RolledBack)
        && (rows, invites) == if o == Committed then joined.value else (old(rows), old(invites))
    {
      if username !in invites || invites[username] != link || link.expires <= now {
        return Refused;
      }
      if NameTaken(rows, username) {
        return Refused;
      }
      o := RolledBack;
      if accepting {
        rows := rows + [NewAccount(username, false)];
        invites := invites - {username};
        o := Committed;
      }
    }

    method RecoverAccount(id: nat, resetFactors: bool) returns (o: Commitment)
      requires id < |rows|
      modifies this`rows, this`setups
      ensures var recovered := LocallyRecovered(old(rows)[id], resetFactors);
        && Commits(old(rows), id, recovered, accepting, o, rows)
        && setups == if o == Committed && resetFactors then Without(old(setups), id) else old(setups)
    {
      if !rows[id].admin {
        return Refused;
      }
      var row := rows[id].(enabled := true, generation := rows[id].generation + 1);
      row := row.(links := {});
      var left := setups;
      if resetFactors {
        row, left := ClearFactors(row, id, setups);
        row := row.(locked := false);
      }
      o := CommitClear(id, row, left);
    }
  }
}
