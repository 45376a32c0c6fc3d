# Waypoint: a verified model

Waypoint is a request desk with an optional WireGuard gateway. The portal keeps accounts, services,
access records, devices and network grants in SQLite and derives from them a hashed network policy.
The gateway polls that policy, stores it, installs it in its kernel and acknowledges it; the portal
hands out a connection pack only against an acknowledgment. This project models the network-policy
pipeline, the account, session and factor machine, the mail outbox, the request and access
lifecycle and the rate limiter, and proves properties of them in Dafny 4.11.

`dafny verify dfyconfig.toml` checks everything.

## The files

| file | models |
|---|---|
| `Base.dfy` | options, results, pigeonhole |
| `Ports.dfy`, `Prefixes.dfy` | port lists as text, IPv4 prefixes |
| `Keys.dfy` | the text form of WireGuard keys |
| `Policy.dfy` | snapshots, `Destination`, `Validate`, `Active` |
| `Rulesets.dfy` | the compiler from a policy to a packet filter, and the filter's meaning |
| `GatewayLog.dfy` | what the agent does to its machine, as a log, and the order it keeps |
| `Gateway.dfy` | the agent over a machine whose commands may fail or be cut off by a crash |
| `Catalog.dfy` | accounts, services, who may see what |
| `Records.dfy` | access records, their history and follow-ups |
| `Network.dfy` | devices, targets, grants, deliveries |
| `Snapshots.dfy` | the policy query and why the gateway accepts its result |
| `Deliveries.dfy` | handing out a pack |
| `Portal.dfy` | all portal transactions as one state machine |
| `Effects.dfy` | what each portal transaction does and when it is refused, row by row |
| `Lifetimes.dfy` | what makes and ends devices, approvals and access, and what the policy holds |
| `Store.dfy` | the same transactions as they run, row update by row update |
| `System.dfy` | portal, gateway and acknowledgments together |
| `Scenario.dfy` | one concrete run of them, step by step |
| `Requests.dfy` | service requests with interleaved reads and commits |
| `Moves.dfy` | who may open, answer and move a request, and who did |
| `Accounts.dfy` | logins, factors, sessions, one-time codes |
| `Credentials.dfy` | what each step does to an account, spent codes, ended sessions, who gets in |
| `Outbox.dfy` | mail workers, leases, retries |
| `Limiter.dfy` | the rate limiter |

Transactions are written twice where the program runs them as statements: as a function that the
theorems speak of, and as a method that makes the updates one by one and is proved to have exactly
the function's effect, to be refused exactly when the function refuses, and to change nothing when
the database does not accept the commit. What a function does is then said once more without it, in
terms of the rows before and after and with every bound written out (`Effects.dfy`, `Moves.dfy`,
`Credentials.dfy`), together with exactly when it is refused.

## Results

- From end to end: a packet the gateway forwards, out of the tunnel or back into it, was approved by
  a portal state the policy came from, or answers one that was (`System.ForwardedWasApproved`). Once
  the policy of a state in which a device is revoked has been stored and forwarding blocked, nothing
  from or to that device's address is forwarded again (`System.RevokedStaysOut`), and a grant closed
  in it justifies no forwarded packet again (`System.ClosedGrantStaysOut`), over all runs with failing
  commands and crashes.
- A pack is handed out only if the policy of that very moment had been on the gateway's disk and in
  its kernel, at most once for a device, with exactly the approved routes (`System.PacksAreTruthful`).
  It is in the kernel at that moment if and only if forwarding was not blocked since that policy was
  last loaded (`System.InForceExactly`). The guide in `docs/vpn.md` promises a fresh acknowledgment
  of the current policy and no more; `Scenario.HandedOutWhileBlocked` is a concrete run that hands
  out a pack while the kernel is deny-all.
- A tick of the agent with local commands that work always polls, adopts a valid answer, has it in
  force at the end and then ends as posting its acknowledgment did; a valid answer is what the agent
  wants from then on even when applying it fails (`Gateways.Gateway.Tick`).
- Nothing ends or begins by accident: a device is revoked, an approval is live, a pair has access after
  a transaction if and only if a short condition on the transaction and the time holds
  (`Lifetimes.DevicesEndExactly`, `ApprovalsExactly`, `AccessExactly`), an approval left alone stays as
  it is over any run (`ApprovalLasts`), reconciliation changes neither the policy nor anybody's access
  (`Effects.ReconciliationMeans`), and the policy holds exactly the grants that belong in it
  (`Lifetimes.PolicyExactly`).
- Every reachable portal state yields a policy the gateway's validator accepts
  (`Portal.EveryReachableState`), and compiling a policy preserves its meaning (`Rulesets.RulesetMeans`).
- In every state of the agent's machine, in the middle of an apply and after any crash, WireGuard holds
  the live part of the policy whose rules the kernel holds (`Gateways.World.Valid`), so whoever
  requests what the kernel forwards is a configured peer (`Gateways.ForwardedIsSynced`). Every policy
  received is the answer to the last poll, once (`GatewayLog.ReceivedWasPolled`).
- Sessions and factors hold together under every interleaving (`Accounts.SessionsAndFactors`). Every
  full session goes back to a step of the run that proved its account at its generation: an accepted
  code, an asserted passkey or a factor change (`Accounts.SessionsWereProven`). No one-time code is
  accepted and no link or invitation redeemed twice (`Accounts.CodesAreUsedOnce`,
  `Accounts.LinksAreUsedOnce`), a recovery code is spent when it is accepted
  (`Credentials.RecoveryCodesAreSpent`), and once an account's generation rises, by a redeemed link or
  a changed password for instance, no session from before is ever accepted again
  (`Credentials.OldSessionsEnd`). Conversely whoever has the password and a right code, or a passkey,
  gets in (`Credentials.CodeGetsIn`, `EnrolmentGetsIn`, `PasskeyGetsIn`).
- In every run, honest or not, what only administrators may decide about a request was decided by one,
  so a request gives access only by an administrator's hand (`Moves.DecidedByAdministrators`,
  `Moves.GrantedByAdministrators`).
- Requests change as if every operation ran without interruption (`Requests.RunsAreSerial`), with one
  exception in the code. `Reply` guards its update by the version the form carries but chooses the
  next state, and whether replying is allowed at all, from the request it read earlier. A form that
  carries a version later than the one read can therefore act on a request closed in between and
  reopen it. `Requests.ReplyAtomicExactly` shows that the reply is atomic under every interleaving if
  and only if the version it carries is not later than the one read; `Requests.ReopenedByReply` is a
  concrete run in which a cancelled request is reopened. `Transition` guards the state as well and
  has no such exception. The promise in the code's own message, that a closed request takes no
  replies, is kept by every run whose replies carry no such version (`Requests.ClosedTakesNoReply`).
- The rate limiter allows fewer than twice its maximum in any interval of one window's length, and
  the bound `2 * max - 1` is met (`Limiter.IntervalBound`, `Limiter.IntervalBoundIsMet`).

## Assumptions

- Clocks never go backwards. The portal counts whole seconds, the gateway nanoseconds.
- The policy hash is injective: a digest carries the peers it was taken of.
- Secrets, leases and TOTP secrets are fresh; identifiers are positive and never reused.
- A transaction commits all of its updates or none. Files are replaced atomically.
- The control socket delivers the portal's answers unchanged: a poll that brings a policy brings the
  portal's policy of that moment.

Some names are bookkeeping of the model and not columns: the operation that closed a grant
(`closing`), the packs handed out (`released`), the failures since the last retry, the history of
codes accepted, and how the commands of the agent's last tick ended (`faults`, `polled`, `posted`,
`blocks`). History rows and follow-ups are kept with the row they belong to. An observation made
before a transaction begins is a parameter of it, so it may be stale; `offered`, `visible`, `needed`
and `asked` are of this kind. Sessions and challenges may be used at any time in the account
model, which allows more runs than their time limits do; links end at their expiry.

## Model

| member | source | states |
|---|---|---|
| Ports.CheckPorts | internal/vpn/policy.go:74-91 | the checking loop accepts exactly the texts that print 1 to 32 ports or ascending ranges within 1 to 65535 |
| Ports.ParsePrints | internal/vpn/policy.go:74-91 | printing an accepted list gives the input text back |
| Ports.PrintParses | internal/vpn/policy.go:74-91 | every valid list is accepted in its printed form and read back unchanged |
| Ports.AcceptedExactly | internal/vpn/policy.go:74-91 | accepted texts are exactly the printed valid lists |
| Prefixes.OverlapsExactly | internal/vpn/policy.go:61-70 | two canonical prefixes overlap by the code's test exactly when they share an address |
| Prefixes.CanonicalRange | internal/vpn/policy.go:61-62 | a canonical prefix contains exactly one aligned range of addresses |
| Keys.ValidKeysExactly | internal/vpn/policy.go:42-45 | a key is accepted exactly when it is the standard base64 text of 32 bytes that are not all zero |
| Policy.ReservedExactly | internal/vpn/policy.go:65-66 | the reserved prefixes cover exactly the pool, 0/8, 127/8, 169.254/16 and 224/3 |
| Policy.Destination | internal/vpn/policy.go:60-93 | accepts exactly the canonical prefixes of 1 to 32 bits sharing no address with a reserved block, over tcp or udp, with a valid port list |
| Policy.Validate | internal/vpn/policy.go:100-133 | accepts exactly: right hash, at most 253 peers, distinct ids, keys and pool addresses, at most 1024 valid rules with distinct ids in all |
| Policy.ValidatePeers | internal/vpn/policy.go:104-131 | the peer loop, with its maps of what was seen, decides validity of the whole list |
| Policy.ValidateRules | internal/vpn/policy.go:118-130 | the rule loop, continuing the counts and identifiers of the peers before |
| Policy.Active | internal/vpn/policy.go:134-151 | the live part of a policy at an instant |
| Policy.ActivePeersExactly | internal/vpn/policy.go:134-151 | a peer survives with exactly its unexpired rules and only if it has one |
| Policy.ActiveStable | internal/vpn/policy.go:134-151 | the live part does not change while all of its rules stay unexpired |
| Policy.ActiveTwice | internal/vpn/gateway.go:169-188 | taking the live part when syncing peers and again when compiling is taking it once |
| Rulesets.Ruleset | internal/vpn/policy.go:155-185 | both emitting loops together produce the compiled filter of the policy |
| Rulesets.RulesetMeans | internal/vpn/policy.go:153-185 | a packet is forwarded exactly when it is IPv4, not ct-invalid, and requests under a running rule of the peer owning its source, or answers one as established |
| Rulesets.ForwardedIsRequested | internal/vpn/policy.go:153-154 | what is forwarded is a request, or answers one as part of an established flow, under the same running rule |
| Rulesets.ExpiryBound | internal/vpn/policy.go:161-169 | no rule runs past its expiry by more than the delay between reading the clock and loading |
| Rulesets.RunningExactly | internal/vpn/policy.go:161-169 | a rule runs for the whole seconds left when it was compiled, at least one and at most 365 days |
| Rulesets.SetsDeclaredOnce | internal/vpn/policy.go:159-171 | distinct rule ids give every set one declaration |
| Rulesets.NamedSetsDeclared | internal/vpn/policy.go:159-182 | every set a rule names is declared |
| Rulesets.NothingReserved | internal/vpn/policy.go:123-125 | no filter of a valid snapshot lets a peer reach a reserved address, or one answer |
| Rulesets.OwnerIsUnique | internal/vpn/policy.go:105-116 | in a valid snapshot an address belongs to one peer |
| Rulesets.DenyAll | internal/vpn/gateway.go:79-83 | the filter of the empty policy forwards nothing |
| Rulesets.LocalIsClosed | internal/vpn/policy.go:172-172 | every filter keeps packets from wg0, and only those, away from the gateway itself |
| GatewayLog.InstalledNeverFalls | internal/vpn/gateway.go:152-202 | in every run the number of the installed policy never goes down |
| GatewayLog.DiskNeverFalls | internal/vpn/gateway.go:159-165 | the stored policy is never replaced by an older one |
| GatewayLog.RulesCameFromDisk | internal/vpn/gateway.go:159-191 | rules in the kernel were loaded from the policy then in policy.json |
| GatewayLog.SupersededStaysOff | internal/vpn/gateway.go:159-168 | after a policy was stored and forwarding blocked, the kernel holds deny-all or rules of that policy or a later one |
| GatewayLog.AcknowledgedWasInstalled | internal/vpn/gateway.go:245-253 | an acknowledged revision was on disk and loaded before |
| GatewayLog.ReceivedWasPolled | internal/vpn/gateway.go:222-251 | every policy received is what the last poll before it answered, and no poll is received twice |
| GatewayLog.RevocationHolds | internal/vpn/gateway.go:152-202 | what the kernel forwards from then on is permitted by a policy no older, to no reserved address |
| Gateways.World.ReplacePolicy | internal/vpn/gateway.go:49-78 | the file holds the old policy or the new one, whatever the outcome |
| Gateways.Gateway.Deny | internal/vpn/gateway.go:79-83 | nothing is applied afterwards; on success forwarding is blocked |
| Gateways.Gateway.Apply | internal/vpn/gateway.go:152-202 | persist, block, sync, load: on success disk, peers and filter come from the wanted policy; on failure nothing counts as applied, blocking was tried, and if that worked nothing older is left in the kernel |
| Gateways.Gateway.Enforce | internal/vpn/gateway.go:166-201 | the part of it after the policy is stored: block, install, and only then count as applied |
| Gateways.Gateway.Install | internal/vpn/gateway.go:169-190 | from deny-all to the loaded filter, with the WireGuard peers of the same live part |
| Gateways.ForwardedIsSynced | internal/vpn/gateway.go:169-190 | in every state, crashes included, whoever requests what the kernel forwards is a configured WireGuard peer with that address |
| Gateways.Gateway.Init | internal/vpn/gateway.go:84-151 | its first effect on disk or kernel is to block forwarding, it enables forwarding again only from the saved policy, and it succeeds unless a command failed |
| Gateways.Gateway.Restore | internal/vpn/gateway.go:136-150 | on success the saved policy, if there is one, is wanted and applied; without one forwarding stays blocked |
| Gateways.Gateway.Adopt | internal/vpn/gateway.go:245-251 | a valid new policy is the one wanted from then on, applied or not |
| Gateways.Gateway.Tick | internal/vpn/gateway.go:222-262 | success or error, the tick-boundary invariant holds; a valid answer is wanted from then on and any other leaves what is wanted alone; with local commands that work, whatever failed before, the portal is polled, the peers are current, a valid answer is in force and the tick ends as posting its acknowledgment did, failing otherwise; a policy in force is not installed again |
| Gateways.Gateway.Poll | internal/vpn/gateway.go:228-261 | the part of it that speaks to the portal |
| Gateways.Gateway.PeersAreCurrent | internal/vpn/gateway.go:192-200 | before `appliedUntil` the peer list is exactly the peers with an unexpired rule |
| Gateways.EarliestExpiry | internal/vpn/gateway.go:192-200 | the loop finds the earliest expiry of the live rules |
| Gateways.Serve | cmd/gateway/main.go:1-71 | any number of lives of the agent, each crashing anywhere, keep the log legal |
| Catalog.VisibilityAgrees | internal/portal/packs.go:76-98 | the in-transaction rule equals published, unarchived and discoverable, exactly unless the category reference dangles |
| Catalog.VisibilityMeans | internal/portal/packs.go:76-98 | a pack may be for a published service that the caller, unless an administrator, is shown by both audiences; the public sees what both leave open |
| Effects.RevocationMeans | internal/portal/vpn.go:368-391 | revoking is for the owner and administrators, at the version seen, once; the device ends with its key and exactly its open grants |
| Effects.EnrolmentMeans | internal/portal/vpn.go:191-249 | for an enabled member with fewer than ten current devices, a new key and the least address never used |
| Effects.ReconciliationMeans | internal/portal/requests.go:393-425 | exactly the approvals and records whose time has come end; live approvals, everybody's access and the policy stay the same |
| Effects.AskingMeans | internal/portal/vpn.go:251-296 | for a current device of one's own, unless a pending or unexpired request for the same destination stands; sweeps and adds one pending request |
| Effects.DecisionsExactly | internal/portal/vpn.go:297-345 | accepted exactly for an administrator at the version seen, from pending to approved under every condition on destination, service, device, member, expiry and number, or to denied, or from approved to revoked |
| Effects.ClosingMeans | internal/portal/vpn.go:346-360 | a denial or revocation ends one grant, blanks its route and logs it as it was and as it is |
| Effects.AdmissionMeans | internal/portal/vpn.go:341-360 | an approval gives the grant the destination and expiry and admits its device, and nothing else |
| Effects.TargetMeans | internal/portal/vpn.go:393-427 | a valid destination, of a service that is not archived, saved by an administrator as it was seen |
| Effects.PackMeans | internal/portal/packs.go:110-191 | when a pack can be made, and that it retires the one replaced and adds one sealed device and one pending request |
| Effects.HandOutExactly | internal/portal/packs.go:195-262 | when a pack can be handed out, and that the key leaves the portal and the download is over |
| Effects.MemberMeans | internal/portal/admin.go:689-745 | refused only for the last usable administrator; disabling ends exactly the member's devices, grants and access |
| Effects.GrantMeans | internal/portal/requests.go:334-356 | to an enabled member for a published service, under the version shown; the pair's record is active from now until the expiry given |
| Effects.EndingMeans | internal/portal/admin.go:776-802 | an active record at the version seen ends with a history row and an open follow-up |
| Lifetimes.DevicesEndExactly | internal/portal/vpn.go:368-391 | a device becomes revoked if and only if it is revoked, replaced by its owner, or its owner is disabled |
| Lifetimes.ApprovalsExactly | internal/portal/vpn.go:169-185 | a live approval outlasts a transaction if and only if its expiry has not come, its device is not given up and it is not revoked; one begins only by an administrator's approval |
| Lifetimes.ApprovalLasts | internal/portal/vpn.go:169-185 | over any run an approval left alone stays as it is until its expiry |
| Lifetimes.AccessExactly | internal/portal/requests.go:318-425 | a pair has access after a transaction if and only if it was just granted, or had it, unexpired, and was not ended or disabled |
| Lifetimes.PolicyExactly | internal/portal/vpn.go:142-168 | the policy has a rule, with the device's key and address and the grant's route and expiry, for exactly the approved, unexpired grants to offered destinations |
| Network.ExpireKeeps | internal/portal/vpn.go:169-185 | expiry keeps every device and grant invariant |
| Network.FreeHostIsFree | internal/portal/vpn.go:232-242 | the search finds the least address no device ever had, and none only when all are taken |
| Network.EnrollKeeps | internal/portal/vpn.go:202-249 | enrolment keeps addresses and keys distinct for ever |
| Network.RequestGrantKeeps | internal/portal/vpn.go:274-295 | a request keeps one open grant for a device and target |
| Network.DecideKeeps | internal/portal/vpn.go:315-366 | a decision keeps approvals valid, on approved devices, at most 1024 live, and the ledger balanced |
| Network.RetireKeeps | internal/portal/vpn.go:368-391 | retired devices lose open grants and stored keys and nothing final is undone |
| Network.SaveTargetKeeps | internal/portal/vpn.go:393-427 | editing a destination keeps existing approvals as they were |
| Network.CreatePackKeeps | internal/portal/packs.go:130-189 | replacing and enrolling in one transaction keeps every invariant |
| Network.TimeKeeps | internal/portal/vpn.go:326-333 | time alone keeps the bound on live approvals |
| Snapshots.VpnSnapshot | internal/portal/vpn.go:142-168 | grouping the query's rows by device yields one peer for each device with a selected grant |
| Snapshots.FilterIsPlain | internal/portal/vpn.go:145-145 | the five-table condition says no more than approved, unexpired and offered |
| Snapshots.DevicesAreFew | internal/portal/vpn.go:232-242 | the address pool allows at most 253 devices |
| Snapshots.RulesAreFew | internal/portal/vpn.go:327-333 | the policy has at most as many rules as live approvals |
| Snapshots.SnapshotIsValid | internal/portal/vpn.go:166-167 | the policy of every good state passes the gateway's validator |
| Records.GrantAccessKeeps | internal/portal/requests.go:334-356 | a grant writes one version, one history row, for its pair alone |
| Records.Upsert | internal/portal/requests.go:334-356 | insert or renew, then copy the row to the history |
| Records.SweepRecords | internal/portal/requests.go:398-425 | closing any active records keeps ledger and follow-ups |
| Records.RevokeRecordsKeeps | internal/portal/admin.go:733-741 | disabling leaves the member no active record |
| Records.Reconcile | internal/portal/requests.go:398-425 | collecting overdue records and closing them one by one closes exactly those |
| Records.CoverRisesByGrant | internal/portal/policy.go:19-29 | coverage of a pair rises only by granting that pair, whatever time passes |
| Records.LeavingIsFollowed | internal/portal/requests.go:413-415 | a record leaving `active` has exactly one open follow-up |
| Deliveries.RoutesExactly | internal/portal/packs.go:222-238 | a pack's routes are exactly the destinations of the device's approved, unexpired grants whose service its owner may see |
| Deliveries.OnlyToItsOwner | internal/portal/packs.go:201-221 | only the authenticated, enabled owner of an approved device, before the download expires, within 20 seconds of a confirmation |
| Deliveries.ReleaseKeeps | internal/portal/packs.go:195-262 | handing out needs the acknowledged current policy, discards the key, and happens once for a device |
| Portal.StepKeeps | internal/portal/db.go:100-110 | every transaction keeps the invariant, undoes nothing final and changes access only as it says |
| Portal.EveryReachableState | internal/portal/vpn.go:141-168 | all of this in every reachable state, with a policy that validates |
| Portal.DevicesAndGrants | internal/portal/vpn.go:145-145 | addresses and keys are never shared; a disabled account has only revoked devices; approvals stand on approved devices of enabled accounts |
| Portal.LedgersBalance | internal/portal/requests.go:608-611 | history rows match versions, one more for a grant closed by decision; the last row is the current row |
| Portal.AtMostTenDevices | internal/portal/vpn.go:207-213 | in every reachable state no member has more than ten devices that are not revoked |
| Portal.ApprovalMeans | internal/portal/vpn.go:308-360 | an approval is an administrator's, of the destination at the version reviewed, for at most a year, and touches only its grant and device |
| Portal.AccessRisesByGrant | internal/portal/requests.go:318-322 | access appears only in a step granting that pair, not by time, approval, re-enabling or recovery |
| Portal.RequestsGrantByFulfilling | internal/portal/requests.go:301-332 | a request touches access only by going from set-up to fulfilled |
| Portal.LeavingOpensFollowup | internal/portal/admin.go:733-741 | in every transaction a record that stops being active gets its one open follow-up |
| Portal.ReconciledTwice | internal/portal/requests.go:393-433 | reconciling twice at one instant is reconciling once |
| Portal.AdministratorRemains | internal/portal/admin.go:704-710 | once there is a usable administrator there always is |
| Stores.InsertDevice | internal/portal/vpn.go:202-249 | the used map and the search loop implement enrolment |
| Stores.Store.RequestNetwork | internal/portal/vpn.go:251-296 | the transaction commits exactly the request, or nothing |
| Stores.Store.DecideNetwork | internal/portal/vpn.go:297-367 | the transaction commits exactly the decision, or nothing |
| Stores.Store.RevokeDevice | internal/portal/vpn.go:368-392 | four updates in order retire the device |
| Stores.Store.SaveNetworkTarget | internal/portal/vpn.go:393-427 | saves a destination under its version |
| Stores.Store.CreatePackDevice | internal/portal/packs.go:110-191 | replacement, enrolment, delivery and request commit together |
| Stores.Store.ConsumePack | internal/portal/packs.go:195-262 | a pack comes out exactly when the consumption commits |
| Stores.Store.IsCurrent | internal/portal/vpn.go:647-651 | the first half of an acknowledgment compares it with the policy of the moment |
| Stores.Store.RecordAcknowledgment | internal/portal/vpn.go:652-667 | the second half records revision, key and time in a transaction of its own |
| Stores.Store.SaveMember | internal/portal/admin.go:689-745 | disabling cascades over devices, grants, deliveries, outstanding links and records in one transaction |
| Stores.Store.SaveAccess | internal/portal/admin.go:751-772 | the grant form commits under the version it was shown |
| Stores.Store.EndAccess | internal/portal/admin.go:776-802 | revoking or expiring a record by hand |
| Stores.Store.CompleteOne | internal/portal/admin.go:286-300 | an open follow-up is completed once |
| Stores.Store.ReconcileAll | internal/portal/requests.go:393-425 | network expiry and record expiry in one transaction |
| Stores.RetiredInSteps | internal/portal/packs.go:145-156 | the order of the updates does not matter as long as history is written before grants close |
| System.PacksAreTruthful | internal/portal/packs.go:210-221 | every pack ever handed out named a policy that had been on disk and in the kernel, with exactly the approved routes, once for a device |
| System.NotAlwaysInForce | internal/portal/packs.go:214-221 | from any good state in which a pack can be handed out, blocking forwarding leads to another with deny-all in the kernel |
| System.InForceExactly | internal/portal/packs.go:214-221 | in every reachable state in which a pack can be handed out, its policy is in the kernel exactly if forwarding was not blocked since it was last loaded |
| Scenario.HandedOutWhileBlocked | internal/portal/packs.go:195-262 | a concrete run from the empty state that hands out a pack while the kernel is deny-all |
| System.SentWasInstalled | internal/portal/vpn.go:639-651 | an acknowledgment sent at any time names a policy that was installed |
| System.ForwardedWasApproved | internal/vpn/gateway.go:222-251 | a forwarded packet, or the one it answers in an established flow, goes back to an approved, unexpired grant of the portal state behind the installed policy |
| System.LaterApproval | internal/vpn/gateway.go:159-168 | after a policy took effect, approvals come from its portal state or a later one |
| System.RevokedStaysOut | internal/vpn/gateway.go:159-168 | nothing from or to a revoked device's address is forwarded again once the policy without it was stored and forwarding blocked |
| System.ClosedGrantStaysOut | internal/vpn/gateway.go:159-168 | after that a closed grant stays as it is and justifies no forwarded packet: another grant does |
| Requests.StepIsAtomic | internal/portal/requests.go:301-309 | a commit after an earlier read equals the uninterrupted operation, or does nothing |
| Requests.RunsAreSerial | internal/portal/requests.go:216-333 | so does every commit of every interleaved run |
| Requests.RunKeeps | internal/portal/requests.go:88-116 | logs are connected paths of allowed moves to the current state, and one access request for a member and service is active |
| Requests.OneActiveAlways | internal/portal/schema.sql:8-8 | in every run, honest or not, a member has at most one active access request for a service |
| Requests.ClosedTakesNoReply | internal/portal/requests.go:228-230 | in honest runs a public reply to a closed request changes nothing |
| Requests.LogsMakeSense | internal/portal/requests.go:94-116 | a log stays within the states of its kind, never leaves a closed state, and reaches fulfilled only from set-up |
| Requests.ClosedStaysClosed | internal/portal/requests.go:88-97 | terminal states are absorbing |
| Requests.ReplyAtomicExactly | internal/portal/requests.go:216-239 | a reply is atomic under every interleaving if and only if its version is not ahead of the one read |
| Requests.ReopenedByReply | internal/portal/requests.go:254-270 | a concrete run in which a cancelled request is reopened |
| Requests.RequestStore.SubmitOne | internal/portal/requests.go:187-213 | insertion under the unique index, with the first log row |
| Requests.RequestStore.TransitionOne | internal/portal/requests.go:301-332 | version and state guard, log row, and the grant of a fulfilled request |
| Requests.RequestStore.ReplyOne | internal/portal/requests.go:231-278 | version guard, then the move chosen from the earlier read |
| Moves.ActionsExactly | internal/portal/requests.go:94-116 | the table of moves an administrator may make, and that a member may only cancel |
| Moves.TransitionsExactly | internal/portal/requests.go:279-332 | accepted exactly for a move the caller may make from the state and version read, and to fulfil only if access can be granted; the request moves by one version and one log row |
| Moves.OpeningMeans | internal/portal/requests.go:187-213 | for an enabled member who sees the published service and has no active access request for it |
| Moves.ReplyMeans | internal/portal/requests.go:216-278 | who may reply when, and that only a member's public reply moves a request, and only one that waited |
| Moves.DecidedByAdministrators | internal/portal/requests.go:98-100 | in every run every logged move to needs-information, set-up, fulfilled, denied, waiting or resolved was an administrator's |
| Moves.GrantedByAdministrators | internal/portal/requests.go:318-322 | the desk changes access records only when an administrator fulfils a request set up |
| Accounts.ValidStep | internal/portal/security.go:215-228 | the search over offsets 0, -1 and 1 |
| Accounts.StepForExactly | internal/portal/security.go:215-228 | a code is accepted exactly when it is right for an unused step within one of now |
| Accounts.LoginsKeep | internal/portal/auth.go:269-301 | every read of a login keeps what sessions and handlers may rely on |
| Accounts.FactorsKeep | internal/portal/security.go:365-415 | removing factors or replacing codes leaves a factor and a new generation |
| Accounts.AdministrationKeeps | internal/portal/email.go:249-267 | resets, recoveries and redemptions keep every claim true or outdated |
| Accounts.SessionsAndFactors | internal/portal/auth.go:40-51 | an accepted session has a factor; a locked account has no session of its generation, no factor, no codes; a password alone enrols only where there is no factor |
| Accounts.SessionsWereProven | internal/portal/security.go:122-137 | every full session of every run goes back to a code accepted after a password, a passkey asserted, or a factor change, of its account at its generation |
| Accounts.OnlySignedInAdds | internal/portal/security.go:292-297 | a further factor is added only by a session that passed one |
| Accounts.CodesAreUsedOnce | internal/portal/security.go:192-214 | no code is accepted twice under any interleaving; accepted steps increase from enrolment |
| Accounts.LinksAreUsedOnce | internal/portal/auth.go:174-214 | no link is redeemed twice under any interleaving: reset links, factor links and invitations |
| Accounts.LockEndsBy | internal/portal/auth.go:196-196 | a lock ends only by the link that came with the reset, or by local recovery of an administrator |
| Accounts.Vault.CheckTotp | internal/portal/security.go:192-214 | identity, secret and unused step are checked and the step recorded in one transaction |
| Accounts.Vault.ConfirmTotp | internal/portal/security.go:334-357 | secret, step, codes and generation change together |
| Accounts.Vault.FinishRegistration | internal/portal/passkeys.go:134-156 | a passkey no account has yet, codes if there were none, and a new generation |
| Accounts.Vault.RemoveTotp | internal/portal/security.go:365-379 | only with a passkey left |
| Accounts.Vault.RemoveKey | internal/portal/security.go:384-402 | only with another factor left |
| Accounts.Vault.ClearFactors | internal/portal/security.go:243-250 | all factors, codes, challenges not yet consumed, outstanding links and the generation |
| Accounts.Vault.UseRecoveryCode | internal/portal/security.go:254-262 | a recovery code clears the factors of its enabled account |
| Accounts.Vault.ResetFactors | internal/portal/email.go:249-267 | an administrator, still the one authenticated, clears and locks another member in one transaction, with a link to end it |
| Accounts.Vault.IssueReset | internal/portal/auth.go:140-155 | a reset link for an enabled member takes the place of those before it and leaves factor links |
| Accounts.Vault.IssueInvite | internal/portal/auth.go:129-155 | an invitation of a valid name no account has takes the place of the one before it |
| Accounts.Vault.RedeemInvite | internal/portal/auth.go:180-214 | an unexpired invitation makes its account, while no account has the name, and is gone with the same commit |
| Accounts.Vault.Redeem | internal/portal/auth.go:180-214 | consumes an unexpired link of its enabled account, with a new generation, and unlocks for the kind that says so |
| Accounts.Vault.RecoverAccount | internal/portal/auth.go:82-108 | for administrators' accounts: enables, consumes links, and on request clears and unlocks |
| Credentials.FactorsExactly | internal/portal/security.go:192-228 | when codes and factor changes are accepted |
| Credentials.RecoveriesExactly | internal/portal/auth.go:82-214 | when recoveries, resets and links are accepted |
| Credentials.NamesExactly | internal/portal/auth.go:129-190 | when invitations are issued and redeemed and the first administrator is made |
| Credentials.LoginsMean | internal/portal/auth.go:269-301 | when each step of a login is accepted and the one handler or session it adds |
| Credentials.ChangesMean | internal/portal/security.go:292-297 | whose handler may change factors, and that each change lets it sign in at the next generation |
| Credentials.TotpMeans | internal/portal/security.go:318-362 | offering, taking, confirming and checking a secret: who may, and what is remembered |
| Credentials.AdministrationMeans | internal/portal/email.go:226-267 | who may reset, recover and administrate; none of it makes a session |
| Credentials.AccountsExactly | internal/portal/security.go:243-250 | field by field what an accepted step does to the account it is about, and that it touches no other and a refused one nothing |
| Credentials.RecoveryMeans | internal/portal/security.go:254-262 | accepted exactly for a code the enabled account holds; no code, factor, link or pending enrolment is left, and the generation rises |
| Credentials.RecoveryCodesAreSpent | internal/portal/security.go:243-258 | in every run a recovery code is accepted again only if it was stored again in between |
| Credentials.OldSessionsEnd | internal/portal/auth.go:40-51 | once a step raised the generation, no session or handler of the account from before is accepted, ever |
| Credentials.PowersAreGiven | internal/portal/auth.go:52-108 | who becomes an administrator or enabled, and by what alone |
| Credentials.CodeGetsIn | internal/portal/auth.go:269-301 | password and a right, unused code of an enabled, unlocked account end in an accepted session |
| Credentials.EnrolmentGetsIn | internal/portal/security.go:318-362 | so do password and enrolment, on an account without factors |
| Credentials.PasskeyGetsIn | internal/portal/passkeys.go:178-235 | so does a passkey of an enabled account |
| Outbox.LeasesAndRetries | internal/portal/email.go:299-319 | lease exactly while sending, at most five attempts, failures spaced by doubling minutes and the next attempt no sooner, first and fifth failure 900 seconds apart, cap never reached |
| Outbox.ClaimingMeans | internal/portal/email.go:299-312 | a claim succeeds exactly when a message is due or its lease has run out; the first such is leased for 120 seconds |
| Outbox.AttemptMeans | internal/portal/email.go:313-319 | how each ending leaves the message: a refused one waits 60 seconds times 1, 2, 4 or 8 and fails at exactly the fifth failure |
| Outbox.LeaseIsExclusive | internal/portal/email.go:300-309 | a second worker claims a leased message only after the lease time |
| Outbox.LostLeaseIsDead | internal/portal/email.go:313-319 | finishing on a lost lease changes nothing, ever |
| Outbox.SettledForGood | internal/portal/email.go:196-200 | sent and cancelled messages never change again |
| Outbox.RollbackLosesNothing | internal/portal/email.go:300-306 | rolling back an empty claim discards no reclaim |
| Outbox.Mailer.TakeOne | internal/portal/email.go:299-312 | reclaim, select the first due message and lease it, or roll everything back |
| Outbox.Mailer.FinishOne | internal/portal/email.go:313-319 | the update guarded by the lease |
| Outbox.Mailer.RetryOne | internal/portal/email.go:196-200 | only a failed message is queued again |
| Limiter.Limits.Limited | internal/portal/auth.go:216-230 | counts the call in the open window or opens one; refuses when over the maximum or when it cannot count |
| Limiter.WindowBound | internal/portal/auth.go:220-226 | of the calls in one window exactly the first `max` are allowed |
| Limiter.IntervalBound | internal/portal/auth.go:220-226 | fewer than `2 * max` allowed in any half-open interval of one window's length |
| Limiter.WindowsExactly | internal/portal/auth.go:220-220 | a window lasts exactly its length from the call that opened it |
| Limiter.PurgeUnobservable | internal/portal/requests.go:430-431 | deleting old rows changes no later answer |

## Left out

- Accounts.Vault.ClearFactors: does not delete tokens that verify an email address, which are not
  modelled; of the challenges, those of TOTP enrolment are.
- Text lengths, labels, reasons, confirmations and error texts of forms: they only refuse more input.
- HTTP, sessions' storage, CSRF, templates, rate-limit call sites, notifications and the audit log.
- nft, wg and ip syntax and processes: sets and chains are syntax trees with an evaluator; a command
  succeeds, fails with or without having taken effect, or is cut off by a crash.
- The nat chain of the filter, which only masquerades.
- SQLite: an index or foreign key is a condition that refuses the transaction. Read errors the code
  ignores (a failed lookup read as zero) are not modelled; a failed commit is.
- Deletion of a service or category, possible only while nothing refers to it; here such a row
  remains, unpublished.
- SHA-256, AES-GCM, X25519, HOTP, WebAuthn, Argon2, zip, and base64 other than that of keys: a code is
  right or wrong for a step, a stored key opens, a passkey assertion succeeds for a key in the table.
- The text of a peer address other than an IPv4 host of the pool, and names beyond ASCII when device
  names are compared.
- Passkey sign counts, the limit of 20 passkeys, and password checks: a password is right when a
  login step says so.
- The five-minute and ten-minute expiries of sessions and challenges: they only refuse more.
- The services recommended with an invitation.
- SMTP: how an attempt ends is arbitrary. Delivery is at least once after a crash, and nothing more
  is claimed.
- Power loss below an atomic rename, rounding of floating-point durations, RFC 3339 text.
- Direct edits of the database and restored backups.
