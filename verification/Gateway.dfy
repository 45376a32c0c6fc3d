/** The gateway agent and the machine it drives. */
module Gateways {
  import opened Base
  import opened Policy
  import opened Rulesets
  import opened GatewayLog
  import Prefixes

  /** How a command ends. `Failed` and `Crashed` say nothing about whether it took effect;
      after `Crashed` the process is gone and only disk and kernel remain. */
  datatype Outcome = Done | Failed | Crashed

  datatype Reading = NoFile | Unreadable | Contents(policy: Snapshot)
  datatype Response = Unavailable | BadStatus | Garbled | Policy(next: Snapshot)

  datatype WireGuardPeer = WireGuardPeer(key: string, allowed: Prefixes.Cidr)

  function PeersFor(peers: seq<Peer>): seq<WireGuardPeer> {
    seq(|peers|, i requires 0 <= i < |peers| => WireGuardPeer(peers[i].key, peers[i].address))
  }

  /** What the log remembers of a poll. */
  function AnswerOf(r: Response): Event {
    Polled(if r.Policy? then Some(r.next) else None)
  }

  /** WireGuard has the peers of the policy that were live at some moment up to `at`. */
  ghost predicate Synced(wireguard: seq<WireGuardPeer>, policy: Snapshot, at: Instant) {
    exists t: Instant :: t <= at && wireguard == PeersFor(ActivePeers(policy.peers, t))
  }

  /** The gateway's disk, clock and kernel. Nothing else writes them. Their invariant holds between
      any two commands, so also after a crash. */
  class World {
    var clock: Instant
    var policy: Option<Snapshot>                // policy.json
    var table: Option<(Table, Instant)>         // nft table inet waypoint, once it has chains
    var wireguard: seq<WireGuardPeer>           // peers of wg0
    ghost var log: seq<Event>
    ghost var faults: bool                      // since the last tick began, a local command did not end in Done
    ghost var answer: Response                  // the portal's last answer to a poll
    ghost var polled: bool                      // since the last tick began, the portal was polled
    ghost var posted: Option<Outcome>           // since then, how posting an acknowledgment ended
    ghost var blocks: seq<Outcome>              // how every attempt to block forwarding ended

    ghost predicate Valid()
      reads this
    {
      && Legal(log)
      && Shows(table, ViewOf(log).filter)
      && policy == match ViewOf(log).disk { case Missing => None case Holding(_, s) => Some(s) }
      && var f := ViewOf(log).filter;
         f.Rules? ==> f.loaded <= clock && Synced(wireguard, f.policy, f.at)
    }

    constructor ()
      ensures Valid() && log == []
    {
      clock, policy, table, wireguard := 0, None, None, [];
      log, faults, answer := [], false, Unavailable;
      polled, posted, blocks := false, None, [];
    }

    /** The clock never goes backwards. */
    method Now() returns (t: Instant)
      requires Valid()
      modifies this`clock
      ensures Valid() && t == clock >= old(clock)
    {
      t :| t >= clock;
      clock := t;
    }

    /** A command with no effect on what is modelled: keys, links, addresses, private files. */
    method Command() returns (o: Outcome)
      modifies this`faults
      ensures faults == (old(faults) || o != Done)
    {
      o := *;
      faults := faults || o != Done;
    }

    method Receive(ghost n: nat, s: Snapshot)
      requires Valid() && Allowed(ViewOf(log), Received(n, s))
      modifies this`log
      ensures Valid() && log == old(log) + [Received(n, s)]
      ensures ViewOf(log) == After(ViewOf(old(log)), Received(n, s))
    {
      LegalGrows(log, Received(n, s));
      log := log + [Received(n, s)];
    }

    /** Atomic replacement of policy.json. */
    method ReplacePolicy(ghost n: nat, s: Snapshot) returns (o: Outcome)
      requires Valid() && Allowed(ViewOf(log), Persisted(n, s))
      modifies this`policy, this`log, this`faults
      ensures Valid()
      ensures log == old(log) + [Persisted(n, s)] || (o != Done && log == old(log))
      ensures ViewOf(log) == ViewOf(old(log)) || ViewOf(log) == After(ViewOf(old(log)), Persisted(n, s))
      ensures o == Done ==> ViewOf(log) == After(ViewOf(old(log)), Persisted(n, s))
      ensures faults == (old(faults) || o != Done)
    {
      o := *;
      var effect: bool := *;
      if o == Done || effect {
        LegalGrows(log, Persisted(n, s));
        policy := Some(s);
        log := log + [Persisted(n, s)];
      }
      faults := faults || o != Done;
    }

    method DenyForwarding(t: Table) returns (o: Outcome)
      requires Valid() && t == DENY
      modifies this`table, this`log, this`faults, this`blocks
      ensures Valid() && blocks == old(blocks) + [o]
      ensures log == old(log) + [Blocked] || (o != Done && log == old(log))
      ensures ViewOf(log) == ViewOf(old(log)) || ViewOf(log) == After(ViewOf(old(log)), Blocked)
      ensures o == Done ==> ViewOf(log) == After(ViewOf(old(log)), Blocked)
      ensures faults == (old(faults) || o != Done)
    {
      o := *;
      var effect: bool := *;
      if o == Done || effect {
        LegalGrows(log, Blocked);
        table := Some((t, clock));
        log := log + [Blocked];
      }
      faults := faults || o != Done;
      blocks := blocks + [o];
    }

    /** Peers are changed only while nothing is forwarded. */
    method SyncPeers(peers: seq<WireGuardPeer>) returns (o: Outcome)
      requires Valid() && ViewOf(log).filter == Denied
      modifies this`wireguard, this`faults
      ensures Valid()
      ensures o == Done ==> wireguard == peers
      ensures faults == (old(faults) || o != Done)
    {
      o := *;
      var effect: bool := *;
      if o == Done || effect {
        wireguard := peers;
      }
      faults := faults || o != Done;
    }

    /** Loading the filter compiled for `at`; the kernel starts its timers when it loads it. */
    method LoadRules(ghost n: nat, ghost s: Snapshot, at: Instant, t: Table) returns (o: Outcome)
      requires Valid() && at <= clock && t == Compile(s.peers, at)
      requires ViewOf(log).disk == GatewayLog.Holding(n, s) && ViewOf(log).filter == Denied
      requires Synced(wireguard, s, at)
      modifies this`clock, this`table, this`log, this`faults
      ensures Valid() && clock >= old(clock)
      ensures log == old(log) + [Loaded(n, s, at, clock)] || (o != Done && log == old(log))
      ensures ViewOf(log) == ViewOf(old(log)) || ViewOf(log) == After(ViewOf(old(log)), Loaded(n, s, at, clock))
      ensures o == Done ==> ViewOf(log) == After(ViewOf(old(log)), Loaded(n, s, at, clock))
      ensures faults == (old(faults) || o != Done)
    {
      o := *;
      var effect: bool := *;
      var _ := Now();
      if o == Done || effect {
        LegalGrows(log, Loaded(n, s, at, clock));
        table := Some((t, clock));
        log := log + [Loaded(n, s, at, clock)];
      }
      faults := faults || o != Done;
    }

    method ReadPolicy() returns (r: Reading)
      requires Valid()
      modifies this`faults
      ensures r == NoFile ==> ViewOf(log).disk.Missing?
      ensures r.Contents? ==> ViewOf(log).disk.Holding? && r.policy == ViewOf(log).disk.policy
      ensures faults == (old(faults) || r == Unreadable)
    {
      var readable: bool := *;
      r := if !readable then Unreadable else if policy.None? then NoFile else Contents(policy.value);
      faults := faults || r == Unreadable;
    }

    /** The portal may answer anything, or not at all. */
    method Fetch() returns (r: Response)
      requires Valid()
      modifies this`answer, this`log, this`polled
      ensures Valid() && r == answer && polled
      ensures log == old(log) + [AnswerOf(r)] && ViewOf(log) == After(ViewOf(old(log)), AnswerOf(r))
    {
      r := *;
      answer, polled := r, true;
      LegalGrows(log, AnswerOf(r));
      log := log + [AnswerOf(r)];
    }

    method PostAcknowledgment(revision: Revision) returns (o: Outcome)
      requires Valid() && Allowed(ViewOf(log), Acknowledged(revision))
      modifies this`log, this`posted
      ensures Valid() && ViewOf(log) == ViewOf(old(log)) && posted == Some(o)
      ensures log == old(log) + [Acknowledged(revision)] || (o != Done && log == old(log))
    {
      o := *;
      posted := Some(o);
      var sent: bool := *;
      if o == Done || sent {
        LegalGrows(log, Acknowledged(revision));
        log := log + [Acknowledged(revision)];
      }
    }
  }

  class Gateway {
    const world: World
    var desired: Snapshot
    var applied: Revision
    var appliedUntil: Option<Instant>
    var hasPolicy: bool
    ghost var number: nat            // the receipt number of `desired`
    ghost var activeAt: Instant      // when the live part of `desired` was last taken

    /** Disk, WireGuard peers and kernel filter all come from `desired`. */
    ghost predicate InForce()
      reads this, world
    {
      var v := ViewOf(world.log);
      && v.disk == GatewayLog.Holding(number, desired)
      && v.filter.Rules? && v.filter.number == number && v.filter.policy == desired
      && activeAt <= v.filter.at
      && activeAt <= world.clock
      && world.wireguard == PeersFor(ActivePeers(desired.peers, activeAt))
      && appliedUntil == Earliest(AllRules(ActivePeers(desired.peers, activeAt)))
    }

    /** What holds whenever a policy is about to be applied, whatever was applied before. */
    ghost predicate Ready()
      reads this, world
    {
      var v := ViewOf(world.log);
      && world.Valid()
      && (hasPolicy ==>
            && ValidSnapshot(desired) && IsReceived(v, number, desired)
            && (v.disk.Holding? ==> v.disk.number <= number))
      && (!hasPolicy ==> v.disk.Missing?)
    }

    /** The tick-boundary invariant. */
    ghost predicate Valid()
      reads this, world
    {
      && Ready()
      && (applied == Blank || (hasPolicy && applied == desired.revision && InForce()))
    }

    constructor (world: World)
      ensures this.world == world && !hasPolicy && applied == Blank && appliedUntil == None
    {
      this.world := world;
      desired, applied, appliedUntil, hasPolicy := Snapshot(Blank, []), Blank, None, false;
      number, activeAt := 0, 0;
    }

    method Deny() returns (o: Outcome)
      requires world.Valid()
      modifies this`applied, world`clock, world`table, world`log, world`faults, world`blocks
      ensures world.Valid() && applied == Blank && world.blocks == old(world.blocks) + [o]
      ensures world.log == old(world.log) + [Blocked] || (o != Done && world.log == old(world.log))
      ensures world.clock >= old(world.clock)
      ensures ViewOf(world.log) == ViewOf(old(world.log))
          || ViewOf(world.log) == ViewOf(old(world.log)).(filter := Denied)
      ensures o == Done ==> ViewOf(world.log).filter == Denied
      ensures world.faults == (old(world.faults) || o != Done)
    {
      hide Legal, ViewOf, ValidPeers, Compile, ActivePeers, AllRules, Earliest, PeersFor, Shows, Synced;
      var at := world.Now();
      DenyAll(at, 0, 0, Packet(Wg0, Wg0, false, 0, 0, "", 0, 0, New));
      var t := Ruleset(Snapshot(Blank, []), at);
      o := world.DenyForwarding(t);
      applied := Blank;
    }

    /** What the kernel holds is deny-all or rules of what is wanted, nothing older. */
    ghost predicate DeniedOrDesired()
      reads this, world
    {
      var f := ViewOf(world.log).filter;
      f == Denied || (hasPolicy && f.Rules? && f.number == number && f.policy == desired)
    }

    /** Persist, block, sync, load. It answers `Done` only with everything in force; however else
        it ends, nothing is recorded as applied and the log is still legal. Unless it crashes, it
        has tried to block forwarding, once, also when the policy could not be stored; if that
        worked, nothing older than what is wanted is left in the kernel. */
    method Apply() returns (o: Outcome)
      requires Ready()
      modifies this`applied, this`appliedUntil, this`activeAt
      modifies world`clock, world`policy, world`table, world`wireguard, world`log, world`faults, world`blocks
      ensures world.Valid() && old(world.log) <= world.log && world.clock >= old(world.clock)
      ensures o != Crashed ==> Valid()
      ensures o == Done && hasPolicy ==> applied == desired.revision && activeAt >= old(world.clock)
      ensures o == Done && !hasPolicy ==> ViewOf(world.log).filter == Denied
      ensures o == Failed ==> applied == Blank
      ensures o == Done ==> world.faults == old(world.faults)
      ensures old(world.faults) ==> world.faults
      ensures !world.faults ==> o == Done
      ensures o != Crashed ==> |world.blocks| == |old(world.blocks)| + 1 && old(world.blocks) <= world.blocks
      ensures o == Failed && world.blocks[|world.blocks| - 1] == Done ==> DeniedOrDesired()
      ensures ViewOf(world.log).received == old(ViewOf(world.log).received)
    {
      hide Legal, ViewOf, ValidPeers, Compile, ActivePeers, AllRules, Earliest, PeersFor, Shows, Synced;
      if !hasPolicy {
        o := Deny();
        return;
      }
      var valid := Validate(desired);
      assert valid;
      o := world.ReplacePolicy(number, desired);
      if o == Crashed {
        return;
      }
      if o == Failed {
        var denied := Deny();
        o := if denied == Crashed then Crashed else Failed;
        return;
      }
      o := Enforce();
    }

    /** The part of it after the policy is stored. */
    method Enforce() returns (o: Outcome)
      requires world.Valid() && hasPolicy && ValidSnapshot(desired) && IsReceived(ViewOf(world.log), number, desired)
      requires ViewOf(world.log).disk == GatewayLog.Holding(number, desired)
      modifies this`applied, this`appliedUntil, this`activeAt
      modifies world`clock, world`table, world`wireguard, world`log, world`faults, world`blocks
      ensures world.Valid() && old(world.log) <= world.log && world.clock >= old(world.clock)
      ensures ViewOf(world.log).received == old(ViewOf(world.log).received)
      ensures ViewOf(world.log).disk == old(ViewOf(world.log).disk)
      ensures if o == Done then applied == desired.revision && InForce() && activeAt >= old(world.clock)
              else applied == Blank
      ensures world.faults == (old(world.faults) || o != Done)
      ensures |world.blocks| == |old(world.blocks)| + 1 && old(world.blocks) <= world.blocks
      ensures o == Failed && world.blocks[|world.blocks| - 1] == Done ==> DeniedOrDesired()
    {
      hide Legal, ViewOf, ValidPeers, Compile, ActivePeers, AllRules, Earliest, PeersFor, Shows, Synced, IsReceived;
      o := Deny();
      if o != Done {
        return;
      }
      var active;
      o, active := Install();
      if o == Done {
        applied := desired.revision;
        appliedUntil := EarliestExpiry(active.peers);
      }
    }

    /** From deny-all to the loaded filter. */
    method Install() returns (o: Outcome, active: Snapshot)
      requires world.Valid() && ValidSnapshot(desired) && applied == Blank
      requires ViewOf(world.log).disk == GatewayLog.Holding(number, desired) && ViewOf(world.log).filter == Denied
      modifies this`activeAt, world`clock, world`table, world`wireguard, world`log, world`faults
      ensures world.Valid() && old(world.log) <= world.log && world.clock >= old(world.clock)
      ensures ViewOf(world.log).disk == old(ViewOf(world.log).disk)
      ensures ViewOf(world.log).received == old(ViewOf(world.log).received)
      ensures ViewOf(world.log).filter == Denied
        || (ViewOf(world.log).filter.Rules? && ViewOf(world.log).filter.number == number
            && ViewOf(world.log).filter.policy == desired)
      ensures active == ActiveOf(desired, activeAt) || o != Done
      ensures old(world.clock) <= activeAt <= world.clock || o != Done
      ensures o == Done ==>
        var f := ViewOf(world.log).filter;
        && f.Rules? && f.number == number && f.policy == desired && activeAt <= f.at
        && world.wireguard == PeersFor(active.peers)
      ensures world.faults == (old(world.faults) || o != Done)
    {
      hide Legal, ViewOf, ValidPeers, Compile, ActivePeers, AllRules, Earliest, PeersFor, Shows, Synced;
      var now := world.Now();
      activeAt := now;
      active := Active(desired, now);
      o := world.Command();
      if o != Done {
        return;
      }
      o := world.Command();
      if o != Done {
        return;
      }
      o := world.SyncPeers(PeersFor(active.peers));
      if o != Done {
        return;
      }
      var at := world.Now();
      var t := Ruleset(active, at);
      PeersAreSynced(world.wireguard, desired, now, at);
      CompileOfActive(desired.peers, now, at);
      o := world.LoadRules(number, desired, at, t);
    }

    /** The first thing done to disk or kernel since then was to block forwarding. */
    ghost predicate BlockedFirst(before: seq<Event>)
      reads world
    {
      before <= world.log && (|world.log| > |before| ==> world.log[|before|] == Blocked)
    }

    /** Start-up. Whatever a previous process left behind, forwarding is blocked before the saved
        policy is read, and it is enabled again only from that policy. */
    method Init() returns (o: Outcome)
      requires world.Valid() && !hasPolicy && applied == Blank
      modifies this, world
      ensures world.Valid() && BlockedFirst(old(world.log)) && world.clock >= old(world.clock)
      ensures o == Done ==> Valid() && |world.log| > |old(world.log)|
      ensures o == Done ==> (hasPolicy <==> ViewOf(world.log).disk.Holding?)
      ensures o == Done && hasPolicy ==> applied == desired.revision && applied != Blank
      ensures o == Done && !hasPolicy ==> ViewOf(world.log).filter == Denied
      ensures !world.faults ==> o == Done
    {
      hide Legal, ViewOf, ValidPeers, Compile, ActivePeers, AllRules, Earliest, PeersFor, Shows, Synced;
      var listed := world.Command();
      if listed == Crashed {
        return Crashed;
      }
      world.faults := false;   // on a first start there is no table to list
      if listed == Failed {
        o := world.Command();
        if o != Done {
          return;
        }
      }
      o := Deny();
      if o != Done {
        return;
      }
      // Server key, wg0 link, its address and MTU.
      var steps: nat := *;
      while steps > 0
        invariant world.Valid() && o == Done && ViewOf(world.log).filter == Denied
        invariant world.log == old(world.log) + [Blocked] && world.clock >= old(world.clock)
        invariant !hasPolicy && applied == Blank && !world.faults
        decreases steps
      {
        o := world.Command();
        if o != Done {
          return;
        }
        steps := steps - 1;
      }
      o := Restore();
    }

    /** The saved policy, if there is one, becomes the one wanted and is applied. */
    method Restore() returns (o: Outcome)
      requires world.Valid() && !hasPolicy && applied == Blank && ViewOf(world.log).filter == Denied
      modifies this, world
      ensures world.Valid() && old(world.log) <= world.log && world.clock >= old(world.clock)
      ensures o == Done ==> Valid() && (hasPolicy <==> ViewOf(world.log).disk.Holding?)
      ensures o == Done && hasPolicy ==> applied == desired.revision && applied != Blank
      ensures o == Done && !hasPolicy ==> ViewOf(world.log).filter == Denied
      ensures !world.faults ==> o == Done
    {
      hide Legal, ViewOf, ValidSnapshot, Compile, ActivePeers, AllRules, Earliest, PeersFor, Shows, Synced;
      var saved := world.ReadPolicy();
      if saved == NoFile {
        return Done;
      }
      if saved == Unreadable {
        return Failed;
      }
      desired := saved.policy;
      ViewIsGenuine(world.log);
      var valid := Validate(desired);
      assert valid;
      hasPolicy := true;
      number := ViewOf(world.log).disk.number;
      ValidRevisions(desired, desired);
      o := Apply();
    }

    /** The peers are those with an unexpired rule at some moment since `start`. */
    ghost predicate CurrentSince(start: Instant)
      reads this, world
    {
      && hasPolicy && applied == desired.revision && InForce()
      && exists t :: start <= t <= world.clock && world.wireguard == PeersFor(ActivePeers(desired.peers, t))
    }

    /** Reapply what is wanted if it is not in force, or if a rule in force has expired. */
    method CatchUp() returns (o: Outcome)
      requires Valid()
      modifies this`applied, this`appliedUntil, this`activeAt
      modifies world`clock, world`policy, world`table, world`wireguard, world`log, world`faults, world`blocks
      ensures world.Valid() && old(world.log) <= world.log && world.clock >= old(world.clock)
      ensures o != Crashed ==> Valid()
      ensures o == Done && hasPolicy ==> CurrentSince(old(world.clock))
      ensures o == Done ==> world.faults == old(world.faults)
      ensures !world.faults ==> o == Done
      ensures ViewOf(world.log).received == old(ViewOf(world.log).received)
      ensures old(applied) != Blank && (old(appliedUntil).None? || world.clock < old(appliedUntil).value) ==>
        o == Done && world.log == old(world.log) && applied == old(applied)
    {
      hide Legal, ViewOf, ValidPeers, Compile, ActivePeers, AllRules, Earliest, PeersFor, Shows, Synced;
      o := Done;
      ghost var start := world.clock;
      var due := applied == Blank;
      if hasPolicy && !due && appliedUntil.Some? {
        var now := world.Now();
        due := !(now < appliedUntil.value);
      }
      if hasPolicy && due {
        o := Apply();
      }
      if hasPolicy && o == Done {
        assert desired.revision != Blank;
        PeersAreCurrent(start);
      }
    }

    /** A policy is received, and from then on it is the one wanted, whether or not it can be applied. */
    method Adopt(next: Snapshot) returns (o: Outcome)
      requires Valid() && ValidSnapshot(next) && ViewOf(world.log).answer == Some(next)
      modifies this
      modifies world`clock, world`policy, world`table, world`wireguard, world`log, world`faults, world`blocks
      ensures world.Valid() && old(world.log) <= world.log && world.clock >= old(world.clock)
      ensures o != Crashed ==> Valid()
      ensures hasPolicy && desired == next
      ensures o == Done ==> CurrentSince(old(world.clock)) && world.faults == old(world.faults)
      ensures old(world.faults) ==> world.faults
      ensures !world.faults ==> o == Done
    {
      hide Legal, ViewOf, ValidSnapshot, Compile, ActivePeers, AllRules, Earliest, PeersFor, Shows, Synced;
      ghost var start := world.clock;
      number := |ViewOf(world.log).received| + 1;
      world.Receive(number, next);
      desired := next;
      hasPolicy := true;
      o := Apply();
      if o == Done {
        ValidRevisions(desired, desired);
        PeersAreCurrent(start);
      }
    }

    /** The portal answered this tick's poll with a valid policy. */
    ghost predicate Answered()
      reads world
    {
      world.polled && world.answer.Policy? && ValidSnapshot(world.answer.next)
    }

    /** The part of a tick that speaks to the portal. */
    method Poll(ghost start: Instant) returns (o: Outcome)
      requires Valid() && !world.faults && world.posted == None
      requires hasPolicy ==> CurrentSince(start)
      requires start <= world.clock
      modifies this
      modifies world`clock, world`policy, world`table, world`wireguard, world`log, world`faults, world`blocks
      modifies world`answer, world`polled, world`posted
      ensures world.Valid() && old(world.log) <= world.log && world.clock >= old(world.clock)
      ensures o != Crashed ==> Valid()
      ensures world.polled
      ensures if Answered() then hasPolicy && desired == world.answer.next
              else hasPolicy == old(hasPolicy) && desired == old(desired)
      ensures o != Crashed && !world.faults && hasPolicy ==> CurrentSince(start)
      ensures o == Done ==> CurrentSince(start) && !world.faults && Answered() && world.posted == Some(Done)
      ensures o == Done ==>
        |world.log| > |old(world.log)| && world.log[|world.log| - 1] == Acknowledged(desired.revision)
      ensures !world.faults ==> if Answered() then world.posted == Some(o) else o == Failed && world.posted == None
      ensures old(hasPolicy) && o == Done && desired == old(desired) ==>
        world.log == old(world.log) + [Polled(Some(desired)), Acknowledged(desired.revision)]
    {
      hide Legal, ViewOf, ValidSnapshot, Compile, ActivePeers, AllRules, Earliest, PeersFor, Shows, Synced;
      var answer := world.Fetch();
      if !answer.Policy? {
        return Failed;
      }
      var next := answer.next;
      var valid := Validate(next);
      if !valid {
        return Failed;
      }
      ValidRevisions(next, desired);
      if !hasPolicy || next.revision != applied {
        o := Adopt(next);
        if o != Done {
          return;
        }
      }
      o := world.PostAcknowledgment(applied);
    }

    /** One poll. Success or error, the tick-boundary invariant holds at its end. If this tick's own
        local commands work, the peers are current when it ends, whether or not the portal answers
        and whatever failed in earlier ticks or lives. A valid answer is what is wanted from then
        on, even if it could not be applied; anything else leaves what is wanted alone. With local
        commands that work the portal is always polled, a valid answer is in force at the end, and
        the tick ends as posting its acknowledgment did, or fails for want of a valid answer. A
        policy that is in force and unexpired is not installed again when the portal repeats it. */
    method Tick() returns (o: Outcome)
      requires Valid()
      modifies this, world
      ensures world.Valid() && old(world.log) <= world.log && world.clock >= old(world.clock)
      ensures o != Crashed ==> Valid()
      ensures o == Done ==> CurrentSince(old(world.clock)) && !world.faults
      ensures o == Done ==> Answered() && world.answer == Response.Policy(desired) && world.posted == Some(Done)
      ensures o == Done ==>
        |world.log| > |old(world.log)| && world.log[|world.log| - 1] == Acknowledged(desired.revision)
      ensures o != Crashed && !world.faults && old(hasPolicy) ==> CurrentSince(old(world.clock))
      ensures Answered() ==> hasPolicy && desired == world.answer.next
      ensures !Answered() ==> hasPolicy == old(hasPolicy) && desired == old(desired)
      ensures !world.faults ==> world.polled
      ensures o != Crashed && !world.faults && world.answer.Policy? && ValidSnapshot(world.answer.next) ==>
        hasPolicy && desired == world.answer.next && CurrentSince(old(world.clock))
      ensures !world.faults ==> if Answered() then world.posted == Some(o) else o == Failed && world.posted == None
      ensures old(applied) != Blank && (old(appliedUntil).None? || world.clock < old(appliedUntil).value) ==>
        o == Done && desired == old(desired) ==>
        world.log == old(world.log) + [Polled(Some(desired)), Acknowledged(desired.revision)]
    {
      hide Legal, ViewOf, ValidSnapshot, Compile, ActivePeers, AllRules, Earliest, PeersFor, Shows, Synced;
      world.faults, world.polled, world.posted := false, false, None;
      o := CatchUp();
      if o != Done {
        return;
      }
      o := Poll(old(world.clock));
    }

    /** The peer list is that of the moment the live part was taken, and of every moment since
        then that is before `appliedUntil`. */
    lemma PeersAreCurrent(t: Instant)
      requires Valid() && applied != Blank
      requires t <= world.clock
      requires activeAt >= t || appliedUntil.None? || t < appliedUntil.value
      ensures exists u :: t <= u <= world.clock && world.wireguard == PeersFor(ActivePeers(desired.peers, u))
    {
      if activeAt < t {
        PeerListStable(desired.peers, activeAt, t);
      }
    }
  }

  /** A valid policy has a revision, and two with the same revision are the same. */
  lemma ValidRevisions(a: Snapshot, b: Snapshot)
    ensures ValidSnapshot(a) ==> a.revision != Blank
    ensures ValidSnapshot(a) && ValidSnapshot(b) && a.revision == b.revision ==> a == b
  {
  }

  lemma EarliestNext(rules: seq<Rule>, r: Rule)
    ensures Earliest(rules + [r]) ==
      if r.expires.None? then Earliest(rules)
      else if Earliest(rules).None? || r.expires.value < Earliest(rules).value then r.expires
      else Earliest(rules)
  {
  }

  method EarliestExpiry(peers: seq<Peer>) returns (until: Option<Instant>)
    ensures until == Earliest(AllRules(peers))
  {
    until := None;
    assert AllRules(peers[..0]) == [];
    hide Earliest, AllRules;
    for i := 0 to |peers|
      invariant until == Earliest(AllRules(peers[..i]))
    {
      AllRulesStep(peers, i);
      var p := peers[i];
      ghost var before := AllRules(peers[..i]);
      assert before + p.rules[..0] == before;
      for j := 0 to |p.rules|
        invariant until == Earliest(before + p.rules[..j])
      {
        assert before + p.rules[..j + 1] == before + p.rules[..j] + [p.rules[j]];
        EarliestNext(before + p.rules[..j], p.rules[j]);
        var expires := p.rules[j].expires;
        if expires.Some? && (until.None? || expires.value < until.value) {
          until := expires;
        }
      }
      assert p.rules[..|p.rules|] == p.rules;
    }
    assert peers[..|peers|] == peers;
  }

  predicate Configured(wireguard: seq<WireGuardPeer>, host: Prefixes.Addr) {
    exists i :: 0 <= i < |wireguard| && wireguard[i].allowed == Prefixes.Ip4(host, 32)
  }

  /** A peer with a running rule had it unexpired at every moment up to the compilation. */
  lemma RunningIsSynced(policy: Snapshot, wireguard: seq<WireGuardPeer>, at: Instant, loaded: Instant, now: Instant,
                        peer: Peer, r: Rule)
    requires peer in policy.peers && r in peer.rules && PoolAddress(peer.address)
    requires Running(r, at, loaded, now) && Synced(wireguard, policy, at)
    ensures Configured(wireguard, Host(peer))
  {
    hide ActivePeers, LiveRules;
    var t: Instant :| t <= at && wireguard == PeersFor(ActivePeers(policy.peers, t));
    LiveRulesExactly(peer.rules, t, r);
    var live := peer.(rules := LiveRules(peer.rules, t));
    ActivePeersExactly(policy.peers, t, live);
    var i :| 0 <= i < |ActivePeers(policy.peers, t)| && ActivePeers(policy.peers, t)[i] == live;
    assert wireguard[i].allowed == peer.address;
  }

  lemma RequesterIsSynced(policy: Snapshot, wireguard: seq<WireGuardPeer>, at: Instant, loaded: Instant, now: Instant,
                          p: Packet)
    requires ValidSnapshot(policy) && Requested(policy.peers, at, loaded, now, p) && Synced(wireguard, policy, at)
    ensures Configured(wireguard, p.src)
  {
    hide Synced, Configured, Running, Allows, ValidKey, DistinctPeers, ValidRuleList;
    var peer, r :| peer in policy.peers && r in peer.rules && Host(peer) == p.src && Allows(r, p)
      && Running(r, at, loaded, now);
    var i :| 0 <= i < |policy.peers| && policy.peers[i] == peer;
    assert ValidPeer(policy.peers[i]);
    RunningIsSynced(policy, wireguard, at, loaded, now, peer, r);
  }

  /** In every state between two commands, crashes included: whoever has packets forwarded, or
      answered, is a configured WireGuard peer with that address. */
  lemma ForwardedIsSynced(world: World, now: Instant, p: Packet)
    requires world.Valid() && world.table.Some?
    requires Forward(world.table.value.0, world.table.value.1, now, p) == Accept
    ensures Configured(world.wireguard, RequestOf(p).src)
  {
    hide Legal, ViewOf, Compile, Forward, ValidPeer, ValidRule, DistinctPeers, Requested, Synced, Configured;
    var f := ViewOf(world.log).filter;
    ViewIsGenuine(world.log);
    if f.Denied? {
      DenyAll(0, world.table.value.1, now, p);
    }
    ForwardedIsRequested(f.policy.peers, f.at, f.loaded, now, p);
    RequesterIsSynced(f.policy, world.wireguard, f.at, f.loaded, now, RequestOf(p));
  }

  lemma PeersAreSynced(wireguard: seq<WireGuardPeer>, policy: Snapshot, now: Instant, at: Instant)
    requires now <= at && wireguard == PeersFor(ActivePeers(policy.peers, now))
    ensures Synced(wireguard, policy, at)
  {
  }

  lemma CompileOfActive(peers: seq<Peer>, at: Instant, later: Instant)
    requires at <= later
    ensures Compile(ActivePeers(peers, at), later) == Compile(peers, later)
  {
    EntriesOfActive(ActivePeers(peers, at), later);
    ActiveTwice(peers, at, later);
    EntriesOfActive(peers, later);
  }

  /** Until the earliest expiry the peers with an unexpired rule stay the same. */
  lemma PeerListStable(peers: seq<Peer>, at: Instant, later: Instant)
    requires at <= later
    requires var until := Earliest(AllRules(ActivePeers(peers, at))); until.None? || later < until.value
    ensures ActivePeers(peers, later) == ActivePeers(peers, at)
  {
    var rules := AllRules(ActivePeers(peers, at));
    forall r | r in rules ensures Live(r, later) {
      ActiveRulesAreLive(peers, at, r);
      EarliestIsLeast(rules, r);
    }
    ActiveStable(peers, at, later);
  }

  lemma {:induction false} ActiveRulesAreLive(peers: seq<Peer>, at: Instant, r: Rule)
    requires r in AllRules(ActivePeers(peers, at))
    ensures Live(r, at)
  {
    var front, last := peers[..|peers| - 1], peers[|peers| - 1];
    var live := LiveRules(last.rules, at);
    var active := ActivePeers(peers, at);
    if live == [] {
      assert active == ActivePeers(front, at);
      ActiveRulesAreLive(front, at, r);
    } else {
      assert active[..|active| - 1] == ActivePeers(front, at);
      if r in live {
        LiveRulesExactly(last.rules, at, r);
      } else {
        ActiveRulesAreLive(front, at, r);
      }
    }
  }

  /** The agent over any number of lives: each starts from what the last one left on disk and in
      the kernel and ticks until it is stopped or crashes. */
  method Serve(world: World, lives: nat)
    requires world.Valid()
    modifies world
    ensures world.Valid() && old(world.log) <= world.log
  {
    hide Legal, ViewOf, ValidPeers, Compile, ActivePeers, AllRules, Earliest, PeersFor, Shows, Synced;
    for life := 0 to lives
      invariant world.Valid() && old(world.log) <= world.log
    {
      var gateway := new Gateway(world);
      var o := gateway.Init();
      if o == Done {
        var ticks: nat := *;
        while ticks > 0 && o != Crashed
          invariant world.Valid() && old(world.log) <= world.log && fresh(gateway) && gateway.world == world
          invariant o != Crashed ==> gateway.Valid()
          decreases ticks
        {
          o := gateway.Tick();
          ticks := ticks - 1;
        }
      }
    }
  }
}
