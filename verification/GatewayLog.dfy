/** What the gateway agent does to the machine, as a log, and the order it keeps.

    Policies are numbered in the order they are received. A crash only cuts a log short, so a
    property of every prefix of a legal log is a property of every run with crashes. */
module GatewayLog {
  import opened Base
  import opened Policy
  import opened Rulesets

  datatype Event =
    | Polled(answer: Option<Snapshot>)
    | Received(number: nat, policy: Snapshot)
    | Persisted(number: nat, policy: Snapshot)
    | Blocked
    | Loaded(number: nat, policy: Snapshot, at: Instant, loaded: Instant)
    | Acknowledged(revision: Revision)

  /** The kernel's table: untouched so far, deny-all, or compiled from a policy. */
  datatype Filter = Untouched | Denied | Rules(number: nat, policy: Snapshot, at: Instant, loaded: Instant)

  datatype Disk = Missing | Holding(number: nat, policy: Snapshot)

  /** `received` are the policies received so far; the first has number 1. `answer` is what the last
      poll brought, until it is received. */
  datatype View = View(received: seq<Snapshot>, answer: Option<Snapshot>, disk: Disk, filter: Filter)

  function After(v: View, e: Event): View {
    match e
    case Polled(answer) => v.(answer := answer)
    case Received(n, s) => v.(received := v.received + [s], answer := None)
    case Persisted(n, s) => v.(disk := Holding(n, s))
    case Blocked => v.(filter := Denied)
    case Loaded(n, s, at, loaded) => v.(filter := Rules(n, s, at, loaded))
    case Acknowledged(revision) => v
  }

  function ViewOf(log: seq<Event>): View {
    if log == [] then View([], None, Missing, Untouched)
    else After(ViewOf(log[..|log| - 1]), log[|log| - 1])
  }

  predicate IsReceived(v: View, number: nat, policy: Snapshot) {
    1 <= number <= |v.received| && v.received[number - 1] == policy
  }

  /** The order the agent keeps: a policy is received once, as the answer of the last poll; it
      reaches the kernel only from the disk and only through deny-all, and is acknowledged only while
      it is in both. */
  ghost predicate Allowed(v: View, e: Event) {
    match e
    case Polled(answer) => true
    case Received(n, s) => n == |v.received| + 1 && ValidSnapshot(s) && v.answer == Some(s)
    case Persisted(n, s) =>
      IsReceived(v, n, s) && (v.disk.Holding? ==> v.disk.number <= n)
    case Blocked => true
    case Loaded(n, s, at, loaded) => v.disk == Holding(n, s) && v.filter == Denied && at <= loaded
    case Acknowledged(revision) =>
      && v.filter.Rules? && v.disk == Holding(v.filter.number, v.filter.policy)
      && v.filter.policy.revision == revision
  }

  ghost predicate Legal(log: seq<Event>) {
    forall k :: 0 <= k < |log| ==> Allowed(ViewOf(log[..k]), log[k])
  }

  lemma LegalGrows(log: seq<Event>, e: Event)
    requires Legal(log) && Allowed(ViewOf(log), e)
    ensures Legal(log + [e]) && ViewOf(log + [e]) == After(ViewOf(log), e)
  {
    hide ValidPeers;
    var more := log + [e];
    assert more[..|log|] == log;
    forall k | 0 <= k < |more| ensures Allowed(ViewOf(more[..k]), more[k]) {
      if k < |log| {
        assert more[..k] == log[..k] && more[k] == log[k];
      }
    }
  }

  /** A crash leaves a legal log. */
  lemma LegalPrefix(log: seq<Event>, k: nat)
    requires Legal(log) && k <= |log|
    ensures Legal(log[..k])
  {
    hide ValidPeers;
    forall j | 0 <= j < k ensures Allowed(ViewOf(log[..k][..j]), log[..k][j]) {
      assert log[..k][..j] == log[..j];
    }
  }

  lemma Step(log: seq<Event>, k: nat)
    requires k < |log|
    ensures ViewOf(log[..k + 1]) == After(ViewOf(log[..k]), log[k])
  {
    assert log[..k + 1][..k] == log[..k];
  }

  lemma AllowedAt(log: seq<Event>, k: nat)
    requires Legal(log) && k < |log|
    ensures Allowed(ViewOf(log[..k]), log[k])
  {
  }

  /** Only received policies, and so only valid ones, reach disk and kernel. */
  ghost predicate Genuine(v: View) {
    && (forall k :: 0 <= k < |v.received| ==> ValidSnapshot(v.received[k]))
    && (v.disk.Holding? ==> IsReceived(v, v.disk.number, v.disk.policy))
    && (v.filter.Rules? ==> IsReceived(v, v.filter.number, v.filter.policy))
  }

  lemma {:induction false} ViewIsGenuine(log: seq<Event>)
    requires Legal(log)
    ensures Genuine(ViewOf(log))
  {
    hide Legal, ValidSnapshot;
    if log != [] {
      var last := |log| - 1;
      LegalPrefix(log, last);
      ViewIsGenuine(log[..last]);
      AllowedAt(log, last);
    }
  }

  lemma {:induction false} ReceivedGrows(log: seq<Event>, i: nat, j: nat)
    requires i <= j <= |log|
    ensures ViewOf(log[..i]).received <= ViewOf(log[..j]).received
    decreases j
  {
    hide ViewOf;
    if i < j {
      ReceivedGrows(log, i, j - 1);
      Step(log, j - 1);
    }
  }

  lemma {:induction false} DiskNumberNeverFalls(log: seq<Event>, i: nat, j: nat)
    requires Legal(log) && i <= j <= |log| && ViewOf(log[..i]).disk.Holding?
    ensures ViewOf(log[..j]).disk.Holding?
    ensures ViewOf(log[..j]).disk.number >= ViewOf(log[..i]).disk.number
    decreases j
  {
    hide Legal, ViewOf, ValidSnapshot;
    if i < j {
      DiskNumberNeverFalls(log, i, j - 1);
      Step(log, j - 1);
      AllowedAt(log, j - 1);
    }
  }

  /** What was persisted is never replaced by something older, and stays while its number does. */
  lemma DiskNeverFalls(log: seq<Event>, i: nat, j: nat)
    requires Legal(log) && i <= j <= |log| && ViewOf(log[..i]).disk.Holding?
    ensures ViewOf(log[..j]).disk.Holding?
    ensures ViewOf(log[..j]).disk.number >= ViewOf(log[..i]).disk.number
    ensures ViewOf(log[..j]).disk.number == ViewOf(log[..i]).disk.number
      ==> ViewOf(log[..j]).disk == ViewOf(log[..i]).disk
  {
    hide Legal, ViewOf, ValidSnapshot;
    DiskNumberNeverFalls(log, i, j);
    ReceivedGrows(log, i, j);
    LegalPrefix(log, i);
    LegalPrefix(log, j);
    ViewIsGenuine(log[..i]);
    ViewIsGenuine(log[..j]);
  }

  /** In every run the number of the installed policy never goes down. */
  lemma InstalledNeverFalls(log: seq<Event>, i: nat, j: nat)
    requires Legal(log) && i <= j < |log| && log[i].Loaded? && log[j].Loaded?
    ensures log[i].number <= log[j].number
    ensures log[i].number == log[j].number ==> log[i].policy == log[j].policy
  {
    hide ValidPeers;
    assert Allowed(ViewOf(log[..i]), log[i]) && Allowed(ViewOf(log[..j]), log[j]);
    DiskNeverFalls(log, i, j);
  }

  /** These rules were loaded at `k`, from the policy then on disk. */
  ghost predicate LoadedAt(log: seq<Event>, k: nat, f: Filter)
    requires f.Rules?
  {
    && k < |log| && log[k] == Loaded(f.number, f.policy, f.at, f.loaded)
    && ViewOf(log[..k]).disk == Holding(f.number, f.policy)
  }

  /** The kernel is untouched, deny-all, or holds rules loaded from the policy then on disk. */
  lemma {:induction false} RulesCameFromDisk(log: seq<Event>)
    requires Legal(log) && ViewOf(log).filter.Rules?
    ensures exists k :: LoadedAt(log, k, ViewOf(log).filter)
  {
    assert log != [];
    hide Legal, ViewOf, ValidSnapshot, LoadedAt;
    var last := |log| - 1;
    assert log[..last + 1] == log;
    Step(log, last);
    if log[last].Loaded? {
      AllowedAt(log, last);
      LoadedHere(log, last, ViewOf(log).filter);
    } else {
      LegalPrefix(log, last);
      RulesCameFromDisk(log[..last]);
      var k :| LoadedAt(log[..last], k, ViewOf(log).filter);
      LoadedBefore(log, last, k, ViewOf(log).filter);
    }
  }

  lemma LoadedHere(log: seq<Event>, k: nat, f: Filter)
    requires f.Rules? && k < |log| && log[k] == Loaded(f.number, f.policy, f.at, f.loaded)
    requires ViewOf(log[..k]).disk == Holding(f.number, f.policy)
    ensures LoadedAt(log, k, f)
  {
  }

  lemma LoadedBefore(log: seq<Event>, last: nat, k: nat, f: Filter)
    requires f.Rules? && last <= |log| && LoadedAt(log[..last], k, f)
    ensures LoadedAt(log, k, f)
  {
    assert log[..last][..k] == log[..k];
  }

  /** A policy received at `k` was the answer of the poll at `j`, and nothing was polled or received
      in between: the last poll's answer, received once. */
  ghost predicate AnsweredAt(log: seq<Event>, j: nat, k: nat, policy: Snapshot) {
    && j < k <= |log| && log[j] == Polled(Some(policy))
    && forall i :: j < i < k ==> !log[i].Polled? && !log[i].Received?
  }

  lemma {:induction false} AnswerCameFromPoll(log: seq<Event>, k: nat)
    requires k <= |log| && ViewOf(log[..k]).answer.Some?
    ensures exists j :: AnsweredAt(log, j, k, ViewOf(log[..k]).answer.value)
    decreases k
  {
    assert k > 0;
    hide ViewOf;
    Step(log, k - 1);
    var policy := ViewOf(log[..k]).answer.value;
    if log[k - 1].Polled? {
      assert AnsweredAt(log, k - 1, k, policy);
    } else {
      AnswerCameFromPoll(log, k - 1);
      var j :| AnsweredAt(log, j, k - 1, policy);
      assert AnsweredAt(log, j, k, policy);
    }
  }

  lemma ReceivedWasPolled(log: seq<Event>, k: nat)
    requires Legal(log) && k < |log| && log[k].Received?
    ensures exists j :: AnsweredAt(log, j, k, log[k].policy)
  {
    hide Legal, ViewOf, ValidSnapshot;
    AllowedAt(log, k);
    AnswerCameFromPoll(log, k);
  }

  /** Once a policy is persisted and forwarding has been blocked after that, whatever the kernel
      holds from then on is deny-all or rules of that policy or a later one. */
  lemma {:induction false} SupersededStaysOff(log: seq<Event>, i: nat, k: nat, m: nat)
    requires Legal(log) && i < k < m <= |log| && log[i].Persisted? && log[k].Blocked?
    ensures NotOlder(ViewOf(log[..m]).filter, log[i].number, log[i].policy)
    decreases m
  {
    hide Legal, ViewOf, ValidPeers;
    Step(log, m - 1);
    if m > k + 1 {
      if log[m - 1].Loaded? {
        LoadedAfterPersisted(log, i, m - 1);
      } else {
        SupersededStaysOff(log, i, k, m - 1);
      }
    }
  }

  predicate NotOlder(f: Filter, number: nat, policy: Snapshot) {
    f.Denied? || (f.Rules? && f.number >= number && (f.number == number ==> f.policy == policy))
  }

  lemma LoadedAfterPersisted(log: seq<Event>, i: nat, j: nat)
    requires Legal(log) && i < j < |log| && log[i].Persisted? && log[j].Loaded?
    ensures log[j].number >= log[i].number && (log[j].number == log[i].number ==> log[j].policy == log[i].policy)
  {
    hide ValidPeers;
    Step(log, i);
    DiskNeverFalls(log, i + 1, j);
    assert Allowed(ViewOf(log[..j]), log[j]);
  }

  ghost predicate LastLoad(log: seq<Event>, k: nat, policy: Snapshot) {
    && k < |log| && log[k].Loaded? && log[k].policy == policy
    && forall j :: k < j < |log| && log[j].Loaded? ==> log[j].policy != policy
  }

  /** Loaded at `k` from the disk, the policy is in the kernel exactly if nothing was blocked since. */
  ghost predicate InForceSince(log: seq<Event>, k: nat, policy: Snapshot)
    requires k < |log| && log[k].Loaded?
  {
    var f := ViewOf(log).filter;
    && ViewOf(log[..k]).disk == Holding(log[k].number, policy)
    && (f.Rules? && f.policy == policy <==> forall j :: k < j < |log| ==> !log[j].Blocked?)
  }

  lemma {:induction false} FindLastLoad(log: seq<Event>, l: nat, policy: Snapshot) returns (k: nat)
    requires l < |log| && log[l].Loaded? && log[l].policy == policy
    ensures LastLoad(log, k, policy)
    decreases |log| - l
  {
    k := l;
    if j :| l < j < |log| && log[j].Loaded? && log[j].policy == policy {
      k := FindLastLoad(log, j, policy);
    }
  }

  /** Nothing displaces a loaded policy but a block: another policy is loaded only through deny-all. */
  lemma {:induction false} FilterAfterLoad(log: seq<Event>, k: nat, policy: Snapshot, m: nat)
    requires Legal(log) && LastLoad(log, k, policy) && k < m <= |log|
    ensures var f := ViewOf(log[..m]).filter;
      f.Rules? && f.policy == policy <==> forall j :: k < j < m ==> !log[j].Blocked?
    decreases m
  {
    hide Legal, ViewOf, ValidSnapshot;
    Step(log, m - 1);
    if m > k + 1 {
      FilterAfterLoad(log, k, policy, m - 1);
      AllowedAt(log, m - 1);
    }
  }

  lemma FilterSinceLoad(log: seq<Event>, k: nat, policy: Snapshot)
    requires Legal(log) && LastLoad(log, k, policy)
    ensures InForceSince(log, k, policy)
  {
    hide Legal, ViewOf, ValidSnapshot;
    assert log[..|log|] == log;
    FilterAfterLoad(log, k, policy, |log|);
    AllowedAt(log, k);
  }

  /** The evidence behind an acknowledgment: that very policy was on disk when it was loaded. */
  ghost predicate Installed(log: seq<Event>, revision: Revision) {
    exists k :: 0 <= k < |log| && log[k].Loaded? && log[k].policy.revision == revision
      && ViewOf(log[..k]).disk == Holding(log[k].number, log[k].policy)
  }

  /** An acknowledgment is never ahead of the kernel. */
  lemma AcknowledgedWasInstalled(log: seq<Event>, k: nat)
    requires Legal(log) && k < |log| && log[k].Acknowledged?
    ensures Installed(log[..k], log[k].revision)
  {
    hide ValidPeers;
    assert Allowed(ViewOf(log[..k]), log[k]);
    LegalPrefix(log, k);
    RulesCameFromDisk(log[..k]);
    var j :| LoadedAt(log[..k], j, ViewOf(log[..k]).filter);
  }

  lemma InstalledStays(log: seq<Event>, e: Event, revision: Revision)
    requires Installed(log, revision)
    ensures Installed(log + [e], revision)
  {
    var k :| 0 <= k < |log| && log[k].Loaded? && log[k].policy.revision == revision
      && ViewOf(log[..k]).disk == Holding(log[k].number, log[k].policy);
    var more := log + [e];
    assert more[k] == log[k] && more[..k] == log[..k];
  }

  /** The kernel's table agrees with the log. */
  predicate Shows(table: Option<(Table, Instant)>, f: Filter) {
    match f
    case Untouched => table.None?
    case Denied => table.Some? && table.value.0 == DENY
    case Rules(n, s, at, loaded) => table == Some((Compile(s.peers, at), loaded))
  }

  /** Main theorem. Suppose a policy was received and persisted and forwarding was blocked
      afterwards. In any state of any run from then on, with failing commands and crashes, a
      packet the kernel forwards is one that a policy no older than that one permits: an
      unexpired rule of the peer owning the address, and to or from no reserved address. */
  lemma RevocationHolds(log: seq<Event>, i: nat, k: nat, table: Option<(Table, Instant)>, now: Instant, p: Packet)
    requires Legal(log) && i < k < |log| && log[i].Persisted? && log[k].Blocked?
    requires Shows(table, ViewOf(log).filter)
    ensures table.Some?
    ensures Forward(table.value.0, table.value.1, now, p) == Accept ==>
      var f := ViewOf(log).filter;
      && f.Rules? && ValidSnapshot(f.policy)
      && NotOlder(f, log[i].number, log[i].policy)
      && (|| (p.input == Wg0 && Requested(f.policy.peers, f.at, f.loaded, now, p) && !Reserved(p.dst))
          || (p.tracking == Established && Answered(f.policy.peers, f.at, f.loaded, now, p) && !Reserved(p.src)))
  {
    assert log[..|log|] == log;
    SupersededStaysOff(log, i, k, |log|);
    var f := ViewOf(log).filter;
    if f.Denied? {
      DenyAll(0, table.value.1, now, p);
    } else {
      ViewIsGenuine(log);
      RulesetMeans(f.policy.peers, f.at, f.loaded, now, p);
      if Forward(table.value.0, table.value.1, now, p) == Accept {
        NothingReserved(f.policy, f.at, f.loaded, now, p);
      }
    }
  }
}
