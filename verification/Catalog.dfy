/** Accounts, services and access records, and who may see which service. */
module Catalog {
  import opened Base

  /** Whole seconds; the portal stores and compares times at that precision. Rows are named by
      their position in the table, which stands for the database's identifier less one: no row
      that another refers to is ever deleted. */
  type Time = int

  datatype Role = Member | Admin

  datatype User = User(role: Role, enabled: bool, generation: nat)

  /** An account as a handler read it when it authenticated the request; it may be stale. */
  datatype Actor = Actor(id: nat, role: Role, enabled: bool, generation: nat)

  /** `access` is the service whose records open this one, its own when there is none. */
  datatype Service = Service(published: bool, archived: bool, audience: string, access: Option<nat>,
                             category: Option<nat>)
  datatype Category = Category(audience: string, access: Option<nat>)

  datatype RecordState = RecordActive | RecordExpired | RecordRevoked
  datatype RecordRow = RecordRow(state: RecordState, granted: Time, expires: Option<Time>)

  /** An access record with its history rows and its follow-ups (true while open), oldest first. */
  datatype Record = Record(user: nat, service: nat, state: RecordState, granted: Time, expires: Option<Time>,
                           version: nat, rows: seq<RecordRow>, followups: seq<bool>)

  predicate Unexpired(r: Record, now: Time) {
    r.state == RecordActive && (r.expires.None? || r.expires.value > now)
  }

  predicate Covered(records: seq<Record>, user: nat, service: Option<nat>, now: Time) {
    && service.Some?
    && exists i :: 0 <= i < |records| && records[i].user == user
         && records[i].service == service.value && Unexpired(records[i], now)
  }

  predicate HasAccess(records: seq<Record>, u: Actor, service: Option<nat>, now: Time) {
    u.enabled && Covered(records, u.id, service, now)
  }

  /** `open` is the dashboard's public setting; it opens nothing to an enabled account. */
  predicate Audience(records: seq<Record>, u: Actor, audience: string, service: Option<nat>, open: bool, now: Time) {
    if u.enabled && u.role == Admin then true
    else if audience == "public" then u.enabled || open
    else if audience == "member" then u.enabled
    else if audience == "access" then HasAccess(records, u, service, now)
    else false
  }

  predicate CategoryAllowed(categories: seq<Category>, records: seq<Record>, u: Actor, id: Option<nat>,
                            open: bool, now: Time) {
    match id
    case None => true
    case Some(c) => c < |categories| && Audience(records, u, categories[c].audience, categories[c].access, open, now)
  }

  function Opener(services: seq<Service>, id: nat): Option<nat>
    requires id < |services|
  {
    if services[id].access.Some? then services[id].access else Some(id)
  }

  predicate Discover(services: seq<Service>, categories: seq<Category>, records: seq<Record>, u: Actor,
                     id: nat, open: bool, now: Time) {
    id < |services| && var v := services[id];
      || (u.enabled && u.role == Admin)
      || (v.published && !v.archived && CategoryAllowed(categories, records, u, v.category, open, now)
          && Audience(records, u, v.audience, Opener(services, id), open, now))
  }

  /** The rule applied inside a transaction, to a row of services joined with its category. */
  predicate JoinAllowed(records: seq<Record>, u: Actor, audience: string, service: Option<nat>, now: Time) {
    if u.role == Admin then true
    else if audience == "member" || audience == "public" then true
    else if audience != "access" then false
    else Covered(records, u.id, service, now)
  }

  predicate PackServiceAllowed(services: seq<Service>, categories: seq<Category>, records: seq<Record>,
                              u: Actor, id: nat, now: Time) {
    id < |services| && services[id].published && !services[id].archived
    && var v := services[id];
       var joined := if v.category.Some? && v.category.value < |categories| then categories[v.category.value]
                     else Category("member", None);
       JoinAllowed(records, u, v.audience, Opener(services, id), now)
       && JoinAllowed(records, u, joined.audience, joined.access, now)
  }

  predicate Dangling(services: seq<Service>, categories: seq<Category>, id: nat)
    requires id < |services|
  {
    services[id].category.Some? && services[id].category.value >= |categories|
  }

  /** The two visibility rules agree on an enabled account exactly unless the service names a
      category that does not exist while nothing else hides it from a plain member. The foreign
      key of `services.category_id` rules that out. */
  lemma VisibilityAgrees(services: seq<Service>, categories: seq<Category>, records: seq<Record>, u: Actor,
                         id: nat, open: bool, now: Time)
    requires u.enabled && id < |services|
    ensures
      var v := services[id];
      var agree := PackServiceAllowed(services, categories, records, u, id, now)
        == (v.published && !v.archived && Discover(services, categories, records, u, id, open, now));
      agree <==> !(Dangling(services, categories, id) && u.role != Admin && v.published && !v.archived
                   && JoinAllowed(records, u, v.audience, Opener(services, id), now))
  {
  }

  /** An active record of the pair that has no expiry, or one later than `now`. */
  predicate Held(records: seq<Record>, user: nat, service: nat, now: Time) {
    exists i :: 0 <= i < |records| && HeldBy(records[i], user, service, now)
  }

  predicate HeldBy(r: Record, user: nat, service: nat, now: Time) {
    && r.user == user && r.service == service && r.state == RecordActive
    && (r.expires.Some? ==> r.expires.value > now)
  }

  /** The audience shows it to a plain, enabled member. */
  predicate ShownTo(records: seq<Record>, user: nat, audience: string, service: Option<nat>, now: Time) {
    || audience == "public" || audience == "member"
    || (audience == "access" && service.Some? && Held(records, user, service.value, now))
  }

  /** The service and its category, if it has one, are both shown to the member. */
  predicate BothShown(services: seq<Service>, categories: seq<Category>, records: seq<Record>, user: nat, id: nat,
                      now: Time)
    requires id < |services|
  {
    var v := services[id];
    && ShownTo(records, user, v.audience, if v.access.Some? then v.access else Some(id), now)
    && (v.category.Some? && v.category.value < |categories| ==>
          var c := categories[v.category.value];
          ShownTo(records, user, c.audience, c.access, now))
  }

  /** Who may see what. An administrator may have a pack for any published service, a member for one
      that its audience and its category's show; the public sees what both leave open to everyone. */
  lemma VisibilityMeans(services: seq<Service>, categories: seq<Category>, records: seq<Record>, u: Actor,
                        id: nat, open: bool, now: Time)
    requires id < |services|
    ensures PackServiceAllowed(services, categories, records, u, id, now) <==>
      services[id].published && !services[id].archived
      && (u.role == Admin || BothShown(services, categories, records, u.id, id, now))
    ensures !u.enabled ==>
      (Discover(services, categories, records, u, id, open, now) <==>
       var v := services[id];
       && v.published && !v.archived && open && v.audience == "public"
       && (v.category.Some? ==>
             v.category.value < |categories| && categories[v.category.value].audience == "public"))
  {
    var v := services[id];
    CoveredMeans(records, u.id, Opener(services, id), now);
    if v.category.Some? && v.category.value < |categories| {
      CoveredMeans(records, u.id, categories[v.category.value].access, now);
    }
    hide Covered, Held;
  }

  lemma CoveredMeans(records: seq<Record>, user: nat, service: Option<nat>, now: Time)
    ensures Covered(records, user, service, now) <==> service.Some? && Held(records, user, service.value, now)
  {
    if service.Some? {
      forall i | 0 <= i < |records|
        ensures HeldBy(records[i], user, service.value, now)
           <==> records[i].user == user && records[i].service == service.value && Unexpired(records[i], now)
      {
      }
    }
  }
}
