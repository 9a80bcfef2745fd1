/** Whole runs of webhook events, handled one after the other on tables that start empty. */
module LicenseHistory {
  import opened Options
  import opened Billing

  type Users = map<Customer, User>

  function Run(users: Users, ds: seq<Delivery>): Db {
    if ds == [] then Db(users, map[], map[])
    else Process(Run(users, ds[..|ds| - 1]), ds[|ds| - 1])
  }

  ghost predicate DistinctKeys(ds: seq<Delivery>) {
    forall i, j :: 0 <= i < j < |ds| ==> ds[i].keyHash != ds[j].keyHash
  }

  ghost function DrawnKeys(ds: seq<Delivery>): set<KeyHash> {
    set d | d in ds :: d.keyHash
  }

  lemma {:induction false} RunTables(users: Users, ds: seq<Delivery>)
    ensures Run(users, ds).users == users && Run(users, ds).licenses.Keys <= DrawnKeys(ds)
  {
    if ds != [] {
      var front, d := ds[..|ds| - 1], ds[|ds| - 1];
      RunTables(users, front);
      assert DrawnKeys(front) + {d.keyHash} <= DrawnKeys(ds);
    }
  }

  lemma LastKeyIsFresh(users: Users, ds: seq<Delivery>)
    requires ds != [] && DistinctKeys(ds)
    ensures ds[|ds| - 1].keyHash !in Run(users, ds[..|ds| - 1]).licenses
  {
    RunTables(users, ds[..|ds| - 1]);
  }

  // ----- who holds a license ---------------------------------------------------------------

  /** An event that writes a subscription row for the user with status active. */
  predicate Grants(users: Users, e: Event, u: User) {
    e.Changed? && e.customer in users && users[e.customer] == u && e.periods != [] && e.status == "active"
  }

  /** The owner of a subscription row: the user of the first event that wrote it. */
  function Owner(users: Users, ds: seq<Delivery>, sub: SubId): Option<User> {
    if ds == [] then None
    else
      var earlier, e := Owner(users, ds[..|ds| - 1], sub), ds[|ds| - 1].event;
      if earlier.Some? then earlier
      else if e.Changed? && e.sub == sub && e.customer in users && e.periods != [] then Some(users[e.customer])
      else None
  }

  /** The j-th event deletes a subscription row that the user owns. */
  ghost predicate Revokes(users: Users, ds: seq<Delivery>, j: nat, u: User)
    requires j < |ds|
  {
    ds[j].event.Deleted? && Owner(users, ds[..j], ds[j].event.sub) == Some(u)
  }

  /** Some active event of the user came after the last deletion of a row of theirs. */
  ghost predicate Entitled(users: Users, ds: seq<Delivery>, u: User) {
    exists i :: 0 <= i < |ds| && Grants(users, ds[i].event, u) && forall j :: i < j < |ds| ==> !Revokes(users, ds, j, u)
  }

  lemma {:induction false} OwnerIsRowUser(users: Users, ds: seq<Delivery>, sub: SubId)
    ensures Owner(users, ds, sub)
         == if sub in Run(users, ds).subs then Some(Run(users, ds).subs[sub].user) else None
  {
    if ds != [] {
      OwnerIsRowUser(users, ds[..|ds| - 1], sub);
      RunTables(users, ds[..|ds| - 1]);
    }
  }

  lemma EntitledStep(users: Users, ds: seq<Delivery>, u: User)
    requires ds != []
    ensures Entitled(users, ds, u)
       <==> || Grants(users, ds[|ds| - 1].event, u)
            || (Entitled(users, ds[..|ds| - 1], u) && !Revokes(users, ds, |ds| - 1, u))
  {
    hide Owner;
    var front := ds[..|ds| - 1];
    forall j | 0 <= j < |front| ensures Revokes(users, front, j, u) == Revokes(users, ds, j, u) {
      assert front[..j] == ds[..j];
    }
    if Entitled(users, front, u) && !Revokes(users, ds, |ds| - 1, u) {
      var i :| 0 <= i < |front| && Grants(users, front[i].event, u)
               && forall j :: i < j < |front| ==> !Revokes(users, front, j, u);
      assert Grants(users, ds[i].event, u);
    }
    if Entitled(users, ds, u) && !Grants(users, ds[|ds| - 1].event, u) {
      var i :| 0 <= i < |ds| && Grants(users, ds[i].event, u) && forall j :: i < j < |ds| ==> !Revokes(users, ds, j, u);
      assert Grants(users, front[i].event, u);
    }
  }

  /** A user has a valid license, and then exactly one, if and only if some active event of
      theirs was handled after the last deletion of a row they own. */
  lemma {:induction false} LicenseIffEntitled(users: Users, ds: seq<Delivery>, u: User)
    requires DistinctKeys(ds)
    ensures Live(Run(users, ds).licenses, u) == if Entitled(users, ds, u) then 1 else 0
  {
    hide Live, Process, Revokes, Grants;
    if ds == [] {
      NoLicenses(u);
    } else {
      var front, d := ds[..|ds| - 1], ds[|ds| - 1];
      LicenseIffEntitled(users, front, u);
      LastKeyIsFresh(users, ds);
      EntitledStep(users, ds, u);
      LiveAfterProcess(Run(users, front), d, u);
      StepRoles(users, ds, u);
    }
  }

  lemma NoLicenses(u: User)
    ensures Live(map[], u) == 0
  {
    assert LiveKeys(map[], u) == {};
  }

  lemma StepRoles(users: Users, ds: seq<Delivery>, u: User)
    requires ds != []
    ensures var db, e := Run(users, ds[..|ds| - 1]), ds[|ds| - 1].event;
            && (Revokes(users, ds, |ds| - 1, u) <==> DeletedUser(db, e) == Some(u))
            && (Grants(users, e, u) <==> ChangedUser(db, e) == Some(u) && e.status == "active")
            && (Grants(users, e, u) ==> !Revokes(users, ds, |ds| - 1, u))
  {
    RunTables(users, ds[..|ds| - 1]);
    if ds[|ds| - 1].event.Deleted? {
      OwnerIsRowUser(users, ds[..|ds| - 1], ds[|ds| - 1].event.sub);
    }
  }

  /** A live license does not imply an active subscription: a past_due update leaves it. */
  lemma LicenseWithoutActiveSubscription()
    ensures var users := map["cus" := 1];
            var ds := [Delivery(Changed("sub", "cus", "active", [0]), "k1", 0),
                       Delivery(Changed("sub", "cus", "past_due", [0]), "k2", 1)];
            var db := Run(users, ds);
            && Live(db.licenses, 1) == 1 && !HasActiveRow(db, 1)
            && forall s :: s in db.subs ==> db.subs[s].status != "active"
  {
    var users := map["cus" := 1];
    var ds := [Delivery(Changed("sub", "cus", "active", [0]), "k1", 0),
               Delivery(Changed("sub", "cus", "past_due", [0]), "k2", 1)];
    assert ds[..1] == [ds[0]] && ds[..1][..0] == [];
    assert Grants(users, ds[0].event, 1) && !Revokes(users, ds, 1, 1);
    LicenseIffEntitled(users, ds, 1);
    assert Run(users, []) == Db(users, map[], map[]);
    assert Run(users, ds[..1]).subs.Keys == {"sub"} && Run(users, ds[..1]).users == users;
  }

  // ----- what a row says -------------------------------------------------------------------

  /** A created or updated event that writes the row. */
  predicate Upserts(users: Users, e: Event, sub: SubId) {
    e.Changed? && e.sub == sub && e.customer in users && e.periods != []
  }

  /** The i-th event writes the row of a subscription: the row exists by then, or this event
      inserts it. */
  ghost predicate Writes(users: Users, ds: seq<Delivery>, i: nat, sub: SubId)
    requires i < |ds|
  {
    var e := ds[i].event;
    || Upserts(users, e, sub)
    || (e.Deleted? && e.sub == sub && Owner(users, ds[..i], sub).Some?)
  }

  /** The row matches the event that wrote it last, and the user of the one that wrote it first. */
  ghost predicate LastWrite(users: Users, ds: seq<Delivery>, i: nat, sub: SubId, row: Subscription)
    requires i < |ds|
  {
    && Writes(users, ds, i, sub)
    && (forall j :: i < j < |ds| ==> !Writes(users, ds, j, sub))
    && row.status == (if ds[i].event.Changed? then ds[i].event.status else "canceled")
    && (ds[i].event.Changed? ==> row.periodEnd == ds[i].event.periods[0])
    && Owner(users, ds, sub) == Some(row.user)
  }

  lemma WritesOfFront(users: Users, ds: seq<Delivery>, i: nat, sub: SubId)
    requires i < |ds| - 1
    ensures Writes(users, ds[..|ds| - 1], i, sub) == Writes(users, ds, i, sub)
  {
    assert ds[..|ds| - 1][..i] == ds[..i];
  }

  /** Every subscription row says what the last event that wrote it says, and belongs to the
      user of the first. */
  lemma {:induction false} RowSaysLastEvent(users: Users, ds: seq<Delivery>, sub: SubId)
    requires sub in Run(users, ds).subs
    ensures exists i :: 0 <= i < |ds| && LastWrite(users, ds, i, sub, Run(users, ds).subs[sub])
  {
    hide Owner, Process, Writes;
    var front, last := ds[..|ds| - 1], |ds| - 1;
    RowStep(users, ds, sub);
    OwnerIsRowUser(users, ds, sub);
    if Writes(users, ds, last, sub) {
      assert LastWrite(users, ds, last, sub, Run(users, ds).subs[sub]);
    } else {
      RowSaysLastEvent(users, front, sub);
      var i :| 0 <= i < |front| && LastWrite(users, front, i, sub, Run(users, front).subs[sub]);
      forall j: nat | j < last { WritesOfFront(users, ds, j, sub); }
      assert LastWrite(users, ds, i, sub, Run(users, ds).subs[sub]);
    }
  }

  /** One event's effect on one row. */
  lemma RowStep(users: Users, ds: seq<Delivery>, sub: SubId)
    requires ds != [] && sub in Run(users, ds).subs
    ensures var front, last, row := Run(users, ds[..|ds| - 1]), |ds| - 1, Run(users, ds).subs[sub];
            if Writes(users, ds, last, sub)
            then var e := ds[last].event;
                 && row.status == (if e.Changed? then e.status else "canceled")
                 && (e.Changed? ==> row.periodEnd == e.periods[0])
            else sub in front.subs && row == front.subs[sub]
  {
    hide Owner, Live, RevokeAll;
    RunTables(users, ds[..|ds| - 1]);
    OwnerIsRowUser(users, ds[..|ds| - 1], sub);
  }

  // ----- the tables in full ----------------------------------------------------------------

  lemma {:induction false} RowExists(users: Users, ds: seq<Delivery>, sub: SubId)
    ensures sub in Run(users, ds).subs <==> exists i :: 0 <= i < |ds| && Upserts(users, ds[i].event, sub)
  {
    if ds != [] {
      var front, last := ds[..|ds| - 1], ds[|ds| - 1];
      RowExists(users, front, sub);
      RunTables(users, front);
      RowAfter(Run(users, front), last, sub);
      if exists i :: 0 <= i < |ds| && Upserts(users, ds[i].event, sub) {
        var i :| 0 <= i < |ds| && Upserts(users, ds[i].event, sub);
        assert i < |front| ==> Upserts(users, front[i].event, sub);
      }
      if Upserts(users, last.event, sub) { assert Upserts(users, ds[|ds| - 1].event, sub); }
    }
  }

  /** What one event does to one row, field by field. */
  lemma RowAfter(db: Db, d: Delivery, sub: SubId)
    ensures var e, subs := d.event, Process(db, d).subs;
            && (sub in subs <==> sub in db.subs || Upserts(db.users, e, sub))
            && (sub in subs && sub !in db.subs ==>
                  && subs[sub].user == db.users[e.customer] && subs[sub].customer == e.customer
                  && subs[sub].tier == "standard")
            && (sub in db.subs ==>
                  && subs[sub].user == db.subs[sub].user && subs[sub].customer == db.subs[sub].customer
                  && subs[sub].tier == db.subs[sub].tier)
            && (Upserts(db.users, e, sub) ==> subs[sub].status == e.status && subs[sub].periodEnd == e.periods[0])
            && (sub in db.subs && !Upserts(db.users, e, sub) ==>
                  && subs[sub].periodEnd == db.subs[sub].periodEnd
                  && subs[sub].status == if e == Deleted(sub) then "canceled" else db.subs[sub].status)
  {
    hide Live, RevokeAll;
  }

  /** The event that inserted the row says whose it is. */
  lemma {:induction false} RowSaysFirst(users: Users, ds: seq<Delivery>, i: nat, sub: SubId)
    requires i < |ds| && Upserts(users, ds[i].event, sub)
    requires forall j :: 0 <= j < i ==> !Upserts(users, ds[j].event, sub)
    ensures var subs, customer := Run(users, ds).subs, ds[i].event.customer;
            && sub in subs && subs[sub].user == users[customer] && subs[sub].customer == customer
            && subs[sub].tier == "standard"
  {
    hide Process;
    var front, last := ds[..|ds| - 1], ds[|ds| - 1];
    RunTables(users, front);
    RowAfter(Run(users, front), last, sub);
    if i == |front| {
      RowExists(users, front, sub);
    } else {
      RowSaysFirst(users, front, i, sub);
    }
  }

  /** The last created or updated event says its period and, unless a deletion came after it, its
      status. */
  lemma {:induction false} RowSaysLast(users: Users, ds: seq<Delivery>, k: nat, sub: SubId)
    requires k < |ds| && Upserts(users, ds[k].event, sub)
    requires forall j :: k < j < |ds| ==> !Upserts(users, ds[j].event, sub)
    ensures var subs, e := Run(users, ds).subs, ds[k].event;
            && sub in subs && subs[sub].periodEnd == e.periods[0]
            && ((exists j :: k < j < |ds| && ds[j].event == Deleted(sub)) ==> subs[sub].status == "canceled")
            && ((forall j :: k < j < |ds| ==> ds[j].event != Deleted(sub)) ==> subs[sub].status == e.status)
  {
    hide Process;
    var front, last := ds[..|ds| - 1], ds[|ds| - 1];
    RunTables(users, front);
    RowAfter(Run(users, front), last, sub);
    if k < |front| {
      RowSaysLast(users, front, k, sub);
      if exists j :: k < j < |ds| && ds[j].event == Deleted(sub) {
        var j :| k < j < |ds| && ds[j].event == Deleted(sub);
        assert j < |front| ==> front[j].event == Deleted(sub);
      }
    }
  }

  /** After any run the row of a subscription is there exactly when some event wrote it, and is
      determined by the first and the last such event and the deletions since. */
  lemma RowSaysHistory(users: Users, ds: seq<Delivery>, i: nat, k: nat, sub: SubId)
    requires i <= k < |ds| && Upserts(users, ds[i].event, sub) && Upserts(users, ds[k].event, sub)
    requires forall j :: 0 <= j < |ds| && Upserts(users, ds[j].event, sub) ==> i <= j <= k
    ensures sub in Run(users, ds).subs
    ensures Run(users, ds).subs[sub]
         == Subscription(users[ds[i].event.customer], ds[i].event.customer, "standard",
                         if exists j :: k < j < |ds| && ds[j].event == Deleted(sub) then "canceled"
                         else ds[k].event.status,
                         ds[k].event.periods[0])
  {
    hide Run;
    RowSaysFirst(users, ds, i, sub);
    RowSaysLast(users, ds, k, sub);
  }

  /** The i-th event draws a key that is given to the user: it is active and finds no license. */
  ghost predicate Issues(users: Users, ds: seq<Delivery>, i: nat, u: User)
    requires i < |ds|
  {
    Grants(users, ds[i].event, u) && !Entitled(users, ds[..i], u)
  }

  /** The j-th event is the first after the i-th to delete a row of the user. */
  ghost predicate FirstRevoked(users: Users, ds: seq<Delivery>, i: nat, j: nat, u: User)
    requires i < j < |ds|
  {
    Revokes(users, ds, j, u) && forall m :: i < m < j ==> !Revokes(users, ds, m, u)
  }

  lemma LicenseAfter(db: Db, d: Delivery, k: KeyHash)
    ensures var after := Process(db, d).licenses;
            && (k !in db.licenses && k != d.keyHash ==> k !in after)
            && (k in db.licenses ==>
                  k in after
                  && var row := db.licenses[k];
                     after[k] == if DeletedUser(db, d.event) == Some(row.user) && row.revokedAt.None?
                                 then row.(revokedAt := Some(d.now)) else row)
            && (k !in db.licenses && k == d.keyHash ==> forall u: User ::
                  (k in after && after[k].user == u
                   <==> ChangedUser(db, d.event) == Some(u) && d.event.status == "active" && Live(db.licenses, u) == 0))
            && (k !in db.licenses && k in after ==> after[k].revokedAt.None?)
  {
    hide Live;
  }

  lemma RevokesOfFront(users: Users, ds: seq<Delivery>, j: nat, u: User)
    requires j < |ds| - 1
    ensures Revokes(users, ds[..|ds| - 1], j, u) == Revokes(users, ds, j, u)
  {
    assert ds[..|ds| - 1][..j] == ds[..j];
  }

  /** After any run the license with the key that an event drew is there exactly when the event
      was active and found no license of its user; it is that user's, and it is revoked exactly
      when a row of theirs was deleted since, at the time of the first such deletion. */
  lemma {:induction false} LicenseSaysHistory(users: Users, ds: seq<Delivery>, i: nat, u: User)
    requires DistinctKeys(ds) && i < |ds|
    ensures var licenses, k := Run(users, ds).licenses, ds[i].keyHash;
            && (k in licenses && licenses[k].user == u <==> Issues(users, ds, i, u))
            && (Issues(users, ds, i, u) ==>
                  && ((forall j :: i < j < |ds| ==> !Revokes(users, ds, j, u)) ==> licenses[k].revokedAt == None)
                  && (forall j :: i < j < |ds| && FirstRevoked(users, ds, i, j, u) ==>
                        licenses[k].revokedAt == Some(ds[j].now)))
  {
    hide Process, Live, Grants, Entitled, Revokes, DeletedUser, ChangedUser;
    var front, last := ds[..|ds| - 1], ds[|ds| - 1];
    var db, k := Run(users, front), ds[i].keyHash;
    LastKeyIsFresh(users, ds);
    LicenseAfter(db, last, k);
    StepRoles(users, ds, u);
    if i == |front| {
      LicenseIffEntitled(users, front, u);
      assert ds[..i] == front;
    } else {
      LicenseSaysHistory(users, front, i, u);
      assert front[..i] == ds[..i];
      forall j: nat | j < |front| ensures Revokes(users, front, j, u) == Revokes(users, ds, j, u) {
        RevokesOfFront(users, ds, j, u);
      }
      if Issues(users, ds, i, u) { RevokedAfterFront(users, ds, i, u); }
    }
  }

  lemma RevokedAfterFront(users: Users, ds: seq<Delivery>, i: nat, u: User)
    requires i < |ds| - 1
    ensures var front := ds[..|ds| - 1];
            forall j :: i < j < |front| ==>
              (FirstRevoked(users, front, i, j, u) <==> FirstRevoked(users, ds, i, j, u))
  {
    hide Revokes;
    var front := ds[..|ds| - 1];
    forall j | i < j < |front|
      ensures FirstRevoked(users, front, i, j, u) <==> FirstRevoked(users, ds, i, j, u)
    {
      forall m | i < m <= j ensures Revokes(users, front, m, u) == Revokes(users, ds, m, u) {
        RevokesOfFront(users, ds, m, u);
      }
    }
  }

  // ----- licenses and active rows ----------------------------------------------------------

  /** A license is meant to stand for an active subscription row of its user. */
  ghost predicate HasActiveRow(db: Db, u: User) {
    exists s :: s in db.subs && db.subs[s].user == u && db.subs[s].status == "active"
  }

  /** The i-th event is active, and the last to write a row that is the user's. */
  ghost predicate LastActive(users: Users, ds: seq<Delivery>, i: nat, u: User)
    requires i < |ds|
  {
    var e := ds[i].event;
    && e.Changed? && e.status == "active" && Writes(users, ds, i, e.sub) && Owner(users, ds, e.sub) == Some(u)
    && forall j :: i < j < |ds| ==> !Writes(users, ds, j, e.sub)
  }

  ghost predicate StillActive(users: Users, ds: seq<Delivery>, u: User) {
    exists i :: 0 <= i < |ds| && LastActive(users, ds, i, u)
  }

  /** A user has an active row exactly when an active event was the last to write one of theirs. */
  lemma ActiveRowIffStillActive(users: Users, ds: seq<Delivery>, u: User)
    ensures HasActiveRow(Run(users, ds), u) <==> StillActive(users, ds, u)
  {
    hide Owner, Run;
    var db := Run(users, ds);
    if HasActiveRow(db, u) {
      var s :| s in db.subs && db.subs[s].user == u && db.subs[s].status == "active";
      RowSaysLastEvent(users, ds, s);
      var i :| 0 <= i < |ds| && LastWrite(users, ds, i, s, db.subs[s]);
      assert LastActive(users, ds, i, u);
    }
    if StillActive(users, ds, u) {
      var i :| 0 <= i < |ds| && LastActive(users, ds, i, u);
      var s := ds[i].event.sub;
      OwnerIsRowUser(users, ds, s);
      RowSaysLastEvent(users, ds, s);
      var k :| 0 <= k < |ds| && LastWrite(users, ds, k, s, db.subs[s]);
      assert k == i;
    }
  }

  /** A license implies an active row after exactly those runs in which, if an active event of
      the user came after the last deletion of a row of theirs, some row of theirs was written
      last by an active event. */
  lemma LicenseImpliesActiveExactly(users: Users, ds: seq<Delivery>, u: User)
    requires DistinctKeys(ds)
    ensures (Live(Run(users, ds).licenses, u) > 0 ==> HasActiveRow(Run(users, ds), u))
       <==> (Entitled(users, ds, u) ==> StillActive(users, ds, u))
  {
    hide Run, Live, Entitled, StillActive, HasActiveRow;
    LicenseIffEntitled(users, ds, u);
    ActiveRowIffStillActive(users, ds, u);
  }

  /** And the other way round. */
  lemma ActiveImpliesLicenseExactly(users: Users, ds: seq<Delivery>, u: User)
    requires DistinctKeys(ds)
    ensures (HasActiveRow(Run(users, ds), u) ==> Live(Run(users, ds).licenses, u) > 0)
       <==> (StillActive(users, ds, u) ==> Entitled(users, ds, u))
  {
    hide Run, Live, Entitled, StillActive, HasActiveRow;
    LicenseIffEntitled(users, ds, u);
    ActiveRowIffStillActive(users, ds, u);
  }

  /** The other way round fails when one of two active subscriptions is deleted. */
  lemma ActiveRowWithoutLicense()
    ensures var users := map["cus" := 1];
            var ds := [Delivery(Changed("a", "cus", "active", [0]), "k1", 0),
                       Delivery(Changed("b", "cus", "active", [0]), "k2", 1),
                       Delivery(Deleted("a"), "k3", 2)];
            Live(Run(users, ds).licenses, 1) == 0 && HasActiveRow(Run(users, ds), 1)
  {
    var users := map["cus" := 1];
    var ds := [Delivery(Changed("a", "cus", "active", [0]), "k1", 0),
               Delivery(Changed("b", "cus", "active", [0]), "k2", 1),
               Delivery(Deleted("a"), "k3", 2)];
    hide Run, Live, HasActiveRow;
    var two := ds[..2];
    assert two[..1] == [ds[0]] && [ds[0]][..0] == [] && two[1] == ds[1];
    assert Owner(users, [ds[0]], "a") == Some(1);
    assert Owner(users, [ds[0]], "b") == None && Owner(users, two, "b") == Some(1) == Owner(users, ds, "b");
    assert Revokes(users, ds, 2, 1);
    assert LastActive(users, ds, 1, 1);
    hide Owner, Revokes;
    LicenseIffEntitled(users, ds, 1);
    ActiveRowIffStillActive(users, ds, 1);
  }

  // ----- one user at a time ----------------------------------------------------------------

  /** Every event about a subscription names the customer it belongs to. */
  predicate Consistent(e: Event, customerOf: SubId -> Customer) {
    e.Changed? ==> e.customer == customerOf(e.sub)
  }

  ghost predicate ConsistentRun(ds: seq<Delivery>, customerOf: SubId -> Customer) {
    forall i :: 0 <= i < |ds| ==> Consistent(ds[i].event, customerOf)
  }

  /** The user an event is about, if it is about one of ours. */
  function About(users: Users, customerOf: SubId -> Customer, e: Event): Option<User> {
    if e.Other? then None
    else
      var c := if e.Changed? then e.customer else customerOf(e.sub);
      if c in users then Some(users[c]) else None
  }

  function Only(users: Users, customerOf: SubId -> Customer, ds: seq<Delivery>, u: User): seq<Delivery> {
    if ds == [] then []
    else
      var rest, d := Only(users, customerOf, ds[..|ds| - 1], u), ds[|ds| - 1];
      if About(users, customerOf, d.event) == Some(u) then rest + [d] else rest
  }

  ghost function RowsOf(db: Db, u: User): map<SubId, Subscription> {
    map s | s in db.subs && db.subs[s].user == u :: db.subs[s]
  }

  ghost function LicensesOf(db: Db, u: User): Licenses {
    map k | k in db.licenses && db.licenses[k].user == u :: db.licenses[k]
  }

  ghost predicate OwnedByCustomer(db: Db, customerOf: SubId -> Customer) {
    forall s :: s in db.subs ==> customerOf(s) in db.users && db.subs[s].user == db.users[customerOf(s)]
  }

  lemma OwnedStep(db: Db, customerOf: SubId -> Customer, d: Delivery)
    requires OwnedByCustomer(db, customerOf) && Consistent(d.event, customerOf)
    ensures OwnedByCustomer(Process(db, d), customerOf)
  {}

  /** An event about no user of ours, or about a row that is not there, changes nothing. */
  lemma UnknownIsNoOp(db: Db, customerOf: SubId -> Customer, d: Delivery)
    requires OwnedByCustomer(db, customerOf) && Consistent(d.event, customerOf)
    requires About(db.users, customerOf, d.event).None? || (d.event.Deleted? && d.event.sub !in db.subs)
    ensures Process(db, d) == db
  {}

  lemma OthersUntouched(db: Db, customerOf: SubId -> Customer, d: Delivery, u: User)
    requires OwnedByCustomer(db, customerOf) && Consistent(d.event, customerOf) && d.keyHash !in db.licenses
    requires About(db.users, customerOf, d.event) != Some(u)
    ensures RowsOf(Process(db, d), u) == RowsOf(db, u)
    ensures LicensesOf(Process(db, d), u) == LicensesOf(db, u)
  {
    hide Live;
  }

  lemma SameLive(x: Db, y: Db, u: User)
    requires LicensesOf(x, u) == LicensesOf(y, u)
    ensures LiveKeys(x.licenses, u) == LiveKeys(y.licenses, u)
  {
    forall k
      ensures k in LiveKeys(x.licenses, u) <==> k in LiveKeys(y.licenses, u)
    {
      assert k in LiveKeys(x.licenses, u) <==> k in LicensesOf(x, u) && LicensesOf(x, u)[k].revokedAt.None?;
      assert k in LiveKeys(y.licenses, u) <==> k in LicensesOf(y, u) && LicensesOf(y, u)[k].revokedAt.None?;
    }
  }

  /** An event about u does the same to u's rows in any two tables that agree on them. */
  lemma SameEffect(x: Db, y: Db, customerOf: SubId -> Customer, d: Delivery, u: User)
    requires OwnedByCustomer(x, customerOf) && OwnedByCustomer(y, customerOf) && x.users == y.users
    requires Consistent(d.event, customerOf) && About(x.users, customerOf, d.event) == Some(u)
    requires d.keyHash !in x.licenses && d.keyHash !in y.licenses
    requires RowsOf(x, u) == RowsOf(y, u) && LicensesOf(x, u) == LicensesOf(y, u)
    ensures RowsOf(Process(x, d), u) == RowsOf(Process(y, d), u)
    ensures LicensesOf(Process(x, d), u) == LicensesOf(Process(y, d), u)
  {
    SameLive(x, y, u);
    SameRow(x, y, d.event.sub, u, customerOf);
    RowsAfter(x, customerOf, d, u);
    RowsAfter(y, customerOf, d, u);
    LicensesAfter(x, customerOf, d, u);
    LicensesAfter(y, customerOf, d, u);
  }

  lemma SameRow(x: Db, y: Db, s: SubId, u: User, customerOf: SubId -> Customer)
    requires OwnedByCustomer(x, customerOf) && OwnedByCustomer(y, customerOf) && x.users == y.users
    requires RowsOf(x, u) == RowsOf(y, u) && customerOf(s) in x.users && x.users[customerOf(s)] == u
    ensures s in x.subs <==> s in y.subs
    ensures s in x.subs ==> x.subs[s] == y.subs[s] && x.subs[s].user == u
  {
    assert s in x.subs <==> s in RowsOf(x, u);
    assert s in y.subs <==> s in RowsOf(y, u);
    assert s in x.subs ==> x.subs[s] == RowsOf(x, u)[s];
    assert s in y.subs ==> y.subs[s] == RowsOf(y, u)[s];
  }

  /** What an event about u leaves of u's rows, in terms of u's rows alone. */
  lemma RowsAfter(db: Db, customerOf: SubId -> Customer, d: Delivery, u: User)
    requires OwnedByCustomer(db, customerOf) && Consistent(d.event, customerOf) && d.keyHash !in db.licenses
    requires About(db.users, customerOf, d.event) == Some(u)
    ensures RowsOf(Process(db, d), u)
         == var e, rows := d.event, RowsOf(db, u);
            if e.Changed? && e.periods != [] then UpsertRow(rows, u, e)
            else if e.Deleted? then CancelRow(rows, e.sub) else rows
  {
    hide Live, LiveKeys, RevokeAll;
  }

  /** And of their licenses. */
  lemma LicensesAfter(db: Db, customerOf: SubId -> Customer, d: Delivery, u: User)
    requires OwnedByCustomer(db, customerOf) && Consistent(d.event, customerOf) && d.keyHash !in db.licenses
    requires About(db.users, customerOf, d.event) == Some(u)
    ensures LicensesOf(Process(db, d), u)
         == var e, lics, live := d.event, LicensesOf(db, u), LiveKeys(db.licenses, u);
            if e.Changed? && e.periods != [] && e.status == "active" && |live| == 0
            then lics[d.keyHash := License(u, None)]
            else if e.Deleted? && e.sub in RowsOf(db, u)
            then map k | k in lics :: if k in live then lics[k].(revokedAt := Some(d.now)) else lics[k]
            else lics
  {
    hide UpsertRow, CancelRow;
  }

  lemma {:induction false} OnlyKeys(users: Users, customerOf: SubId -> Customer, ds: seq<Delivery>, u: User)
    ensures DrawnKeys(Only(users, customerOf, ds, u)) <= DrawnKeys(ds)
  {
    if ds != [] {
      OnlyKeys(users, customerOf, ds[..|ds| - 1], u);
      assert DrawnKeys(ds[..|ds| - 1]) + {ds[|ds| - 1].keyHash} <= DrawnKeys(ds);
    }
  }

  lemma {:induction false} RunOwned(users: Users, customerOf: SubId -> Customer, ds: seq<Delivery>)
    requires ConsistentRun(ds, customerOf)
    ensures OwnedByCustomer(Run(users, ds), customerOf)
  {
    if ds != [] {
      RunOwned(users, customerOf, ds[..|ds| - 1]);
      OwnedStep(Run(users, ds[..|ds| - 1]), customerOf, ds[|ds| - 1]);
    }
  }

  lemma {:induction false} OnlyConsistent(users: Users, customerOf: SubId -> Customer, ds: seq<Delivery>, u: User)
    requires ConsistentRun(ds, customerOf)
    ensures ConsistentRun(Only(users, customerOf, ds, u), customerOf)
  {
    if ds != [] {
      OnlyConsistent(users, customerOf, ds[..|ds| - 1], u);
      var rest := Only(users, customerOf, ds[..|ds| - 1], u);
      assert ConsistentRun(rest + [ds[|ds| - 1]], customerOf);
    }
  }

  /** A user's rows and licenses after any run are those after the events about that user alone. */
  lemma {:induction false} UserProjection(users: Users, customerOf: SubId -> Customer, ds: seq<Delivery>, u: User)
    requires DistinctKeys(ds) && ConsistentRun(ds, customerOf)
    ensures var all, part := Run(users, ds), Run(users, Only(users, customerOf, ds, u));
            RowsOf(all, u) == RowsOf(part, u) && LicensesOf(all, u) == LicensesOf(part, u)
  {
    hide Process, RowsOf, LicensesOf, OwnedByCustomer;
    if ds != [] {
      var front, d := ds[..|ds| - 1], ds[|ds| - 1];
      UserProjection(users, customerOf, front, u);
      var part := Only(users, customerOf, front, u);
      var x, y := Run(users, front), Run(users, part);
      RunTables(users, front);
      RunTables(users, part);
      OnlyKeys(users, customerOf, front, u);
      LastKeyIsFresh(users, ds);
      LastKeyNotDrawn(ds);
      RunOwned(users, customerOf, front);
      OnlyConsistent(users, customerOf, front, u);
      RunOwned(users, customerOf, part);
      if About(users, customerOf, d.event) == Some(u) {
        SameEffect(x, y, customerOf, d, u);
        assert (part + [d])[..|part|] == part;
      } else {
        OthersUntouched(x, customerOf, d, u);
      }
    }
  }

  lemma LastKeyNotDrawn(ds: seq<Delivery>)
    requires ds != [] && DistinctKeys(ds)
    ensures ds[|ds| - 1].keyHash !in DrawnKeys(ds[..|ds| - 1])
  {}

  /** Events about different users can be handled in either order. */
  lemma DifferentUsersCommute(db: Db, customerOf: SubId -> Customer, d: Delivery, d': Delivery)
    requires OwnedByCustomer(db, customerOf) && Consistent(d.event, customerOf) && Consistent(d'.event, customerOf)
    requires About(db.users, customerOf, d.event) != About(db.users, customerOf, d'.event)
    requires d.keyHash !in db.licenses && d'.keyHash !in db.licenses && d.keyHash != d'.keyHash
    ensures Process(Process(db, d), d') == Process(Process(db, d'), d)
  {
    hide Process, RowsOf, LicensesOf, OwnedByCustomer, About;
    var x, y := Process(Process(db, d), d'), Process(Process(db, d'), d);
    OwnedStep(db, customerOf, d);
    OwnedStep(db, customerOf, d');
    UsersFixed(db, d);
    UsersFixed(db, d');
    UsersFixed(Process(db, d), d');
    UsersFixed(Process(db, d'), d);
    OwnedStep(Process(db, d), customerOf, d');
    OwnedStep(Process(db, d'), customerOf, d);
    ProcessKeys(db, d);
    ProcessKeys(db, d');
    forall u: User
      ensures RowsOf(x, u) == RowsOf(y, u) && LicensesOf(x, u) == LicensesOf(y, u)
    {
      CommuteForUser(db, customerOf, d, d', u);
    }
    TablesByUser(x, y);
  }

  lemma ProcessKeys(db: Db, d: Delivery)
    ensures Process(db, d).licenses.Keys <= db.licenses.Keys + {d.keyHash}
  {}

  lemma CommuteForUser(db: Db, customerOf: SubId -> Customer, d: Delivery, d': Delivery, u: User)
    requires OwnedByCustomer(db, customerOf) && Consistent(d.event, customerOf) && Consistent(d'.event, customerOf)
    requires About(db.users, customerOf, d.event) != About(db.users, customerOf, d'.event)
    requires d.keyHash !in db.licenses && d'.keyHash !in db.licenses && d.keyHash != d'.keyHash
    requires OwnedByCustomer(Process(db, d), customerOf) && OwnedByCustomer(Process(db, d'), customerOf)
    ensures var x, y := Process(Process(db, d), d'), Process(Process(db, d'), d);
            RowsOf(x, u) == RowsOf(y, u) && LicensesOf(x, u) == LicensesOf(y, u)
  {
    hide Process, RowsOf, LicensesOf, OwnedByCustomer, About;
    UsersFixed(db, d);
    UsersFixed(db, d');
    ProcessKeys(db, d);
    ProcessKeys(db, d');
    if About(db.users, customerOf, d.event) != Some(u) {
      OthersUntouched(db, customerOf, d, u);
      OthersUntouched(Process(db, d'), customerOf, d, u);
      if About(db.users, customerOf, d'.event) != Some(u) {
        OthersUntouched(db, customerOf, d', u);
        OthersUntouched(Process(db, d), customerOf, d', u);
      } else {
        SameEffect(Process(db, d), db, customerOf, d', u);
      }
    } else {
      OthersUntouched(db, customerOf, d', u);
      OthersUntouched(Process(db, d), customerOf, d', u);
      SameEffect(Process(db, d'), db, customerOf, d, u);
    }
  }

  /** Two tables that agree on every user's rows are equal. */
  lemma TablesByUser(x: Db, y: Db)
    requires x.users == y.users
    requires forall u: User :: RowsOf(x, u) == RowsOf(y, u) && LicensesOf(x, u) == LicensesOf(y, u)
    ensures x == y
  {
    forall s ensures s in x.subs <==> s in y.subs
             ensures s in x.subs && s in y.subs ==> x.subs[s] == y.subs[s]
    {
      if s in x.subs {
        assert s in RowsOf(x, x.subs[s].user) && s in RowsOf(y, x.subs[s].user);
        assert RowsOf(x, x.subs[s].user)[s] == x.subs[s];
      }
      if s in y.subs {
        assert s in RowsOf(y, y.subs[s].user) && s in RowsOf(x, y.subs[s].user);
      }
    }
    forall k ensures k in x.licenses <==> k in y.licenses
             ensures k in x.licenses && k in y.licenses ==> x.licenses[k] == y.licenses[k]
    {
      if k in x.licenses {
        assert k in LicensesOf(x, x.licenses[k].user) && k in LicensesOf(y, x.licenses[k].user);
        assert LicensesOf(x, x.licenses[k].user)[k] == x.licenses[k];
      }
      if k in y.licenses {
        assert k in LicensesOf(y, y.licenses[k].user) && k in LicensesOf(x, y.licenses[k].user);
      }
    }
  }
}
