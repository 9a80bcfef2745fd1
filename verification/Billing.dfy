/** Subscription webhooks and license rows. A handler is a short program of SQL statements, each
    of them atomic and none of them in a transaction; the tables are maps keyed by their unique
    column. */
module Billing {
  import opened Options

  type Customer = string
  type User = nat
  type SubId = string
  type KeyHash = string

  datatype Subscription = Subscription(user: User, customer: Customer, tier: string, status: string, periodEnd: int)

  datatype License = License(user: User, revokedAt: Option<int>)

  type Licenses = map<KeyHash, License>

  /** users is the mapping of stripe_customer_id, which no webhook writes. */
  datatype Db = Db(users: map<Customer, User>, subs: map<SubId, Subscription>, licenses: Licenses)

  datatype Event =
    | Changed(sub: SubId, customer: Customer, status: string, periods: seq<int>)  // created or updated
    | Deleted(sub: SubId)
    | Other                                                                       // every other type

  /** An event with what the handler draws from outside: the hash of a random key, the clock. */
  datatype Delivery = Delivery(event: Event, keyHash: KeyHash, now: int)

  const OK := 200
  const FAILED := 500

  // ----- licenses --------------------------------------------------------------------------

  /** The keys of a user's rows that were never revoked. */
  function LiveKeys(licenses: Licenses, u: User): set<KeyHash> {
    set k | k in licenses && licenses[k].user == u && licenses[k].revokedAt.None?
  }

  function Live(licenses: Licenses, u: User): nat { |LiveKeys(licenses, u)| }

  function RevokeAll(licenses: Licenses, u: User, now: int): Licenses {
    map k | k in licenses ::
      if k in LiveKeys(licenses, u) then licenses[k].(revokedAt := Some(now)) else licenses[k]
  }

  /** Revocation by key; it also overwrites the time of an earlier one. */
  function RevokeOne(licenses: Licenses, k: KeyHash, now: int): Licenses {
    if k in licenses then licenses[k := licenses[k].(revokedAt := Some(now))] else licenses
  }

  lemma LiveAfterInsert(licenses: Licenses, k: KeyHash, u: User, v: User)
    requires k !in licenses
    ensures Live(licenses[k := License(u, None)], v) == Live(licenses, v) + if u == v then 1 else 0
  {
    var after := LiveKeys(licenses[k := License(u, None)], v);
    if u == v {
      assert after == LiveKeys(licenses, v) + {k};
    } else {
      assert after == LiveKeys(licenses, v);
    }
  }

  lemma LiveAfterRevoke(licenses: Licenses, u: User, now: int, v: User)
    ensures Live(RevokeAll(licenses, u, now), v) == if u == v then 0 else Live(licenses, v)
  {
    assert LiveKeys(RevokeAll(licenses, u, now), v) == if u == v then {} else LiveKeys(licenses, v);
  }

  /** Revocation by key takes exactly that license from the live ones, and changes no other row. */
  lemma LiveAfterRevokeOne(licenses: Licenses, k: KeyHash, now: int, u: User)
    ensures LiveKeys(RevokeOne(licenses, k, now), u) == LiveKeys(licenses, u) - {k}
    ensures RevokeOne(licenses, k, now) - {k} == licenses - {k}
    ensures k in RevokeOne(licenses, k, now) <==> k in licenses
    ensures k in licenses ==> RevokeOne(licenses, k, now)[k] == License(licenses[k].user, Some(now))
  {}

  /** Revoked rows of one table are unchanged in the other. */
  ghost predicate KeepsRevoked(before: Licenses, after: Licenses) {
    forall k :: k in before && before[k].revokedAt.Some? ==> k in after && after[k] == before[k]
  }

  // ----- one handler, statement by statement -----------------------------------------------

  /** Where a handler stands between two statements. */
  datatype Pc =
    | Arrived
    | UserFound(user: User)
    | RowWritten(user: User)
    | NoneCounted(user: User)      // the count of live licenses came back 0; insert is next
    | OwnerFound(user: User)
    | RowCanceled(user: User)
    | Done(code: int)

  datatype Point = Point(db: Db, pc: Pc)

  /** An upsert by subscription id: an existing row keeps its user, customer and tier. */
  function UpsertRow(subs: map<SubId, Subscription>, u: User, e: Event): map<SubId, Subscription>
    requires e.Changed? && e.periods != []
  {
    subs[e.sub := if e.sub in subs then subs[e.sub].(status := e.status, periodEnd := e.periods[0])
                  else Subscription(u, e.customer, "standard", e.status, e.periods[0])]
  }

  function CancelRow(subs: map<SubId, Subscription>, sub: SubId): map<SubId, Subscription> {
    if sub in subs then subs[sub := subs[sub].(status := "canceled")] else subs
  }

  /** The next statement of a handler, with the local code up to the one after it. */
  function Statement(p: Point, d: Delivery): Point {
    var db, e := p.db, d.event;
    match p.pc
    case Arrived =>
      (match e
       case Changed(_, customer, _, periods) =>
         if customer !in db.users then p.(pc := Done(OK))
         else if periods == [] then p.(pc := Done(FAILED))
         else p.(pc := UserFound(db.users[customer]))
       case Deleted(sub) =>
         if sub !in db.subs then p.(pc := Done(OK)) else p.(pc := OwnerFound(db.subs[sub].user))
       case Other => p.(pc := Done(OK)))
    case UserFound(u) =>
      if e.Changed? && e.periods != [] then
        Point(db.(subs := UpsertRow(db.subs, u, e)),
              if e.status == "active" then RowWritten(u) else Done(OK))
      else p
    case RowWritten(u) => p.(pc := if Live(db.licenses, u) == 0 then NoneCounted(u) else Done(OK))
    case NoneCounted(u) =>
      if d.keyHash in db.licenses then p.(pc := Done(FAILED))   // UNIQUE key_hash
      else Point(db.(licenses := db.licenses[d.keyHash := License(u, None)]), Done(OK))
    case OwnerFound(u) =>
      if e.Deleted? then Point(db.(subs := CancelRow(db.subs, e.sub)), RowCanceled(u)) else p
    case RowCanceled(u) => Point(db.(licenses := RevokeAll(db.licenses, u, d.now)), Done(OK))
    case Done(_) => p
  }

  /** At most n statements of a handler. */
  function Statements(p: Point, d: Delivery, n: nat): Point
    decreases n
  {
    if n == 0 || p.pc.Done? then p else Statements(Statement(p, d), d, n - 1)
  }

  /** No handler has more than four statements. */
  const WHOLE: nat := 4

  /** A handler cut off, by a crash or a failing statement, after n statements. */
  function Cut(db: Db, d: Delivery, n: nat): Db { Statements(Point(db, Arrived), d, n).db }

  // ----- one handler as a whole ------------------------------------------------------------

  /** The user whose subscription row a created or updated event writes. */
  function ChangedUser(db: Db, e: Event): Option<User> {
    if e.Changed? && e.customer in db.users && e.periods != [] then Some(db.users[e.customer]) else None
  }

  /** The owner of the subscription row a deleted event cancels. */
  function DeletedUser(db: Db, e: Event): Option<User> {
    if e.Deleted? && e.sub in db.subs then Some(db.subs[e.sub].user) else None
  }

  function Process(db: Db, d: Delivery): Db {
    var changed, deleted := ChangedUser(db, d.event), DeletedUser(db, d.event);
    if changed.Some? then
      db.(subs := UpsertRow(db.subs, changed.value, d.event),
          licenses := if d.event.status == "active" && Live(db.licenses, changed.value) == 0
                         && d.keyHash !in db.licenses
                      then db.licenses[d.keyHash := License(changed.value, None)] else db.licenses)
    else if deleted.Some? then
      db.(subs := CancelRow(db.subs, d.event.sub), licenses := RevokeAll(db.licenses, deleted.value, d.now))
    else db
  }

  /** An unknown customer or subscription is no error; a subscription without items and a key
      that already exists are. */
  function Response(db: Db, d: Delivery): int {
    var e := d.event;
    if e.Changed? && e.customer in db.users
       && (e.periods == []
           || (e.status == "active" && Live(db.licenses, db.users[e.customer]) == 0 && d.keyHash in db.licenses))
    then FAILED else OK
  }

  /** The statements, run without interruption, do what Process says. */
  lemma UninterruptedHandler(db: Db, d: Delivery, n: nat)
    requires n >= WHOLE
    ensures Statements(Point(db, Arrived), d, n) == Point(Process(db, d), Done(Response(db, d)))
  {
    var p1 := Statement(Point(db, Arrived), d);
    var p2 := Statement(p1, d);
    var p3 := Statement(p2, d);
    var p4 := Statement(p3, d);
    StatementsUnfold(Point(db, Arrived), d, n);
    StatementsUnfold(p1, d, n - 1);
    StatementsUnfold(p2, d, n - 2);
    StatementsUnfold(p3, d, n - 3);
    assert p4.pc.Done?;
    assert Statements(p4, d, n - 4) == p4;
  }

  lemma StatementsUnfold(p: Point, d: Delivery, n: nat)
    requires n > 0
    ensures Statements(p, d, n) == if p.pc.Done? then p else Statements(Statement(p, d), d, n - 1)
  {}

  lemma LiveAfterProcess(db: Db, d: Delivery, u: User)
    requires d.keyHash !in db.licenses
    ensures Live(Process(db, d).licenses, u)
         == if DeletedUser(db, d.event) == Some(u) then 0
            else if ChangedUser(db, d.event) == Some(u) && d.event.status == "active" && Live(db.licenses, u) == 0
            then 1
            else Live(db.licenses, u)
  {
    hide Live, RevokeAll;
    var changed, deleted := ChangedUser(db, d.event), DeletedUser(db, d.event);
    if changed.Some? {
      LiveAfterInsert(db.licenses, d.keyHash, changed.value, u);
    } else if deleted.Some? {
      LiveAfterRevoke(db.licenses, deleted.value, d.now, u);
    }
  }

  lemma ProcessKeepsRevoked(db: Db, d: Delivery)
    ensures KeepsRevoked(db.licenses, Process(db, d).licenses)
  {}

  // ----- crash and redelivery --------------------------------------------------------------

  /** One attempt at an event: what it drew, and after how many statements it ended. */
  datatype Attempt = Attempt(keyHash: KeyHash, now: int, cut: nat)

  function Attempts(db: Db, e: Event, tries: seq<Attempt>): Db {
    if tries == [] then db
    else
      var t := tries[|tries| - 1];
      Cut(Attempts(db, e, tries[..|tries| - 1]), Delivery(e, t.keyHash, t.now), t.cut)
  }

  /** The keys drawn are new to the table and to each other. */
  ghost predicate FreshKeys(licenses: Licenses, tries: seq<Attempt>) {
    && (forall i :: 0 <= i < |tries| ==> tries[i].keyHash !in licenses)
    && (forall i, j :: 0 <= i < j < |tries| ==> tries[i].keyHash != tries[j].keyHash)
  }

  /** The tables some cut-off attempts can leave: each of the two is either as it was before
      the event or as an uninterrupted handler leaves it, up to the choice of the new key. */
  ghost predicate PartWay(db: Db, clean: Db, x: Db) {
    && x.users == db.users
    && (x.subs == db.subs || x.subs == clean.subs)
    && KeepsRevoked(db.licenses, x.licenses)
    && forall u: User :: Live(x.licenses, u) == Live(db.licenses, u) || Live(x.licenses, u) == Live(clean.licenses, u)
  }

  /** What any cut leaves behind, seen from the tables it started on. */
  lemma CutShape(x: Db, d: Delivery, n: nat)
    ensures var y := Cut(x, d, n);
            && y.users == x.users
            && (y.subs == x.subs || y.subs == Process(x, d).subs)
            && (y.licenses == x.licenses || y.licenses == Process(x, d).licenses)
            && (y.licenses != x.licenses ==> y.subs == Process(x, d).subs)
            && (n >= WHOLE ==> y == Process(x, d))
  {
    if n >= WHOLE {
      UninterruptedHandler(x, d, n);
    } else {
      var p1 := Statement(Point(x, Arrived), d);
      var p2 := Statement(p1, d);
      if n > 0 { StatementsUnfold(Point(x, Arrived), d, n); }
      if n > 1 { StatementsUnfold(p1, d, n - 1); }
      if n > 2 { StatementsUnfold(p2, d, n - 2); }
    }
  }

  /** A handler finds the same users to act for, and leaves the same rows, when an earlier
      attempt has already changed the subscriptions table. */
  lemma SameTarget(db: Db, x: Db, e: Event, d: Delivery, d': Delivery)
    requires d.event == e == d'.event
    requires x.users == db.users && (x.subs == db.subs || x.subs == Process(db, d).subs)
    ensures ChangedUser(x, e) == ChangedUser(db, e) && DeletedUser(x, e) == DeletedUser(db, e)
    ensures Process(x, d').subs == Process(db, d).subs
  {}

  lemma PartWayStep(db: Db, x: Db, d: Delivery, d': Delivery, n: nat)
    requires d.event == d'.event && d.keyHash !in db.licenses && d'.keyHash !in x.licenses
    requires PartWay(db, Process(db, d), x)
    ensures PartWay(db, Process(db, d), Cut(x, d', n))
    ensures n >= WHOLE ==> Cut(x, d', n).subs == Process(db, d).subs
    ensures n >= WHOLE ==> forall u: User :: Live(Cut(x, d', n).licenses, u) == Live(Process(db, d).licenses, u)
  {
    hide Live, Process, Cut, ChangedUser, DeletedUser;
    var y := Cut(x, d', n);
    CutShape(x, d', n);
    SameTarget(db, x, d.event, d, d');
    ProcessKeepsRevoked(x, d');
    forall u: User
      ensures Live(Process(x, d').licenses, u) == Live(Process(db, d).licenses, u)
    {
      LiveAfterProcess(db, d, u);
      LiveAfterProcess(x, d', u);
    }
  }

  lemma CutKeys(x: Db, d: Delivery, n: nat)
    ensures Cut(x, d, n).licenses.Keys <= x.licenses.Keys + {d.keyHash}
  {
    CutShape(x, d, n);
  }

  lemma {:induction false} AttemptsPartWay(db: Db, e: Event, tries: seq<Attempt>, d: Delivery)
    requires d.event == e && d.keyHash !in db.licenses && FreshKeys(db.licenses, tries)
    ensures PartWay(db, Process(db, d), Attempts(db, e, tries))
    ensures Attempts(db, e, tries).licenses.Keys <= db.licenses.Keys + KeysOf(tries)
  {
    hide Process, Cut, Live;
    if tries != [] {
      var front, t := tries[..|tries| - 1], tries[|tries| - 1];
      AttemptsPartWay(db, e, front, d);
      var x := Attempts(db, e, front);
      var d' := Delivery(e, t.keyHash, t.now);
      FreshForLast(db, tries, x);
      PartWayStep(db, x, d, d', t.cut);
      CutKeys(x, d', t.cut);
    }
  }

  ghost function KeysOf(tries: seq<Attempt>): set<KeyHash> {
    set t | t in tries :: t.keyHash
  }

  lemma FreshForLast(db: Db, tries: seq<Attempt>, x: Db)
    requires tries != [] && FreshKeys(db.licenses, tries)
    requires x.licenses.Keys <= db.licenses.Keys + KeysOf(tries[..|tries| - 1])
    ensures tries[|tries| - 1].keyHash !in x.licenses
    ensures KeysOf(tries[..|tries| - 1]) + {tries[|tries| - 1].keyHash} <= KeysOf(tries)
  {}

  /** Any number of attempts at an event, each cut off anywhere, followed by one that runs to
      its end, leave the rows and the number of live licenses of every user that a single
      uninterrupted handling leaves, and touch no license that was already revoked. */
  lemma RedeliveryEqualsOneRun(db: Db, e: Event, tries: seq<Attempt>, d: Delivery)
    requires d.event == e && d.keyHash !in db.licenses && FreshKeys(db.licenses, tries)
    requires tries != [] && tries[|tries| - 1].cut >= WHOLE
    ensures var end, clean := Attempts(db, e, tries), Process(db, d);
            && end.users == clean.users && end.subs == clean.subs
            && (forall u: User :: Live(end.licenses, u) == Live(clean.licenses, u))
            && KeepsRevoked(db.licenses, end.licenses)
  {
    hide Process, Cut, Live;
    var front, t := tries[..|tries| - 1], tries[|tries| - 1];
    AttemptsPartWay(db, e, front, d);
    var x := Attempts(db, e, front);
    FreshForLast(db, tries, x);
    PartWayStep(db, x, d, Delivery(e, t.keyHash, t.now), t.cut);
    UsersFixed(db, d);
  }

  lemma UsersFixed(db: Db, d: Delivery)
    ensures Process(db, d).users == db.users
  {}
}
