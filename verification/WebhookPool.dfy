/** Webhook handlers running at the same time, interleaved statement by statement, with no more
    than n of them in flight. A handler may leave the pool at any point: it has returned, or its
    process has died. */
module WebhookPool {
  import opened Options
  import opened Billing
  import L = LicenseHistory

  datatype Handler = Handler(d: Delivery, pc: Pc)

  datatype World = World(db: Db, handlers: map<nat, Handler>)

  datatype Action =
    | Arrive(id: nat, d: Delivery)
    | Advance(id: nat)                      // one statement of one handler
    | Leave(id: nat)
    | RevokeKey(key: KeyHash, now: int)     // a license revoked by its key

  predicate Enabled(w: World, a: Action, n: nat) {
    match a
    case Arrive(id, _) => id !in w.handlers && |w.handlers| < n
    case Advance(id) => id in w.handlers
    case Leave(id) => id in w.handlers
    case RevokeKey(_, _) => true
  }

  function Apply(w: World, a: Action): World {
    match a
    case Arrive(id, d) => w.(handlers := w.handlers[id := Handler(d, Arrived)])
    case Advance(id) =>
      if id !in w.handlers then w
      else
        var h := w.handlers[id];
        var p := Statement(Point(w.db, h.pc), h.d);
        World(p.db, w.handlers[id := h.(pc := p.pc)])
    case Leave(id) => w.(handlers := w.handlers - {id})
    case RevokeKey(k, now) => w.(db := w.db.(licenses := RevokeOne(w.db.licenses, k, now)))
  }

  ghost predicate Run(worlds: seq<World>, acts: seq<Action>, n: nat) {
    && |worlds| == |acts| + 1
    && forall i :: 0 <= i < |acts| ==> Enabled(worlds[i], acts[i], n) && worlds[i + 1] == Apply(worlds[i], acts[i])
  }

  function Start(users: map<Customer, User>): World { World(Db(users, map[], map[]), map[]) }

  /** The worlds that some interleaving of at most n handlers at a time can reach. */
  ghost predicate Reachable(users: map<Customer, User>, n: nat, w: World) {
    exists worlds: seq<World>, acts: seq<Action> ::
      Run(worlds, acts, n) && worlds[0] == Start(users) && worlds[|acts|] == w
  }

  // ----- the bound -------------------------------------------------------------------------

  /** Handlers that counted no live license of the user and are about to insert one. */
  ghost function Waiting(hs: map<nat, Handler>, u: User): set<nat> {
    set id | id in hs && hs[id].pc == NoneCounted(u)
  }

  ghost predicate Bounded(w: World, n: nat, u: User) {
    && |w.handlers| <= n
    && Live(w.db.licenses, u) + |Waiting(w.handlers, u)| <= n
  }

  lemma WaitingSplit(hs: map<nat, Handler>, id: nat, u: User)
    ensures |Waiting(hs, u)|
         == |Waiting(hs, u) - {id}| + if id in hs && hs[id].pc == NoneCounted(u) then 1 else 0
  {
    if id in Waiting(hs, u) {
      assert Waiting(hs, u) == (Waiting(hs, u) - {id}) + {id};
    } else {
      assert Waiting(hs, u) == Waiting(hs, u) - {id};
    }
  }

  lemma WaitingAfter(hs: map<nat, Handler>, id: nat, h: Handler, u: User)
    ensures |Waiting(hs[id := h], u)|
         == |Waiting(hs, u)|
            - (if id in hs && hs[id].pc == NoneCounted(u) then 1 else 0)
            + (if h.pc == NoneCounted(u) then 1 else 0)
  {
    var rest := Waiting(hs, u) - {id};
    WaitingSplit(hs, id, u);
    WaitingSplit(hs[id := h], id, u);
    assert Waiting(hs[id := h], u) - {id} == rest;
  }

  lemma SubsetSize(a: set<nat>, b: set<nat>)
    requires a <= b
    ensures |a| <= |b|
  {
    assert b == a + (b - a);
  }

  lemma WaitingAtMost(hs: map<nat, Handler>, u: User)
    ensures |Waiting(hs, u)| <= |hs|
  {
    SubsetSize(Waiting(hs, u), hs.Keys);
  }

  /** One statement of a handler, from the point of view of one user's licenses. */
  lemma StatementEffect(db: Db, pc: Pc, d: Delivery, u: User)
    ensures var p := Statement(Point(db, pc), d);
            && (p.pc == NoneCounted(u) ==> pc == NoneCounted(u) || (Live(p.db.licenses, u) == 0))
            && Live(p.db.licenses, u) <= Live(db.licenses, u) + (if pc == NoneCounted(u) then 1 else 0)
            && (pc.NoneCounted? ==> p.pc.Done?)
  {
    match pc
    case NoneCounted(v) =>
      if d.keyHash !in db.licenses { LiveAfterInsert(db.licenses, d.keyHash, v, u); }
    case RowCanceled(v) => LiveAfterRevoke(db.licenses, v, d.now, u);
    case _ =>
  }

  lemma RevokeShrinks(licenses: Licenses, k: KeyHash, now: int, u: User)
    ensures Live(RevokeOne(licenses, k, now), u) <= Live(licenses, u)
  {
    var after := LiveKeys(RevokeOne(licenses, k, now), u);
    assert after <= LiveKeys(licenses, u);
    assert LiveKeys(licenses, u) == after + (LiveKeys(licenses, u) - after);
  }

  lemma BoundedStep(w: World, a: Action, n: nat, u: User)
    requires Enabled(w, a, n) && Bounded(w, n, u)
    ensures Bounded(Apply(w, a), n, u)
  {
    hide Live, Statement;
    match a
    case Arrive(id, d) => WaitingAfter(w.handlers, id, Handler(d, Arrived), u);
    case Advance(id) =>
      var h := w.handlers[id];
      var p := Statement(Point(w.db, h.pc), h.d);
      assert |w.handlers[id := h.(pc := p.pc)]| == |w.handlers| by {
        assert w.handlers[id := h.(pc := p.pc)].Keys == w.handlers.Keys;
      }
      StatementEffect(w.db, h.pc, h.d, u);
      WaitingAfter(w.handlers, id, h.(pc := p.pc), u);
      WaitingAtMost(w.handlers[id := h.(pc := p.pc)], u);
    case Leave(id) =>
      SubsetSize(w.handlers.Keys - {id}, w.handlers.Keys);
      assert (w.handlers - {id}).Keys == w.handlers.Keys - {id};
      SubsetSize(Waiting(w.handlers - {id}, u), Waiting(w.handlers, u));
    case RevokeKey(k, now) => RevokeShrinks(w.db.licenses, k, now, u);
  }

  lemma {:induction false} RunBounded(worlds: seq<World>, acts: seq<Action>, n: nat, users: map<Customer, User>,
                                          k: nat, u: User)
    requires Run(worlds, acts, n) && worlds[0] == Start(users) && k <= |acts|
    ensures Bounded(worlds[k], n, u)
  {
    if k == 0 {
      assert LiveKeys(map[], u) == {};
      assert Waiting(map[], u) == {};
    } else {
      RunBounded(worlds, acts, n, users, k - 1, u);
      BoundedStep(worlds[k - 1], acts[k - 1], n, u);
    }
  }

  /** With at most n handlers in flight, a user's live licenses and the handlers about to add
      one are together never more than n. */
  lemma LiveLicenseBound(users: map<Customer, User>, n: nat, w: World, u: User)
    requires Reachable(users, n, w)
    ensures Live(w.db.licenses, u) + |Waiting(w.handlers, u)| <= n
  {
    var worlds: seq<World>, acts: seq<Action> :|
      Run(worlds, acts, n) && worlds[0] == Start(users) && worlds[|acts|] == w;
    RunBounded(worlds, acts, n, users, |acts|, u);
  }

  // ----- the bound is reached --------------------------------------------------------------

  lemma ReachableStep(users: map<Customer, User>, n: nat, w: World, a: Action)
    requires Reachable(users, n, w) && Enabled(w, a, n)
    ensures Reachable(users, n, Apply(w, a))
  {
    hide Apply, Enabled, Start;
    var worlds: seq<World>, acts: seq<Action> :|
      Run(worlds, acts, n) && worlds[0] == Start(users) && worlds[|acts|] == w;
    assert Run(worlds + [Apply(w, a)], acts + [a], n);
  }

  ghost function KeyNo(i: nat): KeyHash { seq(i, _ => 'k') }

  ghost function DeliveryNo(c: Customer, i: nat): Delivery {
    Delivery(Changed("sub", c, "active", [0]), KeyNo(i), 0)
  }

  ghost function Below(n: nat): (ids: set<nat>)
    ensures |ids| == n && forall i: nat :: i in ids <==> i < n
  {
    if n == 0 then {} else Below(n - 1) + {n - 1}
  }

  /** k handlers for the customer have all counted no license, and m of them have inserted. */
  ghost predicate Overlapping(users: map<Customer, User>, n: nat, c: Customer, w: World, k: nat, m: nat)
    requires c in users
  {
    && Reachable(users, n, w) && w.db.users == users
    && w.handlers.Keys == Below(k)
    && (forall i: nat :: m <= i < k ==> w.handlers[i] == Handler(DeliveryNo(c, i), NoneCounted(users[c])))
    && Live(w.db.licenses, users[c]) == m
    && (forall key :: key in w.db.licenses ==> |key| < m)
  }

  lemma StartOverlaps(users: map<Customer, User>, n: nat, c: Customer) returns (w: World)
    requires c in users
    ensures Overlapping(users, n, c, w, 0, 0)
  {
    w := Start(users);
    assert Run([w], [], n);
    assert LiveKeys(map[], users[c]) == {};
  }

  lemma {:induction false} Gather(users: map<Customer, User>, n: nat, c: Customer, k: nat) returns (w: World)
    requires c in users && k <= n
    ensures Overlapping(users, n, c, w, k, 0)
  {
    hide Reachable, Live;
    if k == 0 {
      w := StartOverlaps(users, n, c);
    } else {
      var w0 := Gather(users, n, c, k - 1);
      w := OneMore(users, n, c, k - 1, w0);
    }
  }

  /** k handlers have counted, and one more is on its way to its count. */
  ghost predicate Joining(users: map<Customer, User>, n: nat, c: Customer, w: World, k: nat, pc: Pc)
    requires c in users
  {
    && Reachable(users, n, w) && w.db.users == users && w.db.licenses == map[]
    && w.handlers.Keys == Below(k + 1)
    && w.handlers[k] == Handler(DeliveryNo(c, k), pc)
    && forall i: nat :: i < k ==> w.handlers[i] == Handler(DeliveryNo(c, i), NoneCounted(users[c]))
  }

  lemma JoiningStep(users: map<Customer, User>, n: nat, c: Customer, w: World, k: nat, pc: Pc) returns (w': World)
    requires c in users && Joining(users, n, c, w, k, pc)
    requires pc.Arrived? || pc == UserFound(users[c]) || pc == RowWritten(users[c])
    ensures Joining(users, n, c, w', k, if pc.Arrived? then UserFound(users[c]) else
                                        if pc.UserFound? then RowWritten(users[c]) else NoneCounted(users[c]))
  {
    hide Reachable;
    assert LiveKeys(map[], users[c]) == {};
    ReachableStep(users, n, w, Advance(k));
    w' := Apply(w, Advance(k));
  }

  lemma NoKeys(licenses: Licenses)
    requires forall key :: key in licenses ==> |key| < 0
    ensures licenses == map[]
  {}

  lemma ArrivalJoins(users: map<Customer, User>, n: nat, c: Customer, k: nat, w0: World)
    requires c in users && k < n && Overlapping(users, n, c, w0, k, 0)
    ensures Joining(users, n, c, Apply(w0, Arrive(k, DeliveryNo(c, k))), k, Arrived)
  {
    hide Live, Reachable, DeliveryNo, Below;
    assert |w0.handlers| == |w0.handlers.Keys|;
    ReachableStep(users, n, w0, Arrive(k, DeliveryNo(c, k)));
    NoKeys(w0.db.licenses);
  }

  /** One more handler arrives and runs up to its count. */
  lemma OneMore(users: map<Customer, User>, n: nat, c: Customer, k: nat, w0: World) returns (w: World)
    requires c in users && k < n && Overlapping(users, n, c, w0, k, 0)
    ensures Overlapping(users, n, c, w, k + 1, 0)
  {
    hide Reachable, Joining, Overlapping, DeliveryNo, Apply;
    ArrivalJoins(users, n, c, k, w0);
    w := Apply(w0, Arrive(k, DeliveryNo(c, k)));
    w := JoiningStep(users, n, c, w, k, Arrived);
    w := JoiningStep(users, n, c, w, k, UserFound(users[c]));
    w := JoiningStep(users, n, c, w, k, RowWritten(users[c]));
    JoinedOverlaps(users, n, c, w, k);
  }

  lemma JoinedOverlaps(users: map<Customer, User>, n: nat, c: Customer, w: World, k: nat)
    requires c in users && Joining(users, n, c, w, k, NoneCounted(users[c]))
    ensures Overlapping(users, n, c, w, k + 1, 0)
  {
    hide Reachable, Below, DeliveryNo;
    assert LiveKeys(map[], users[c]) == {};
  }

  lemma {:induction false} InsertAll(users: map<Customer, User>, n: nat, c: Customer, w0: World, k: nat, m: nat)
    returns (w: World)
    requires c in users && m <= k && Overlapping(users, n, c, w0, k, 0)
    ensures Overlapping(users, n, c, w, k, m)
  {
    hide Reachable, Live;
    if m == 0 {
      w := w0;
    } else {
      var x := InsertAll(users, n, c, w0, k, m - 1);
      w := InsertOne(users, n, c, x, k, m - 1);
    }
  }

  lemma InsertOne(users: map<Customer, User>, n: nat, c: Customer, x: World, k: nat, m: nat) returns (w: World)
    requires c in users && m < k && Overlapping(users, n, c, x, k, m)
    ensures Overlapping(users, n, c, w, k, m + 1)
  {
    hide Live, Reachable;
    assert m in x.handlers;
    assert Enabled(x, Advance(m), n);
    ReachableStep(users, n, x, Advance(m));
    LiveAfterInsert(x.db.licenses, KeyNo(m), users[c], users[c]);
    w := Apply(x, Advance(m));
  }

  /** The bound cannot be improved: n overlapping handlers can leave n live licenses. So the
      limits that hold of all interleavings are exactly those not below n, and one live license
      per user is promised only when handlers never overlap. */
  lemma LiveLicenseBoundIsExact(users: map<Customer, User>, c: Customer, n: nat, limit: nat)
    requires c in users
    ensures (forall w :: Reachable(users, n, w) ==> Live(w.db.licenses, users[c]) <= limit) <==> n <= limit
  {
    var w0 := Gather(users, n, c, n);
    var w := InsertAll(users, n, c, w0, n, n);
    forall v | Reachable(users, n, v) ensures Live(v.db.licenses, users[c]) <= n {
      LiveLicenseBound(users, n, v, users[c]);
    }
  }

  // ----- handlers come and go --------------------------------------------------------------

  /** A handler is in flight exactly when it arrived and has not left since. */
  lemma {:induction false} InFlight(worlds: seq<World>, acts: seq<Action>, n: nat, users: map<Customer, User>,
                                        k: nat, id: nat)
    requires Run(worlds, acts, n) && worlds[0] == Start(users) && k <= |acts|
    ensures id in worlds[k].handlers
       <==> exists i :: 0 <= i < k && acts[i].Arrive? && acts[i].id == id
                        && forall j :: i < j < k ==> acts[j] != Leave(id)
  {
    hide Statement;
    if k > 0 {
      InFlight(worlds, acts, n, users, k - 1, id);
      var a := acts[k - 1];
      assert worlds[k] == Apply(worlds[k - 1], a);
      if id in worlds[k - 1].handlers && a != Leave(id) {
        var i :| 0 <= i < k - 1 && acts[i].Arrive? && acts[i].id == id
                 && forall j :: i < j < k - 1 ==> acts[j] != Leave(id);
        assert forall j :: i < j < k ==> acts[j] != Leave(id);
      }
    }
  }

  lemma RevokedKept(w: World, a: Action, k: KeyHash)
    requires k in w.db.licenses && w.db.licenses[k].revokedAt.Some?
    ensures var after := Apply(w, a).db.licenses;
            k in after && after[k].user == w.db.licenses[k].user && after[k].revokedAt.Some?
  {
    if a.Advance? && a.id in w.handlers {
      StatementKeepsRevoked(Point(w.db, w.handlers[a.id].pc), w.handlers[a.id].d);
    }
  }

  lemma StatementKeepsRevoked(p: Point, d: Delivery)
    ensures KeepsRevoked(p.db.licenses, Statement(p, d).db.licenses)
  {}

  /** Once a key is revoked its license is revoked for good, whatever handlers are in flight. */
  lemma {:induction false} RevokedForGood(worlds: seq<World>, acts: seq<Action>, n: nat, i: nat, j: nat)
    requires Run(worlds, acts, n) && i < j <= |acts|
    requires acts[i].RevokeKey? && acts[i].key in worlds[i].db.licenses
    ensures var licenses, k := worlds[j].db.licenses, acts[i].key;
            k in licenses && licenses[k].user == worlds[i].db.licenses[k].user && licenses[k].revokedAt.Some?
  {
    hide Apply;
    if j == i + 1 {
      RevokeActs(worlds[i], acts[i], n);
    } else {
      RevokedForGood(worlds, acts, n, i, j - 1);
      RevokedKept(worlds[j - 1], acts[j - 1], acts[i].key);
    }
  }

  /** A key can be revoked at any time. */
  lemma RevokeActs(w: World, a: Action, n: nat)
    requires a.RevokeKey? && a.key in w.db.licenses
    ensures Enabled(w, a, n)
    ensures var after := Apply(w, a).db.licenses;
            a.key in after && after[a.key] == License(w.db.licenses[a.key].user, Some(a.now))
  {}

  // ----- one handler at a time -------------------------------------------------------------

  /** Handlers that never overlap can do everything a sequential run does. */
  lemma {:induction false} SequentialRunsAreReachable(users: map<Customer, User>, ds: seq<Delivery>)
    ensures Reachable(users, 1, World(L.Run(users, ds), map[]))
  {
    hide Reachable, Process, Statement, Statements;
    if ds == [] {
      StartReachable(users);
    } else {
      var front, d := ds[..|ds| - 1], ds[|ds| - 1];
      SequentialRunsAreReachable(users, front);
      OneHandler(users, L.Run(users, front), d);
    }
  }

  lemma StartReachable(users: map<Customer, User>)
    ensures Reachable(users, 1, Start(users))
  {
    assert Run([Start(users)], [], 1);
  }

  /** A handler that arrives, runs to its end and leaves. */
  lemma OneHandler(users: map<Customer, User>, db: Db, d: Delivery)
    requires Reachable(users, 1, World(db, map[]))
    ensures Reachable(users, 1, World(Process(db, d), map[]))
  {
    hide Reachable, Process, Statement, Statements;
    var p0 := Point(db, Arrived);
    var p1 := Statement(p0, d);
    var p2 := Statement(p1, d);
    var p3 := Statement(p2, d);
    var p4 := Statement(p3, d);
    ReachableStep(users, 1, World(db, map[]), Arrive(0, d));
    Advanced(users, p0, d);
    Advanced(users, p1, d);
    Advanced(users, p2, d);
    Advanced(users, p3, d);
    FourStatements(db, d);
    var end := World(p4.db, map[0 := Handler(d, p4.pc)]);
    ReachableStep(users, 1, end, Leave(0));
    assert Apply(end, Leave(0)) == World(p4.db, map[]);
  }

  /** The world with nothing but this handler. */
  ghost predicate Alone(users: map<Customer, User>, p: Point, d: Delivery) {
    Reachable(users, 1, World(p.db, map[0 := Handler(d, p.pc)]))
  }

  lemma Advanced(users: map<Customer, User>, p: Point, d: Delivery)
    requires Alone(users, p, d)
    ensures Alone(users, Statement(p, d), d)
  {
    hide Reachable, Statement;
    var w := World(p.db, map[0 := Handler(d, p.pc)]);
    ReachableStep(users, 1, w, Advance(0));
    assert w.handlers[0 := Handler(d, Statement(p, d).pc)] == map[0 := Handler(d, Statement(p, d).pc)];
  }

  lemma FourStatements(db: Db, d: Delivery)
    ensures var p1 := Statement(Point(db, Arrived), d);
            Statement(Statement(Statement(p1, d), d), d).db == Process(db, d)
  {
    hide Process;
    var p1 := Statement(Point(db, Arrived), d);
    var p2 := Statement(p1, d);
    var p3 := Statement(p2, d);
    UninterruptedHandler(db, d, WHOLE);
    StatementsUnfold(Point(db, Arrived), d, 4);
    StatementsUnfold(p1, d, 3);
    StatementsUnfold(p2, d, 2);
    StatementsUnfold(p3, d, 1);
  }
}
