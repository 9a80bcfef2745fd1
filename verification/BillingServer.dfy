/** The webhook endpoint and the license functions over the server's tables. Each method takes
    the number of SQL statements that succeed before the database starts to fail. */
module BillingServer {
  import opened Options
  import opened Billing
  import opened Hex

  const KEY_BYTES := 8

  /** AVTOOL- and four groups of two random bytes in capital hexadecimal. */
  function KeyText(random: seq<Byte>): string
    requires |random| == KEY_BYTES
  {
    "AVTOOL-" + EncodeUpper(random[0..2]) + "-" + EncodeUpper(random[2..4])
    + "-" + EncodeUpper(random[4..6]) + "-" + EncodeUpper(random[6..8])
  }

  lemma EqualTails(x: string, y: string, x': string, y': string)
    requires |y| == |y'| && x + y == x' + y'
    ensures x == x' && y == y'
  {
    assert x == (x + y)[..|x|] && y == (x + y)[|x|..];
    assert x' == (x' + y')[..|x'|] && y' == (x' + y')[|x'|..];
  }

  /** Different random bytes give different keys. */
  lemma KeyTextInjective(a: seq<Byte>, b: seq<Byte>)
    requires |a| == |b| == KEY_BYTES && KeyText(a) == KeyText(b)
    ensures a == b
  {
    var a0, a1, a2, a3 := EncodeUpper(a[0..2]), EncodeUpper(a[2..4]), EncodeUpper(a[4..6]), EncodeUpper(a[6..8]);
    var b0, b1, b2, b3 := EncodeUpper(b[0..2]), EncodeUpper(b[2..4]), EncodeUpper(b[4..6]), EncodeUpper(b[6..8]);
    EqualTails("AVTOOL-" + a0 + "-" + a1 + "-" + a2 + "-", a3, "AVTOOL-" + b0 + "-" + b1 + "-" + b2 + "-", b3);
    EqualTails("AVTOOL-" + a0 + "-" + a1 + "-" + a2, "-", "AVTOOL-" + b0 + "-" + b1 + "-" + b2, "-");
    EqualTails("AVTOOL-" + a0 + "-" + a1 + "-", a2, "AVTOOL-" + b0 + "-" + b1 + "-", b2);
    EqualTails("AVTOOL-" + a0 + "-" + a1, "-", "AVTOOL-" + b0 + "-" + b1, "-");
    EqualTails("AVTOOL-" + a0 + "-", a1, "AVTOOL-" + b0 + "-", b1);
    EqualTails("AVTOOL-" + a0, "-", "AVTOOL-" + b0, "-");
    EqualTails("AVTOOL-", a0, "AVTOOL-", b0);
    SameBytes(a[0..2], b[0..2]);
    SameBytes(a[2..4], b[2..4]);
    SameBytes(a[4..6], b[4..6]);
    SameBytes(a[6..8], b[6..8]);
    assert a == a[0..2] + a[2..4] + a[4..6] + a[6..8];
    assert b == b[0..2] + b[2..4] + b[4..6] + b[6..8];
  }

  /** A key is AVTOOL- and four groups of capital hexadecimal digits, from which the random bytes
      read back. */
  lemma KeyReadsBack(random: seq<Byte>)
    requires |random| == KEY_BYTES
    ensures var key := KeyText(random);
            && |key| == 26 && key[..7] == "AVTOOL-" && key[11] == '-' && key[16] == '-' && key[21] == '-'
            && Decode(key[7..11]) == Some(random[0..2]) && Decode(key[12..16]) == Some(random[2..4])
            && Decode(key[17..21]) == Some(random[4..6]) && Decode(key[22..]) == Some(random[6..8])
            && forall i :: 7 <= i < 26 && i != 11 && i != 16 && i != 21 ==> IsCapital(key[i])
  {
    hide EncodeUpper, Decode, IsCapital;
    var a, b, c, d := EncodeUpper(random[0..2]), EncodeUpper(random[2..4]), EncodeUpper(random[4..6]),
                      EncodeUpper(random[6..8]);
    EncodeReadsBack(random[0..2]);
    EncodeReadsBack(random[2..4]);
    EncodeReadsBack(random[4..6]);
    EncodeReadsBack(random[6..8]);
    UpperLength(random[0..2]);
    UpperLength(random[2..4]);
    UpperLength(random[4..6]);
    UpperLength(random[6..8]);
    KeyGroups(a, b, c, d);
  }

  lemma UpperLength(bs: seq<Byte>)
    ensures |EncodeUpper(bs)| == 2 * |bs|
  {}

  lemma KeyGroups(a: string, b: string, c: string, d: string)
    requires |a| == |b| == |c| == |d| == 4
    ensures var key := "AVTOOL-" + a + "-" + b + "-" + c + "-" + d;
            && |key| == 26 && key[..7] == "AVTOOL-" && key[11] == '-' && key[16] == '-' && key[21] == '-'
            && key[7..11] == a && key[12..16] == b && key[17..21] == c && key[22..] == d
            && (forall i :: 7 <= i < 11 ==> key[i] == a[i - 7])
            && (forall i :: 12 <= i < 16 ==> key[i] == b[i - 12])
            && (forall i :: 17 <= i < 21 ==> key[i] == c[i - 17])
            && (forall i :: 22 <= i < 26 ==> key[i] == d[i - 22])
  {}

  lemma SameBytes(a: seq<Byte>, b: seq<Byte>)
    requires EncodeUpper(a) == EncodeUpper(b)
    ensures a == b
  {
    assert CAPITALS == ['0', '1', '2', '3', '4', '5', '6', '7', '8', '9', 'A', 'B', 'C', 'D', 'E', 'F'];
    EncodeInjective(CAPITALS, a, b);
  }

  /** strings.Join with "-". */
  function Join(parts: seq<string>): string {
    if parts == [] then "" else if |parts| == 1 then parts[0] else parts[0] + "-" + Join(parts[1..])
  }

  datatype Outcome = Fine | UnknownCustomer | Failure

  datatype Validation = Valid(user: User) | Invalid | LookupFailed

  /** How many statements an attempt gets through: without random bytes, none from the insert on. */
  function Reach(budget: nat, random: seq<Byte>): nat {
    if |random| < KEY_BYTES && budget > 3 then 3 else budget
  }

  /** The response of a handler that stopped at this point. */
  function ResponseAt(p: Point): int { if p.pc.Done? then p.pc.code else FAILED }

  class Server {
    const sha256: string -> KeyHash
    const users: map<Customer, User>
    var subs: map<SubId, Subscription>
    var licenses: Licenses

    function Tables(): Db
      reads this
    {
      Db(users, subs, licenses)
    }

    /** The delivery that an event and the bytes drawn for it amount to. */
    function DeliveryOf(e: Event, random: seq<Byte>, now: int): Delivery {
      Delivery(e, if |random| >= KEY_BYTES then sha256(KeyText(random[..KEY_BYTES])) else "", now)
    }

    constructor (sha256: string -> KeyHash, users: map<Customer, User>)
      ensures this.sha256 == sha256 && Tables() == Db(users, map[], map[])
    {
      this.sha256 := sha256;
      this.users := users;
      subs, licenses := map[], map[];
    }

    /** Draws a key group by group; a short source of randomness is an error. */
    method NewKey(random: seq<Byte>) returns (key: Option<string>)
      ensures key == if |random| >= KEY_BYTES then Some(KeyText(random[..KEY_BYTES])) else None
    {
      hide EncodeUpper, Join;
      var groups := new string[4](_ => "");
      for i := 0 to 4
        invariant |random| >= 2 * i
        invariant forall g :: 0 <= g < i ==> groups[g] == EncodeUpper(random[2 * g..2 * g + 2])
      {
        if |random| < 2 * (i + 1) { return None; }
        groups[i] := EncodeUpper(random[2 * i..2 * i + 2]);
      }
      var r := random[..KEY_BYTES];
      assert groups[..] == [EncodeUpper(r[0..2]), EncodeUpper(r[2..4]), EncodeUpper(r[4..6]), EncodeUpper(r[6..8])] by {
        SliceOfPrefix(random, 0);
        SliceOfPrefix(random, 2);
        SliceOfPrefix(random, 4);
        SliceOfPrefix(random, 6);
      }
      JoinFour(EncodeUpper(r[0..2]), EncodeUpper(r[2..4]), EncodeUpper(r[4..6]), EncodeUpper(r[6..8]));
      key := Some("AVTOOL-" + Join(groups[..]));
    }

    lemma SliceOfPrefix(random: seq<Byte>, i: nat)
      requires i + 2 <= KEY_BYTES <= |random|
      ensures random[..KEY_BYTES][i..i + 2] == random[i..i + 2]
    {
      assert random[..KEY_BYTES][i..i + 2] == [random[i], random[i + 1]] == random[i..i + 2];
    }

    lemma JoinFour(a: string, b: string, c: string, d: string)
      ensures "AVTOOL-" + Join([a, b, c, d]) == "AVTOOL-" + a + "-" + b + "-" + c + "-" + d
    {
      assert Join([d]) == d;
      assert Join([c, d]) == c + "-" + d;
      assert Join([b, c, d]) == b + "-" + (c + "-" + d);
      assert Join([a, b, c, d]) == a + "-" + (b + "-" + (c + "-" + d));
    }

    /** A key is returned exactly when its row was inserted; otherwise nothing changes. */
    method Generate(u: User, random: seq<Byte>, insertWorks: bool) returns (key: Option<string>)
      modifies this`licenses
      ensures key.Some? <==> |random| >= KEY_BYTES && insertWorks
                             && sha256(KeyText(random[..KEY_BYTES])) !in old(licenses)
      ensures key.Some? ==> key.value == KeyText(random[..KEY_BYTES])
                            && licenses == old(licenses)[sha256(key.value) := License(u, None)]
      ensures key.None? ==> licenses == old(licenses)
    {
      key := NewKey(random);
      if key.None? { return; }
      var hash := sha256(key.value);
      if !insertWorks || hash in licenses { return None; }
      licenses := licenses[hash := License(u, None)];
    }

    /** A key is valid for a user exactly when its row is that user's and was never revoked. */
    method Validate(key: string, works: bool) returns (r: Validation)
      ensures !works <==> r.LookupFailed?
      ensures forall u :: r == Valid(u)
                <==> works && sha256(key) in licenses && licenses[sha256(key)] == License(u, None)
    {
      if !works { return LookupFailed; }
      var hash := sha256(key);
      if hash !in licenses { return Invalid; }
      if licenses[hash].revokedAt.Some? { return Invalid; }
      r := Valid(licenses[hash].user);
    }

    /** Sets revoked_at on the row of one key, whether or not it was set before. */
    method Revoke(key: string, now: int)
      modifies this`licenses
      ensures licenses == RevokeOne(old(licenses), sha256(key), now)
    {
      var hash := sha256(key);
      if hash in licenses { licenses := licenses[hash := licenses[hash].(revokedAt := Some(now))]; }
    }

    /** Revokes the user's live licenses; the time of an earlier revocation stays. */
    method RevokeAllForUser(u: User, now: int)
      modifies this`licenses
      ensures licenses == RevokeAll(old(licenses), u, now)
      ensures Live(licenses, u) == 0 && KeepsRevoked(old(licenses), licenses)
    {
      LiveAfterRevoke(licenses, u, now, u);
      licenses := RevokeAll(licenses, u, now);
    }

    method UpsertSubscription(e: Event, random: seq<Byte>, now: int, budget: nat) returns (r: Outcome)
      requires e.Changed?
      modifies this`subs, this`licenses
      ensures var p := Statements(Point(old(Tables()), Arrived), DeliveryOf(e, random, now), Reach(budget, random));
              && Tables() == p.db
              && (if r == Failure then FAILED else OK) == ResponseAt(p)
      ensures r == UnknownCustomer <==> budget > 0 && e.customer !in users
    {
      ghost var d, n := DeliveryOf(e, random, now), Reach(budget, random);
      ghost var p0 := Point(Tables(), Arrived);
      ghost var p1 := Statement(p0, d);
      ghost var p2 := Statement(p1, d);
      ghost var p3 := Statement(p2, d);
      ghost var p4 := Statement(p3, d);
      FirstStatements(p0, d, n);
      if budget == 0 { return Failure; }
      if e.customer !in users { return UnknownCustomer; }
      var u := users[e.customer];
      if e.periods == [] { return Failure; }
      if budget == 1 { return Failure; }
      subs := UpsertRow(subs, u, e);
      assert Tables() == p2.db;
      if e.status == "active" {
        if budget == 2 { return Failure; }
        var existing := Live(licenses, u);
        if existing == 0 {
          var key := Generate(u, random, budget > 3);
          if key.None? { return Failure; }
        }
      }
      r := Fine;
    }

    /** Where a handler stands after up to four statements, or more. */
    lemma FirstStatements(p0: Point, d: Delivery, n: nat)
      requires p0.pc.Arrived?
      ensures var p1 := Statement(p0, d);
              var p2 := if p1.pc.Done? then p1 else Statement(p1, d);
              var p3 := if p2.pc.Done? then p2 else Statement(p2, d);
              var p4 := if p3.pc.Done? then p3 else Statement(p3, d);
              Statements(p0, d, n)
              == if n == 0 then p0 else if n == 1 then p1 else if n == 2 then p2 else if n == 3 then p3 else p4
    {
      var p1 := Statement(p0, d);
      var p2 := if p1.pc.Done? then p1 else Statement(p1, d);
      var p3 := if p2.pc.Done? then p2 else Statement(p2, d);
      if n >= WHOLE { UninterruptedHandler(p0.db, d, n); UninterruptedHandler(p0.db, d, WHOLE); }
      var k := if n >= WHOLE then WHOLE else n;
      if k > 0 { StatementsUnfold(p0, d, k); }
      if k > 1 && !p1.pc.Done? { StatementsUnfold(p1, d, k - 1); }
      if k > 2 && !p2.pc.Done? { StatementsUnfold(p2, d, k - 2); }
      if k > 3 && !p3.pc.Done? { StatementsUnfold(p3, d, k - 3); }
    }

    /** An answer of 200 means that the whole event is carried out, so that nothing is lost when it
        is not delivered again; a handler that got to its end answers 500 only to a known customer,
        without a period or with a key that already exists. */
    lemma AcknowledgedIsDone(db: Db, d: Delivery, n: nat)
      ensures var p, e := Statements(Point(db, Arrived), d, n), d.event;
              && (ResponseAt(p) == 200 || ResponseAt(p) == 500)
              && (ResponseAt(p) == 200 ==> p.db == Process(db, d))
              && (p.pc.Done? ==>
                    (ResponseAt(p) == 500
                     <==> && e.Changed? && e.customer in db.users
                          && (e.periods == []
                              || (e.status == "active" && Live(db.licenses, db.users[e.customer]) == 0
                                  && d.keyHash in db.licenses))))
    {
      FirstStatements(Point(db, Arrived), d, n);
      UninterruptedHandler(db, d, WHOLE);
      FirstStatements(Point(db, Arrived), d, WHOLE);
    }

    method CancelSubscription(e: Event, now: int, budget: nat) returns (r: Outcome)
      requires e.Deleted?
      modifies this`subs, this`licenses
      ensures var p := Statements(Point(old(Tables()), Arrived), Delivery(e, "", now), budget);
              Tables() == p.db && (if r == Failure then FAILED else OK) == ResponseAt(p)
      ensures r != UnknownCustomer
    {
      FirstStatements(Point(Tables(), Arrived), Delivery(e, "", now), budget);
      if budget == 0 { return Failure; }
      if e.sub !in subs { return Fine; }
      var u := subs[e.sub].user;
      if budget == 1 { return Failure; }
      subs := CancelRow(subs, e.sub);
      if budget == 2 { return Failure; }
      RevokeAllForUser(u, now);
      r := Fine;
    }

    /** A deletion draws no key. */
    lemma NoKeyDrawn(p: Point, d: Delivery, k: KeyHash, n: nat)
      requires d.event.Deleted? && p.pc.Arrived?
      ensures Statements(p, d, n) == Statements(p, d.(keyHash := k), n)
    {
      FirstStatements(p, d, n);
      FirstStatements(p, d.(keyHash := k), n);
    }

    /** One delivery: the tables and the response are those of the handler's statements, cut off
        where the database failed. An unknown customer is not an error. */
    method HandleWebhook(e: Event, random: seq<Byte>, now: int, budget: nat) returns (code: int)
      modifies this`subs, this`licenses
      ensures var n := if e.Changed? then Reach(budget, random) else if e.Other? then WHOLE else budget;
              var p := Statements(Point(old(Tables()), Arrived), DeliveryOf(e, random, now), n);
              Tables() == p.db && code == ResponseAt(p)
    {
      var r := Fine;
      match e {
        case Changed(_, _, _, _) => r := UpsertSubscription(e, random, now, budget);
        case Deleted(_) =>
          NoKeyDrawn(Point(Tables(), Arrived), Delivery(e, "", now), DeliveryOf(e, random, now).keyHash, budget);
          r := CancelSubscription(e, now, budget);
        case Other => UninterruptedHandler(Tables(), DeliveryOf(e, random, now), WHOLE);
      }
      code := if r == Failure then FAILED else OK;
    }
  }
}
