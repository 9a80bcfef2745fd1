/** The sliding-window rate limiter. The pure half gives the meaning of one call on one key's
    list of timestamps and of a whole run of calls; the class at the end does the same work in
    place, over shared backing arrays, and is proved against it. */
module RateLimit {

  type Time = int

  datatype Config = Config(max: int, window: int)

  /** One call of Allow, in the order in which the calls take the lock. */
  datatype Call = Call(key: string, now: Time)

  function Max(a: int, b: int): int { if a < b then b else a }

  // ----- one key ---------------------------------------------------------------------------

  /** The timestamps after the cutoff, in their order. */
  function Fresh(ts: seq<Time>, cutoff: Time): (r: seq<Time>)
    ensures |r| <= |ts|
  {
    if ts == [] then []
    else
      var rest := Fresh(ts[..|ts| - 1], cutoff);
      if ts[|ts| - 1] > cutoff then rest + [ts[|ts| - 1]] else rest
  }

  datatype Verdict = Verdict(kept: seq<Time>, admitted: bool)

  /** What one call does to the list of its key. */
  function AllowOn(cfg: Config, ts: seq<Time>, now: Time): Verdict {
    var kept := Fresh(ts, now - cfg.window);
    if |kept| >= cfg.max then Verdict(kept, false) else Verdict(kept + [now], true)
  }

  /** The list a key holds, and every admitted timestamp: nothing is pruned from the second. */
  datatype Trace = Trace(kept: seq<Time>, all: seq<Time>)

  /** One key's trace after calls at these times. */
  ghost function Observe(cfg: Config, nows: seq<Time>): Trace {
    if nows == [] then Trace([], [])
    else
      var before, now := Observe(cfg, nows[..|nows| - 1]), nows[|nows| - 1];
      var v := AllowOn(cfg, before.kept, now);
      Trace(v.kept, Grown(before.all, now, v.admitted))
  }

  ghost function Kept(cfg: Config, nows: seq<Time>): seq<Time> { Observe(cfg, nows).kept }

  ghost function Successes(cfg: Config, nows: seq<Time>): seq<Time> { Observe(cfg, nows).all }

  ghost predicate Admitted(cfg: Config, nows: seq<Time>, now: Time) {
    AllowOn(cfg, Kept(cfg, nows), now).admitted
  }

  ghost function Grown(ts: seq<Time>, now: Time, admitted: bool): seq<Time> {
    if admitted then ts + [now] else ts
  }

  /** How many of the timestamps lie in the half-open interval (lo, hi]. */
  ghost function Count(ts: seq<Time>, lo: Time, hi: Time): nat {
    if ts == [] then 0
    else Count(ts[..|ts| - 1], lo, hi) + if lo < ts[|ts| - 1] <= hi then 1 else 0
  }

  /** No call reads a clock more than d behind one that took the lock before it. */
  ghost predicate Skewed(nows: seq<Time>, d: int) {
    forall i, j :: 0 <= i < j < |nows| ==> nows[j] >= nows[i] - d
  }

  /** No timestamp of the sequence is after t. */
  ghost predicate Upto(ts: seq<Time>, t: Time) {
    forall i :: 0 <= i < |ts| ==> ts[i] <= t
  }

  // ----- filtering -------------------------------------------------------------------------

  lemma FreshSnoc(ts: seq<Time>, t: Time, c: Time)
    ensures Fresh(ts + [t], c) == Fresh(ts, c) + if t > c then [t] else []
  {
    assert (ts + [t])[..|ts|] == ts;
  }

  lemma CountSnoc(ts: seq<Time>, t: Time, lo: Time, hi: Time)
    ensures Count(ts + [t], lo, hi) == Count(ts, lo, hi) + if lo < t <= hi then 1 else 0
  {
    assert (ts + [t])[..|ts|] == ts;
  }

  lemma CountEmpty(lo: Time, hi: Time)
    ensures Count([], lo, hi) == 0
  {}

  /** Filtering is a stable filter: it works piece by piece, keeping the order. */
  lemma {:induction false} FreshConcat(a: seq<Time>, b: seq<Time>, c: Time)
    ensures Fresh(a + b, c) == Fresh(a, c) + Fresh(b, c)
  {
    if b == [] {
      assert a + b == a;
    } else {
      var front, t := b[..|b| - 1], b[|b| - 1];
      FreshConcat(a, front, c);
      assert a + b == a + front + [t];
      FreshSnoc(a + front, t, c);
      assert Fresh(a + b, c) == Fresh(a, c) + (Fresh(front, c) + if t > c then [t] else []);
    }
  }

  lemma {:induction false} FreshTwice(ts: seq<Time>, c: Time, c': Time)
    requires c <= c'
    ensures Fresh(Fresh(ts, c), c') == Fresh(ts, c')
  {
    if ts != [] {
      var front, t := ts[..|ts| - 1], ts[|ts| - 1];
      FreshTwice(front, c, c');
      FreshSnoc(Fresh(front, c), t, c');
    }
  }

  /** An interval holds no more timestamps than are fresh at its lower end; it holds exactly
      those when none is later than its upper end. */
  lemma {:induction false} CountFresh(ts: seq<Time>, lo: Time, hi: Time)
    ensures Count(ts, lo, hi) <= |Fresh(ts, lo)|
    ensures Upto(ts, hi) ==> Count(ts, lo, hi) == |Fresh(ts, lo)|
  {
    if ts != [] {
      CountFresh(ts[..|ts| - 1], lo, hi);
    }
  }

  lemma {:induction false} CountNone(ts: seq<Time>, lo: Time, hi: Time)
    requires hi <= lo
    ensures Count(ts, lo, hi) == 0
  {
    if ts != [] {
      CountNone(ts[..|ts| - 1], lo, hi);
    }
  }

  // ----- what the pruned list remembers ----------------------------------------------------

  /** Every list is at most max long. */
  lemma {:induction false} KeptIsShort(cfg: Config, nows: seq<Time>)
    ensures |Kept(cfg, nows)| <= Max(0, cfg.max)
  {
    if nows != [] {
      KeptIsShort(cfg, nows[..|nows| - 1]);
    }
  }

  lemma {:induction false} SuccessesUpto(cfg: Config, nows: seq<Time>, t: Time)
    requires Upto(nows, t)
    ensures Upto(Successes(cfg, nows), t)
  {
    if nows != [] {
      SuccessesUpto(cfg, nows[..|nows| - 1], t);
    }
  }

  lemma HistoryStep(cfg: Config, front: seq<Time>, now: Time)
    ensures var v := AllowOn(cfg, Kept(cfg, front), now);
            && Kept(cfg, front + [now]) == v.kept
            && Successes(cfg, front + [now]) == Grown(Successes(cfg, front), now, v.admitted)
  {
    assert (front + [now])[..|front|] == front;
  }

  /** Beyond the highest cutoff used so far, the pruned list and the full history agree. */
  lemma {:induction false} PruningLosesNothing(cfg: Config, nows: seq<Time>, c: Time)
    requires Upto(nows, c + cfg.window)
    ensures Fresh(Kept(cfg, nows), c) == Fresh(Successes(cfg, nows), c)
  {
    if nows != [] {
      var front, now := nows[..|nows| - 1], nows[|nows| - 1];
      PruningLosesNothing(cfg, front, c);
      assert nows == front + [now];
      HistoryStep(cfg, front, now);
      AgreementKept(cfg, Kept(cfg, front), Successes(cfg, front), now, c);
    }
  }

  lemma AgreementKept(cfg: Config, kept: seq<Time>, all: seq<Time>, now: Time, c: Time)
    requires Fresh(kept, c) == Fresh(all, c) && now - cfg.window <= c
    ensures var v := AllowOn(cfg, kept, now);
            Fresh(v.kept, c) == Fresh(Grown(all, now, v.admitted), c)
  {
    FreshTwice(kept, now - cfg.window, c);
    FreshSnoc(Fresh(kept, now - cfg.window), now, c);
    FreshSnoc(all, now, c);
  }

  // ----- the rate bound --------------------------------------------------------------------

  /** With clocks at most d apart, no interval of length window - d holds more than max
      successes. */
  lemma {:induction false} RateBound(cfg: Config, nows: seq<Time>, d: int, a: Time)
    requires 0 <= d && Skewed(nows, d)
    ensures Count(Successes(cfg, nows), a, a + cfg.window - d) <= Max(0, cfg.max)
  {
    hide Fresh, Kept, Count, AllowOn;
    if nows == [] {
      CountEmpty(a, a + cfg.window - d);
    } else {
      var front, now := nows[..|nows| - 1], nows[|nows| - 1];
      var hi := a + cfg.window - d;
      RateBound(cfg, front, d, a);
      assert nows == front + [now];
      HistoryStep(cfg, front, now);
      if now <= hi {
        assert Upto(front, a + cfg.window);
        PruningLosesNothing(cfg, front, a);
      }
      BoundKept(cfg, Kept(cfg, front), Successes(cfg, front), now, a, hi);
    }
  }

  lemma BoundKept(cfg: Config, kept: seq<Time>, all: seq<Time>, now: Time, a: Time, hi: Time)
    requires Count(all, a, hi) <= Max(0, cfg.max)
    requires now <= hi ==> Fresh(kept, a) == Fresh(all, a) && now - cfg.window <= a
    ensures Count(Grown(all, now, AllowOn(cfg, kept, now).admitted), a, hi) <= Max(0, cfg.max)
  {
    hide Fresh;
    CountSnoc(all, now, a, hi);
    if now <= hi {
      FreshTwice(kept, now - cfg.window, a);
      CountFresh(all, a, hi);
    }
  }

  /** With a limit of one, only a call that is admitted prunes, so successes are a full window
      apart whatever the clocks do. */
  lemma {:induction false} SingleSlot(cfg: Config, nows: seq<Time>)
    requires cfg.max == 1
    ensures Slot(Kept(cfg, nows), Successes(cfg, nows), cfg.window)
  {
    if nows != [] {
      var front, now := nows[..|nows| - 1], nows[|nows| - 1];
      SingleSlot(cfg, front);
      assert nows == front + [now];
      HistoryStep(cfg, front, now);
      SlotKept(cfg, Kept(cfg, front), Successes(cfg, front), now);
    }
  }

  ghost predicate Spaced(ts: seq<Time>, gap: int) {
    forall i :: 0 < i < |ts| ==> ts[i] >= ts[i - 1] + gap
  }

  ghost predicate Slot(kept: seq<Time>, all: seq<Time>, window: int) {
    && kept == (if all == [] then [] else [all[|all| - 1]])
    && Spaced(all, window)
  }

  lemma SlotKept(cfg: Config, kept: seq<Time>, all: seq<Time>, now: Time)
    requires cfg.max == 1 && Slot(kept, all, cfg.window)
    ensures var v := AllowOn(cfg, kept, now);
            Slot(v.kept, Grown(all, now, v.admitted), cfg.window)
  {
    hide Fresh, Spaced;
    if all == [] {
      FreshEmpty([], now - cfg.window);
      SpacedSnoc(all, now, cfg.window);
    } else {
      var last := all[|all| - 1];
      FreshSingle(last, now - cfg.window);
      if last <= now - cfg.window {
        SpacedSnoc(all, now, cfg.window);
      }
    }
  }

  lemma SpacedSnoc(ts: seq<Time>, t: Time, gap: int)
    requires Spaced(ts, gap) && (ts != [] ==> ts[|ts| - 1] + gap <= t)
    ensures Spaced(ts + [t], gap)
  {}

  lemma {:induction false} SpacedCount(ts: seq<Time>, gap: int, lo: Time, hi: Time)
    requires 0 < gap && hi <= lo + gap
    requires Spaced(ts, gap)
    ensures Count(ts, lo, hi) <= 1
    ensures ts != [] && ts[|ts| - 1] <= lo ==> Count(ts, lo, hi) == 0
  {
    if ts != [] {
      SpacedCount(ts[..|ts| - 1], gap, lo, hi);
      if |ts| > 1 && lo < ts[|ts| - 1] <= hi {
        assert ts[|ts| - 1] >= ts[|ts| - 2] + gap;
      }
    }
  }

  /** A window length is guaranteed when no history within the skew fits more than max
      successes into an interval of that length. */
  ghost predicate Guaranteed(cfg: Config, d: int, length: int) {
    forall nows: seq<Time>, a: Time, hi: Time ::
      Skewed(nows, d) && hi == a + length ==> Count(Successes(cfg, nows), a, hi) <= Max(0, cfg.max)
  }

  function SafeLength(cfg: Config, d: int): int {
    Max(0, if cfg.max == 1 then cfg.window else cfg.window - d)
  }

  ghost function Copies(t: Time, n: nat): seq<Time> {
    seq(n, _ => t)
  }

  lemma {:induction false} CountMonotone(ts: seq<Time>, lo: Time, hi: Time, hi': Time)
    requires hi <= hi'
    ensures Count(ts, lo, hi) <= Count(ts, lo, hi')
  {
    if ts != [] {
      CountMonotone(ts[..|ts| - 1], lo, hi, hi');
    }
  }

  lemma {:induction false} CountCopies(n: nat, hi: Time)
    requires 0 <= hi
    ensures Count(Copies(0, n), -1, hi) == n
  {
    if n > 0 {
      assert Copies(0, n)[..n - 1] == Copies(0, n - 1);
      CountCopies(n - 1, hi);
    }
  }

  lemma {:induction false} FreshCopies(n: nat, c: Time)
    ensures Fresh(Copies(0, n), c) == if 0 > c then Copies(0, n) else []
  {
    if n > 0 {
      assert Copies(0, n)[..n - 1] == Copies(0, n - 1);
      FreshCopies(n - 1, c);
    }
  }

  /** Calls at the same instant are all admitted up to the limit, and past it when the window
      is empty. */
  lemma {:induction false} CopiesAdmitted(cfg: Config, n: nat)
    requires 1 <= cfg.max && (cfg.window > 0 ==> n <= cfg.max)
    ensures Successes(cfg, Copies(0, n)) == Copies(0, n)
    ensures cfg.window > 0 ==> Kept(cfg, Copies(0, n)) == Copies(0, n)
  {
    hide Fresh, AllowOn;
    if n > 0 {
      var front := Copies(0, n - 1);
      assert Copies(0, n) == front + [0];
      CopiesAdmitted(cfg, n - 1);
      HistoryStep(cfg, front, 0);
      if cfg.window > 0 {
        FreshCopies(n - 1, -cfg.window);
      } else {
        EmptyWindowKeepsNothing(cfg, front);
      }
      RoomAdmits(cfg, Kept(cfg, front), 0);
    }
  }

  lemma EmptyWindowKeepsNothing(cfg: Config, front: seq<Time>)
    requires cfg.window <= 0 && Upto(front, 0)
    ensures Fresh(Kept(cfg, front), 0 - cfg.window) == []
  {
    KeptUpto(cfg, front, 0);
    FreshEmpty(Kept(cfg, front), -cfg.window);
  }

  lemma {:induction false} FreshEmpty(ts: seq<Time>, c: Time)
    requires Upto(ts, c)
    ensures Fresh(ts, c) == []
  {
    if ts != [] {
      FreshEmpty(ts[..|ts| - 1], c);
    }
  }

  lemma {:induction false} FreshUpto(ts: seq<Time>, c: Time, t: Time)
    requires Upto(ts, t)
    ensures Upto(Fresh(ts, c), t)
  {
    if ts != [] {
      FreshUpto(ts[..|ts| - 1], c, t);
    }
  }

  lemma {:induction false} KeptUpto(cfg: Config, nows: seq<Time>, t: Time)
    requires Upto(nows, t)
    ensures Upto(Kept(cfg, nows), t)
  {
    if nows != [] {
      var front, now := nows[..|nows| - 1], nows[|nows| - 1];
      KeptUpto(cfg, front, t);
      FreshUpto(Kept(cfg, front), now - cfg.window, t);
    }
  }

  /** max calls at 0, one a window later that prunes them, and one that read its clock early:
      max + 1 successes within window - d + 1. */
  lemma SkewOverruns(cfg: Config, d: int, length: int)
    requires cfg.max >= 2 && cfg.window > 0 && 0 <= d && length > Max(0, cfg.window - d)
    ensures exists nows: seq<Time> ::
              Skewed(nows, d) && Count(Successes(cfg, nows), -1, -1 + length) > cfg.max
  {
    hide *;
    var w, n := cfg.window, cfg.max;
    var back := if w > d then w - d else 0;
    var n0 := Copies(0, n);
    assert back < length && w > 0 && back >= w - d by { MaxOf(0, w - d); }
    CopiesAdmitted(cfg, n);
    FreshCopies(n, 0);
    HistoryStep(cfg, n0, w);
    RoomAdmits(cfg, n0, w);
    assert Kept(cfg, n0 + [w]) == [w];
    FreshSingle(w, back - w);
    HistoryStep(cfg, n0 + [w], back);
    RoomAdmits(cfg, [w], back);
    var nows := n0 + [w] + [back];
    GrownBy(n0, w);
    GrownBy(n0 + [w], back);
    assert Successes(cfg, n0 + [w]) == n0 + [w];
    assert Successes(cfg, nows) == nows;
    CountCopies(n, -1 + length);
    CountSnoc(n0, w, -1, -1 + length);
    CountSnoc(n0 + [w], back, -1, -1 + length);
    OverrunIsSkewed(n, w, back, d);
  }

  lemma MaxOf(a: int, b: int)
    ensures Max(a, b) >= a && Max(a, b) >= b
  {}

  lemma GrownBy(ts: seq<Time>, t: Time)
    ensures Grown(ts, t, true) == ts + [t]
  {}

  lemma FreshSingle(t: Time, c: Time)
    ensures Fresh([t], c) == if t > c then [t] else []
  {
    FreshSnoc([], t, c);
    assert [] + [t] == [t];
  }

  lemma RoomAdmits(cfg: Config, kept: seq<Time>, now: Time)
    requires |Fresh(kept, now - cfg.window)| < cfg.max
    ensures AllowOn(cfg, kept, now) == Verdict(Fresh(kept, now - cfg.window) + [now], true)
  {}

  lemma OverrunIsSkewed(n: nat, w: Time, back: Time, d: int)
    requires 0 <= back && w - d <= back && 0 < w && 0 <= d
    ensures Skewed(Copies(0, n) + [w] + [back], d)
  {}

  /** Exactly which interval lengths the limiter protects. */
  lemma GuaranteedLengths(cfg: Config, d: int, length: int)
    requires 0 <= d
    ensures Guaranteed(cfg, d, length) <==> cfg.max <= 0 || length <= SafeLength(cfg, d)
  {
    if cfg.max <= 0 || length <= SafeLength(cfg, d) {
      forall nows: seq<Time>, a: Time, hi: Time | Skewed(nows, d) && hi == a + length
        ensures Count(Successes(cfg, nows), a, hi) <= Max(0, cfg.max)
      {
        ProtectedLength(cfg, d, length, nows, a);
      }
    } else if cfg.max >= 2 && cfg.window > 0 {
      SkewOverruns(cfg, d, length);
      var nows: seq<Time> :| Skewed(nows, d) && Count(Successes(cfg, nows), -1, -1 + length) > cfg.max;
    } else if cfg.window <= 0 {
      var nows := Copies(0, cfg.max + 1);
      CopiesAdmitted(cfg, cfg.max + 1);
      CountCopies(cfg.max + 1, -1 + length);
      assert Skewed(nows, d);
    } else {
      var nows := [0, cfg.window];
      CopiesAdmitted(cfg, 1);
      assert nows[..1] == Copies(0, 1);
      FreshCopies(1, 0);
      assert Successes(cfg, nows) == Copies(0, 1) + [cfg.window];
      CountCopies(1, -1 + length);
      CountSnoc(Copies(0, 1), cfg.window, -1, -1 + length);
      assert Skewed(nows, d);
    }
  }

  lemma ProtectedLength(cfg: Config, d: int, length: int, nows: seq<Time>, a: Time)
    requires 0 <= d && Skewed(nows, d)
    requires cfg.max <= 0 || length <= SafeLength(cfg, d)
    ensures Count(Successes(cfg, nows), a, a + length) <= Max(0, cfg.max)
  {
    hide Fresh, Kept, Count, Successes, Skewed;
    if cfg.max <= 0 {
      NothingAdmitted(cfg, nows);
      CountEmpty(a, a + length);
    } else if length <= 0 {
      CountNone(Successes(cfg, nows), a, a + length);
    } else if cfg.max == 1 {
      SingleSlot(cfg, nows);
      SpacedCount(Successes(cfg, nows), cfg.window, a, a + length);
    } else {
      RateBound(cfg, nows, d, a);
      CountMonotone(Successes(cfg, nows), a, a + length, a + cfg.window - d);
    }
  }

  lemma {:induction false} NothingAdmitted(cfg: Config, nows: seq<Time>)
    requires cfg.max <= 0
    ensures Successes(cfg, nows) == []
  {
    if nows != [] {
      NothingAdmitted(cfg, nows[..|nows| - 1]);
    }
  }

  /** The documented promise, at most max successes in any trailing window, holds for exactly
      these limiters. */
  lemma DocumentedGuarantee(cfg: Config, d: int)
    requires 0 <= d
    ensures Guaranteed(cfg, d, cfg.window) <==> cfg.max <= 1 || cfg.window <= 0 || d == 0
  {
    GuaranteedLengths(cfg, d, cfg.window);
  }

  // ----- with a clock that never runs backwards --------------------------------------------

  ghost predicate Sorted(ts: seq<Time>) {
    Skewed(ts, 0)
  }

  /** The pruned limiter decides as one that remembers every success. */
  lemma RefinesFullHistory(cfg: Config, nows: seq<Time>, now: Time)
    requires Upto(nows, now)
    ensures Admitted(cfg, nows, now)
       <==> Count(Successes(cfg, nows), now - cfg.window, now) < cfg.max
  {
    hide *;
    AdmittedIff(cfg, nows, now);
    SuccessesUpto(cfg, nows, now);
    CountFresh(Successes(cfg, nows), now - cfg.window, now);
  }


  lemma {:induction false} FreshSorted(ts: seq<Time>, c: Time)
    requires Sorted(ts)
    ensures Sorted(Fresh(ts, c))
  {
    if ts != [] {
      FreshSorted(ts[..|ts| - 1], c);
      FreshUpto(ts[..|ts| - 1], c, ts[|ts| - 1]);
    }
  }

  lemma {:induction false} SuccessesSorted(cfg: Config, nows: seq<Time>)
    requires Sorted(nows)
    ensures Sorted(Successes(cfg, nows))
  {
    if nows != [] {
      SuccessesSorted(cfg, nows[..|nows| - 1]);
      SuccessesUpto(cfg, nows[..|nows| - 1], nows[|nows| - 1]);
    }
  }

  /** Every one of these later calls was denied. */
  ghost predicate AllDenied(cfg: Config, nows: seq<Time>, denied: seq<Time>) {
    forall i :: 0 <= i < |denied| ==> !Admitted(cfg, nows + denied[..i], denied[i])
  }

  lemma {:induction false} DenialsChangeNothing(cfg: Config, nows: seq<Time>, denied: seq<Time>)
    requires AllDenied(cfg, nows, denied)
    ensures Successes(cfg, nows + denied) == Successes(cfg, nows)
  {
    hide Fresh, Kept, Successes, AllowOn;
    if denied == [] {
      assert nows + denied == nows;
    } else {
      var front, t := denied[..|denied| - 1], denied[|denied| - 1];
      forall i | 0 <= i < |front| ensures !Admitted(cfg, nows + front[..i], front[i]) {
        assert front[..i] == denied[..i];
      }
      DenialsChangeNothing(cfg, nows, front);
      assert nows + denied == nows + front + [t];
      HistoryStep(cfg, nows + front, t);
    }
  }

  lemma {:induction false} FreshUnderHigherCutoff(ts: seq<Time>, c: Time)
    requires Sorted(ts)
    ensures |Fresh(ts, c)| < |ts| <==> ts != [] && ts[0] <= c
  {
    if |ts| > 1 {
      FreshUnderHigherCutoff(ts[..|ts| - 1], c);
    }
  }

  /** After denied calls the key is admitted again by exactly the calls that come a window after
      the oldest success that the first denial counted, however many denials there were. */
  lemma ReadmittedExactlyWhen(cfg: Config, nows: seq<Time>, denied: seq<Time>, next: Time)
    requires cfg.max >= 1 && denied != []
    requires Sorted(nows) && Upto(nows, denied[0]) && Upto(denied, next)
    requires AllDenied(cfg, nows, denied)
    ensures var counted := Fresh(Successes(cfg, nows), denied[0] - cfg.window);
            && |counted| == cfg.max
            && (Admitted(cfg, nows + denied, next) <==> next >= counted[0] + cfg.window)
  {
    hide *;
    var s, t := Successes(cfg, nows), denied[0];
    FirstDenied(cfg, nows, denied, next);
    OldestCounted(cfg, nows, t);
    DenialsChangeNothing(cfg, nows, denied);
    AdmittedIff(cfg, nows + denied, next);
    FreshTwice(s, t - cfg.window, next - cfg.window);
    FreshUnderHigherCutoff(Fresh(s, t - cfg.window), next - cfg.window);
  }

  lemma FirstDenied(cfg: Config, nows: seq<Time>, denied: seq<Time>, next: Time)
    requires denied != [] && AllDenied(cfg, nows, denied)
    requires Upto(nows, denied[0]) && Upto(denied, next)
    ensures !Admitted(cfg, nows, denied[0]) && denied[0] <= next && Upto(nows + denied, next)
  {
    hide Admitted;
    assert nows + denied[..0] == nows;
  }

  /** When no earlier call read a later clock, the fresh part of the full history decides. */
  lemma AdmittedIff(cfg: Config, nows: seq<Time>, now: Time)
    requires Upto(nows, now)
    ensures Admitted(cfg, nows, now) <==> |Fresh(Successes(cfg, nows), now - cfg.window)| < cfg.max
  {
    hide Fresh, Kept, Successes;
    PruningLosesNothing(cfg, nows, now - cfg.window);
  }

  lemma OldestCounted(cfg: Config, nows: seq<Time>, t: Time)
    requires cfg.max >= 1 && Sorted(nows) && Upto(nows, t) && !Admitted(cfg, nows, t)
    ensures var counted := Fresh(Successes(cfg, nows), t - cfg.window);
            |counted| == cfg.max && Sorted(counted)
  {
    hide Fresh, Kept, Successes, Sorted;
    PruningLosesNothing(cfg, nows, t - cfg.window);
    KeptIsShort(cfg, nows);
    SuccessesSorted(cfg, nows);
    FreshSorted(Successes(cfg, nows), t - cfg.window);
  }

  // ----- all keys --------------------------------------------------------------------------

  function Lookup(m: map<string, seq<Time>>, key: string): seq<Time> {
    if key in m then m[key] else []
  }

  /** The lists of every key after a run of calls. */
  function Table(cfg: Config, calls: seq<Call>): map<string, seq<Time>> {
    if calls == [] then map[]
    else
      var before, c := Table(cfg, calls[..|calls| - 1]), calls[|calls| - 1];
      before[c.key := AllowOn(cfg, Lookup(before, c.key), c.now).kept]
  }

  lemma TableStep(cfg: Config, calls: seq<Call>, c: Call)
    ensures Table(cfg, calls + [c])
         == Table(cfg, calls)[c.key := AllowOn(cfg, Lookup(Table(cfg, calls), c.key), c.now).kept]
  {
    assert (calls + [c])[..|calls|] == calls;
  }

  /** The answer to a call made after the given ones. */
  predicate Admits(cfg: Config, calls: seq<Call>, key: string, now: Time) {
    AllowOn(cfg, Lookup(Table(cfg, calls), key), now).admitted
  }

  /** The timestamps of the calls for this key that were answered true. */
  ghost function SuccessesOf(cfg: Config, calls: seq<Call>, key: string): seq<Time> {
    if calls == [] then []
    else
      var front, c := calls[..|calls| - 1], calls[|calls| - 1];
      Grown(SuccessesOf(cfg, front, key), c.now, c.key == key && Admits(cfg, front, key, c.now))
  }

  ghost function TimesOf(calls: seq<Call>, key: string): seq<Time> {
    if calls == [] then []
    else
      var c := calls[|calls| - 1];
      Grown(TimesOf(calls[..|calls| - 1], key), c.now, c.key == key)
  }

  /** A key's list and its successes depend on the calls for that key alone. */
  lemma {:induction false} KeysAreIndependent(cfg: Config, calls: seq<Call>, key: string)
    ensures Lookup(Table(cfg, calls), key) == Kept(cfg, TimesOf(calls, key))
    ensures SuccessesOf(cfg, calls, key) == Successes(cfg, TimesOf(calls, key))
  {
    if calls != [] {
      var front, c := calls[..|calls| - 1], calls[|calls| - 1];
      KeysAreIndependent(cfg, front, key);
      KeyStep(cfg, calls, front, c, key);
    }
  }

  lemma KeyStep(cfg: Config, calls: seq<Call>, front: seq<Call>, c: Call, key: string)
    requires calls != [] && front == calls[..|calls| - 1] && c == calls[|calls| - 1]
    requires Lookup(Table(cfg, front), key) == Kept(cfg, TimesOf(front, key))
    requires SuccessesOf(cfg, front, key) == Successes(cfg, TimesOf(front, key))
    ensures Lookup(Table(cfg, calls), key) == Kept(cfg, TimesOf(calls, key))
    ensures SuccessesOf(cfg, calls, key) == Successes(cfg, TimesOf(calls, key))
  {
    hide Kept, Successes, Fresh;
    HistoryStep(cfg, TimesOf(front, key), c.now);
  }

  /** Keys are never dropped: the table holds every key ever asked about, in the window or not. */
  lemma {:induction false} KeysNeverForgotten(cfg: Config, calls: seq<Call>)
    ensures Table(cfg, calls).Keys == set i | 0 <= i < |calls| :: calls[i].key
  {
    hide AllowOn;
    if calls != [] {
      var front, c := calls[..|calls| - 1], calls[|calls| - 1];
      KeysNeverForgotten(cfg, front);
      var all := set i | 0 <= i < |calls| :: calls[i].key;
      assert all == (set i | 0 <= i < |front| :: front[i].key) + {c.key} by {
        forall k | k in all ensures k in (set i | 0 <= i < |front| :: front[i].key) + {c.key} {
          var i :| 0 <= i < |calls| && calls[i].key == k;
          if i < |front| { assert front[i].key == k; }
        }
        forall k | k in (set i | 0 <= i < |front| :: front[i].key) ensures k in all {
          var i :| 0 <= i < |front| && front[i].key == k;
          assert calls[i].key == k;
        }
        assert calls[|front|].key == c.key;
      }
    }
  }

  /** The keys asked about within the window that ends at now. */
  ghost function RecentKeys(cfg: Config, calls: seq<Call>, now: Time): set<string> {
    set i | 0 <= i < |calls| && now - cfg.window < calls[i].now <= now :: calls[i].key
  }

  lemma SubsetSize(a: set<string>, b: set<string>)
    requires a <= b
    ensures |a| <= |b| && (|a| == |b| ==> a == b)
  {
    assert b == a + (b - a);
  }

  /** The documented memory bound, no more keys than were seen in the trailing window, holds
      exactly when every key ever asked about was seen in it. */
  lemma MemoryBoundExactly(cfg: Config, calls: seq<Call>, now: Time)
    ensures |Table(cfg, calls)| <= |RecentKeys(cfg, calls, now)|
       <==> forall i :: 0 <= i < |calls| ==> calls[i].key in RecentKeys(cfg, calls, now)
  {
    hide Table;
    KeysNeverForgotten(cfg, calls);
    var all, recent := Table(cfg, calls).Keys, RecentKeys(cfg, calls, now);
    assert |Table(cfg, calls)| == |all|;
    SubsetSize(recent, all);
    if forall i :: 0 <= i < |calls| ==> calls[i].key in recent {
      assert all <= recent;
    }
    if all == recent {
      forall i | 0 <= i < |calls| ensures calls[i].key in recent {
        assert calls[i].key in all;
      }
    }
  }

  /** It fails as soon as one key has gone quiet: two keys are held, one was seen in the window. */
  lemma QuietKeyIsHeld()
    ensures var cfg, calls := Config(1, 10), [Call("a", 0), Call("b", 100)];
            |Table(cfg, calls)| == 2 && RecentKeys(cfg, calls, 100) == {"b"}
  {
    var cfg, calls := Config(1, 10), [Call("a", 0), Call("b", 100)];
    KeysNeverForgotten(cfg, calls);
    assert calls[0].key == "a" && calls[1].key == "b";
    assert Table(cfg, calls).Keys == {"a", "b"};
    assert |Table(cfg, calls)| == |Table(cfg, calls).Keys|;
  }

  /** The clock readings of this key's calls, in lock order, fall back by at most d. */
  ghost predicate SkewedCalls(calls: seq<Call>, key: string, d: int) {
    forall i, j :: 0 <= i < j < |calls| && calls[i].key == key && calls[j].key == key
      ==> calls[j].now >= calls[i].now - d
  }

  lemma {:induction false} TimesOfSkewed(calls: seq<Call>, key: string, d: int)
    requires SkewedCalls(calls, key, d)
    ensures Skewed(TimesOf(calls, key), d)
  {
    if calls != [] {
      var front, c := calls[..|calls| - 1], calls[|calls| - 1];
      TimesOfSkewed(front, key, d);
      if c.key == key {
        forall i | 0 <= i < |front| && front[i].key == key ensures front[i].now <= c.now + d {
          assert calls[i].key == key && calls[|front|].key == key;
        }
        TimesOfUpto(front, key, c.now + d);
      }
    }
  }

  lemma {:induction false} TimesOfUpto(calls: seq<Call>, key: string, t: Time)
    requires forall i :: 0 <= i < |calls| && calls[i].key == key ==> calls[i].now <= t
    ensures Upto(TimesOf(calls, key), t)
  {
    if calls != [] {
      TimesOfUpto(calls[..|calls| - 1], key, t);
    }
  }

  /** The limiter's bound over every run of calls to any keys: with same-key clocks at most d
      apart, at most max of a key's successes fall in any interval of length window - d, and no
      list is ever longer than max. */
  lemma LimiterBound(cfg: Config, calls: seq<Call>, key: string, d: int, a: Time)
    requires 0 <= d && SkewedCalls(calls, key, d)
    ensures Count(SuccessesOf(cfg, calls, key), a, a + cfg.window - d) <= Max(0, cfg.max)
    ensures |Lookup(Table(cfg, calls), key)| <= Max(0, cfg.max)
  {
    hide *;
    KeysAreIndependent(cfg, calls, key);
    TimesOfSkewed(calls, key, d);
    RateBound(cfg, TimesOf(calls, key), d, a);
    KeptIsShort(cfg, TimesOf(calls, key));
  }

  /** With clocks that agree with the lock order, a call is answered true exactly when fewer
      than max earlier successes of its key, over the whole run, lie in its window. */
  lemma LimiterRefinesFullHistory(cfg: Config, calls: seq<Call>, key: string, now: Time)
    requires forall i :: 0 <= i < |calls| && calls[i].key == key ==> calls[i].now <= now
    ensures Admits(cfg, calls, key, now)
       <==> Count(SuccessesOf(cfg, calls, key), now - cfg.window, now) < cfg.max
  {
    KeysAreIndependent(cfg, calls, key);
    TimesOfUpto(calls, key, now);
    RefinesFullHistory(cfg, TimesOf(calls, key), now);
    AnsweredByKey(cfg, calls, key, now);
  }

  /** A call is answered as if its key were the only one, so what is proved of one key's calls
      holds of that key in any run. */
  lemma AnsweredByKey(cfg: Config, calls: seq<Call>, key: string, now: Time)
    ensures Admits(cfg, calls, key, now) <==> Admitted(cfg, TimesOf(calls, key), now)
  {
    hide Lookup, Table, Kept, Fresh;
    KeysAreIndependent(cfg, calls, key);
  }

  // ----- in place --------------------------------------------------------------------------

  /** A slice: a length over a backing array whose size is the capacity. */
  datatype Slice = Slice(buf: array<Time>, len: nat)

  class Limiter {
    const cfg: Config
    var attempts: map<string, Slice>
    ghost var history: seq<Call>

    ghost function Bufs(): set<object>
      reads this
    {
      set k | k in attempts :: attempts[k].buf as object
    }

    /** Slices fit their arrays, and no two keys share one. */
    ghost predicate Shaped()
      reads this
    {
      && (forall k :: k in attempts ==> attempts[k].len <= attempts[k].buf.Length)
      && (forall k, k' :: k in attempts && k' in attempts && k != k' ==> attempts[k].buf != attempts[k'].buf)
    }

    /** The slices hold exactly the lists of the table. */
    ghost predicate Holds(table: map<string, seq<Time>>)
      reads this, Bufs()
      requires Shaped()
    {
      && attempts.Keys == table.Keys
      && forall k :: k in attempts ==> attempts[k].buf[..attempts[k].len] == table[k]
    }

    ghost predicate Valid()
      reads this, Bufs()
    {
      Shaped() && Holds(Table(cfg, history))
    }

    constructor (max: int, window: int)
      ensures Valid() && cfg == Config(max, window) && history == [] && attempts == map[]
    {
      cfg := Config(max, window);
      attempts := map[];
      history := [];
    }

    /** The pruning loop: read and write index run over the one backing array. */
    method Compact(s: Slice, cutoff: Time) returns (w: nat)
      requires s.len <= s.buf.Length
      modifies s.buf
      ensures w <= s.len
      ensures s.buf[..w] == Fresh(old(s.buf[..s.len]), cutoff)
    {
      hide Fresh;
      ghost var was := s.buf[..s.len];
      FreshEmpty([], cutoff);
      w := 0;
      var i := 0;
      while i < s.len
        invariant w <= i <= s.len
        invariant forall k :: i <= k < s.len ==> s.buf[k] == was[k]
        invariant s.buf[..w] == Fresh(was[..i], cutoff)
      {
        ghost var kept := s.buf[..w];
        var t := s.buf[i];
        assert was[..i + 1] == was[..i] + [t];
        FreshSnoc(was[..i], t, cutoff);
        if t > cutoff {
          s.buf[w] := t;
          assert s.buf[..w + 1] == kept + [t];
          w := w + 1;
        }
        i := i + 1;
      }
      assert was[..i] == was;
    }

    /** append: in place while the capacity lasts, else into a larger array. */
    method Append(s: Slice, t: Time) returns (r: Slice)
      requires s.len <= s.buf.Length
      modifies s.buf
      ensures r.len == s.len + 1 && r.len <= r.buf.Length
      ensures r.buf == s.buf || fresh(r.buf)
      ensures r.buf[..r.len] == old(s.buf[..s.len]) + [t]
    {
      ghost var was := s.buf[..s.len];
      if s.len < s.buf.Length {
        s.buf[s.len] := t;
        r := Slice(s.buf, s.len + 1);
        assert s.buf[..s.len] == was;
      } else {
        var buf := new Time[2 * s.len + 1];
        for i := 0 to s.len
          invariant s.buf[..s.len] == was && buf[..i] == was[..i]
        {
          buf[i] := s.buf[i];
          assert buf[..i] == was[..i] && buf[i] == was[i];
        }
        buf[s.len] := t;
        r := Slice(buf, s.len + 1);
        assert buf[..s.len] == was;
      }
    }

    /** One call's work on the slice of its key. */
    method Record(s: Slice, now: Time) returns (kept: Slice, ok: bool)
      requires s.len <= s.buf.Length
      modifies s.buf
      ensures kept.len <= kept.buf.Length && (kept.buf == s.buf || fresh(kept.buf))
      ensures Verdict(kept.buf[..kept.len], ok) == AllowOn(cfg, old(s.buf[..s.len]), now)
    {
      var w := Compact(s, now - cfg.window);
      kept := Slice(s.buf, w);
      ok := w < cfg.max;
      if ok {
        kept := Append(kept, now);
      }
    }

    /** The slice of a key; an absent key has the empty one. */
    method SliceOf(key: string) returns (s: Slice)
      requires Valid()
      ensures s.len <= s.buf.Length
      ensures if key in attempts then s == attempts[key] else fresh(s.buf)
      ensures forall k :: k in attempts && k != key ==> attempts[k].buf != s.buf
      ensures s.buf[..s.len] == Lookup(Table(cfg, history), key)
    {
      if key in attempts {
        s := attempts[key];
      } else {
        var none := new Time[0];
        s := Slice(none, 0);
      }
    }

    /** Stores the slice of one key, the other keys still holding their lists. */
    method Store(key: string, kept: Slice, ghost now: Time)
      requires Shaped() && kept.len <= kept.buf.Length
      requires forall k :: k in attempts && k != key ==> attempts[k].buf != kept.buf
      requires attempts.Keys == Table(cfg, history).Keys
      requires forall k :: k in attempts && k != key
                 ==> attempts[k].buf[..attempts[k].len] == Table(cfg, history)[k]
      requires kept.buf[..kept.len] == AllowOn(cfg, Lookup(Table(cfg, history), key), now).kept
      modifies this
      ensures Valid()
      ensures history == old(history) + [Call(key, now)] && attempts == old(attempts)[key := kept]
    {
      hide AllowOn, Table, Lookup;
      TableStep(cfg, history, Call(key, now));
      StoreHolds(key, kept, Table(cfg, history), Table(cfg, history + [Call(key, now)]));
      attempts := attempts[key := kept];
      history := history + [Call(key, now)];
    }

    /** What storing a slice does to shape and contents, before it is stored. */
    lemma StoreHolds(key: string, kept: Slice, before: map<string, seq<Time>>, after: map<string, seq<Time>>)
      requires Shaped() && kept.len <= kept.buf.Length
      requires forall k :: k in attempts && k != key ==> attempts[k].buf != kept.buf
      requires attempts.Keys == before.Keys
      requires forall k :: k in attempts && k != key ==> attempts[k].buf[..attempts[k].len] == before[k]
      requires after == before[key := kept.buf[..kept.len]]
      ensures var m := attempts[key := kept];
              && m.Keys == after.Keys
              && (forall k :: k in m ==> m[k].len <= m[k].buf.Length && m[k].buf[..m[k].len] == after[k])
              && (forall k, k' :: k in m && k' in m && k != k' ==> m[k].buf != m[k'].buf)
    {}

    method Allow(key: string, now: Time) returns (ok: bool)
      requires Valid()
      modifies this, if key in attempts then {attempts[key].buf} else {}
      ensures Valid()
      ensures history == old(history) + [Call(key, now)]
      ensures ok == Admits(cfg, old(history), key, now)
      ensures forall k :: k in old(attempts) && k != key ==> k in attempts && attempts[k] == old(attempts[k])
    {
      hide AllowOn, Table, Lookup;
      var slice := SliceOf(key);
      var kept: Slice;
      kept, ok := Record(slice, now);
      forall k | k in attempts && k != key
        ensures attempts[k].buf[..attempts[k].len] == Table(cfg, history)[k]
      {
        assert old(attempts[k].buf[..attempts[k].len]) == Table(cfg, history)[k];
      }
      Store(key, kept, now);
    }
  }
}
