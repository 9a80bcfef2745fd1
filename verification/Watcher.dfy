/** The debouncing file watcher as a protocol: one select loop, timers that expire on their own,
    and goroutines blocked on an unbuffered channel. Timers are numbered in the order in which
    the loop arms them, which is the order of the accepted events. */
module Watcher {

  type Path = string

  /** 300 milliseconds. */
  const DEBOUNCE: int := 300

  /** A timer is armed; then Stop catches it, or it expires and its goroutine blocks on the
      channel until the loop receives from it. */
  datatype Phase = Armed | Stopped | Blocked | Delivered

  datatype Timer = Timer(path: Path, deadline: int, phase: Phase)

  /** What can be observed: an accepted event, a call of Stop that caught its timer, and the
      start of a call of onFile. */
  datatype Entry =
    | Accepted(path: Path, at: int)
    | Caught(path: Path)
    | Started(path: Path, at: int)

  datatype State = State(
    now: int,
    running: bool,                // the loop has not returned
    calling: bool,                // the loop is inside onFile
    timers: seq<Timer>,
    pending: map<Path, nat>,
    log: seq<Entry>)

  datatype Action =
    | Tick(elapsed: nat)          // time passes
    | Event(path: Path, relevant: bool)   // fsnotify event; relevant: a write or a create
    | Expire(id: nat)             // a timer's goroutine starts and blocks
    | Receive(id: nat)            // the loop receives from one blocked goroutine
    | Return                      // onFile returns
    | WatchError                  // the loop reports a watcher error
    | Stop                        // stop is closed, or fsnotify closes a channel

  ghost predicate Init(s: State) {
    s.running && !s.calling && s.timers == [] && s.pending == map[] && s.log == []
  }

  /** The loop is at its select statement. */
  predicate AtSelect(s: State) { s.running && !s.calling }

  /** Which actions can happen; a timer never expires before its deadline. */
  predicate Enabled(s: State, a: Action) {
    match a
    case Tick(_) => true
    case Event(_, _) => AtSelect(s)
    case Expire(id) => id < |s.timers| && s.timers[id].phase == Armed && s.timers[id].deadline <= s.now
    case Receive(id) => AtSelect(s) && id < |s.timers| && s.timers[id].phase == Blocked
    case Return => s.calling
    case WatchError => AtSelect(s)
    case Stop => AtSelect(s)
  }

  /** Whether a pending timer exists for the path and Stop would still catch it. */
  predicate Catchable(s: State, p: Path) {
    p in s.pending && s.pending[p] < |s.timers| && s.timers[s.pending[p]].phase == Armed
  }

  function StopPending(s: State, p: Path): State {
    if Catchable(s, p) then
      s.(timers := SetPhase(s.timers, s.pending[p], Stopped), log := s.log + [Caught(s.timers[s.pending[p]].path)])
    else s
  }

  function Arm(s: State, p: Path): State {
    s.(timers := s.timers + [Timer(p, s.now + DEBOUNCE, Armed)],
       pending := s.pending[p := |s.timers|],
       log := s.log + [Accepted(p, s.now)])
  }

  function SetPhase(ts: seq<Timer>, id: nat, phase: Phase): (r: seq<Timer>)
    requires id < |ts|
    ensures |r| == |ts|
    ensures forall i :: 0 <= i < |ts| ==> r[i].path == ts[i].path && r[i].deadline == ts[i].deadline
    ensures forall i :: 0 <= i < |ts| ==> r[i].phase == if i == id then phase else ts[i].phase
  {
    ts[id := ts[id].(phase := phase)]
  }

  function Apply(s: State, a: Action): State
    requires Enabled(s, a)
  {
    match a
    case Tick(elapsed) => s.(now := s.now + elapsed)
    case Event(p, relevant) => if relevant then Arm(StopPending(s, p), p) else s
    case Expire(id) => s.(timers := SetPhase(s.timers, id, Blocked))
    case Receive(id) =>
      var p := s.timers[id].path;
      s.(timers := SetPhase(s.timers, id, Delivered),
         pending := s.pending - {p},
         calling := true,
         log := s.log + [Started(p, s.now)])
    case Return => s.(calling := false)
    case WatchError => s
    case Stop => s.(running := false)
  }

  /** A run: its states, one more than its actions. */
  ghost predicate Run(states: seq<State>, acts: seq<Action>) {
    && |states| == |acts| + 1
    && forall i :: 0 <= i < |acts| ==> Enabled(states[i], acts[i]) && states[i + 1] == Apply(states[i], acts[i])
  }

  ghost predicate Reachable(s: State) {
    exists states: seq<State>, acts: seq<Action> :: Run(states, acts) && Init(states[0]) && s == states[|acts|]
  }

  // ----- counting --------------------------------------------------------------------------

  ghost function InPhase(ts: seq<Timer>, p: Path, phase: Phase): nat {
    if ts == [] then 0
    else
      var t := ts[|ts| - 1];
      InPhase(ts[..|ts| - 1], p, phase) + if t.path == p && t.phase == phase then 1 else 0
  }

  ghost function Events(log: seq<Entry>, p: Path): nat {
    if log == [] then 0
    else
      var e := log[|log| - 1];
      Events(log[..|log| - 1], p) + if e.Accepted? && e.path == p then 1 else 0
  }

  ghost function Stops(log: seq<Entry>, p: Path): nat {
    if log == [] then 0
    else
      var e := log[|log| - 1];
      Stops(log[..|log| - 1], p) + if e.Caught? && e.path == p then 1 else 0
  }

  ghost function Calls(log: seq<Entry>, p: Path): nat {
    if log == [] then 0
    else
      var e := log[|log| - 1];
      Calls(log[..|log| - 1], p) + if e.Started? && e.path == p then 1 else 0
  }

  lemma InPhaseSnoc(ts: seq<Timer>, t: Timer, p: Path, phase: Phase)
    ensures InPhase(ts + [t], p, phase) == InPhase(ts, p, phase) + if t.path == p && t.phase == phase then 1 else 0
  {
    assert (ts + [t])[..|ts|] == ts;
  }

  lemma {:induction false} InPhaseSet(ts: seq<Timer>, id: nat, to: Phase, p: Path, phase: Phase)
    requires id < |ts|
    ensures InPhase(SetPhase(ts, id, to), p, phase)
         == InPhase(ts, p, phase)
            - (if ts[id].path == p && ts[id].phase == phase then 1 else 0)
            + (if ts[id].path == p && to == phase then 1 else 0)
  {
    var front, r := ts[..|ts| - 1], SetPhase(ts, id, to);
    if id < |front| {
      InPhaseSet(front, id, to, p, phase);
      assert r[..|ts| - 1] == SetPhase(front, id, to);
    } else {
      assert r[..|ts| - 1] == front;
    }
  }

  lemma LogSnoc(log: seq<Entry>, e: Entry, p: Path)
    ensures Events(log + [e], p) == Events(log, p) + if e.Accepted? && e.path == p then 1 else 0
    ensures Stops(log + [e], p) == Stops(log, p) + if e.Caught? && e.path == p then 1 else 0
    ensures Calls(log + [e], p) == Calls(log, p) + if e.Started? && e.path == p then 1 else 0
  {
    assert (log + [e])[..|log|] == log;
  }

  /** Every accepted event is accounted for: its timer was stopped in time, is armed, is a
      goroutine waiting to send, or has led to a call of onFile. */
  ghost predicate Conserved(s: State, p: Path) {
    && Stops(s.log, p) == InPhase(s.timers, p, Stopped)
    && Calls(s.log, p) == InPhase(s.timers, p, Delivered)
    && Events(s.log, p)
       == Stops(s.log, p) + InPhase(s.timers, p, Armed) + InPhase(s.timers, p, Blocked) + Calls(s.log, p)
  }

  lemma ConservedStop(s: State, q: Path, p: Path)
    requires Conserved(s, p)
    ensures Conserved(StopPending(s, q), p)
  {
    if Catchable(s, q) {
      var id := s.pending[q];
      LogSnoc(s.log, Caught(s.timers[id].path), p);
      forall phase: Phase { InPhaseSet(s.timers, id, Stopped, p, phase); }
    }
  }

  lemma ConservedArm(s: State, q: Path, p: Path)
    requires Conserved(s, p)
    ensures Conserved(Arm(s, q), p)
  {
    LogSnoc(s.log, Accepted(q, s.now), p);
    forall phase: Phase { InPhaseSnoc(s.timers, Timer(q, s.now + DEBOUNCE, Armed), p, phase); }
  }

  lemma ConservedStep(s: State, a: Action, p: Path)
    requires Enabled(s, a) && Conserved(s, p)
    ensures Conserved(Apply(s, a), p)
  {
    match a
    case Event(q, relevant) =>
      if relevant {
        ConservedStop(s, q, p);
        ConservedArm(StopPending(s, q), q, p);
      }
    case Expire(id) =>
      forall phase: Phase { InPhaseSet(s.timers, id, Blocked, p, phase); }
    case Receive(id) =>
      LogSnoc(s.log, Started(s.timers[id].path, s.now), p);
      forall phase: Phase { InPhaseSet(s.timers, id, Delivered, p, phase); }
    case _ =>
  }

  // ----- no change is lost -----------------------------------------------------------------

  /** An event for the path was accepted after the last time onFile started on it. */
  ghost predicate Changed(log: seq<Entry>, p: Path) {
    exists i :: 0 <= i < |log| && log[i].Accepted? && log[i].path == p
      && forall j :: i < j < |log| ==> !(log[j].Started? && log[j].path == p)
  }

  /** A timer or a goroutine that will still lead to onFile. */
  predicate Alive(t: Timer) { t.phase == Armed || t.phase == Blocked }

  /** The timer of the path's last event. */
  ghost predicate IsLatest(ts: seq<Timer>, id: nat, p: Path) {
    && id < |ts| && ts[id].path == p
    && forall j :: id < j < |ts| ==> ts[j].path != p
  }

  ghost predicate Inv(s: State) {
    && (forall p :: p in s.pending ==> IsLatest(s.timers, s.pending[p], p))
    && (forall p: Path :: Changed(s.log, p) ==> exists id: nat :: IsLatest(s.timers, id, p) && Alive(s.timers[id]))
  }

  lemma ChangedSnoc(log: seq<Entry>, e: Entry, p: Path)
    ensures Changed(log + [e], p)
       <==> (e.path == p && e.Accepted?) || (Changed(log, p) && !(e.Started? && e.path == p))
  {
    var all := log + [e];
    if Changed(log, p) && !(e.Started? && e.path == p) {
      var i :| 0 <= i < |log| && log[i].Accepted? && log[i].path == p
        && forall j :: i < j < |log| ==> !(log[j].Started? && log[j].path == p);
      assert all[i].Accepted? && all[i].path == p;
    }
    if e.Accepted? && e.path == p {
      assert all[|log|] == e;
    }
    if Changed(all, p) && !(e.Accepted? && e.path == p) {
      var i :| 0 <= i < |all| && all[i].Accepted? && all[i].path == p
        && forall j :: i < j < |all| ==> !(all[j].Started? && all[j].path == p);
      assert all[|log|] == e;
      assert forall j :: 0 <= j < |log| ==> all[j] == log[j];
    }
  }

  lemma LatestSet(ts: seq<Timer>, id: nat, to: Phase, p: Path, k: nat)
    requires id < |ts|
    ensures IsLatest(SetPhase(ts, id, to), k, p) <==> IsLatest(ts, k, p)
  {}

  lemma InvStep(s: State, a: Action)
    requires Enabled(s, a) && Inv(s)
    ensures Inv(Apply(s, a))
  {
    match a
    case Event(q, relevant) =>
      if relevant { InvEvent(s, q); }
    case Expire(id) =>
      forall p: Path, k: nat { LatestSet(s.timers, id, Blocked, p, k); }
    case Receive(id) => InvReceive(s, id);
    case _ =>
  }

  lemma InvEvent(s: State, q: Path)
    requires Inv(s)
    ensures Inv(Arm(StopPending(s, q), q))
  {
    var m := StopPending(s, q);
    var s' := Arm(m, q);
    forall p: Path | Changed(s'.log, p)
      ensures exists id: nat :: IsLatest(s'.timers, id, p) && Alive(s'.timers[id])
    {
      ChangedSnoc(m.log, Accepted(q, m.now), p);
      if Catchable(s, q) { ChangedSnoc(s.log, Caught(s.timers[s.pending[q]].path), p); }
      if p == q {
        assert IsLatest(s'.timers, |m.timers|, p);
      } else {
        var id: nat :| IsLatest(s.timers, id, p) && Alive(s.timers[id]);
        assert IsLatest(s'.timers, id, p) && Alive(s'.timers[id]);
      }
    }
  }

  lemma InvReceive(s: State, id: nat)
    requires Enabled(s, Receive(id)) && Inv(s)
    ensures Inv(Apply(s, Receive(id)))
  {
    var s' := Apply(s, Receive(id));
    forall p: Path | Changed(s'.log, p)
      ensures exists k: nat :: IsLatest(s'.timers, k, p) && Alive(s'.timers[k])
    {
      ChangedSnoc(s.log, Started(s.timers[id].path, s.now), p);
      var k: nat :| IsLatest(s.timers, k, p) && Alive(s.timers[k]);
      assert IsLatest(s'.timers, k, p) && Alive(s'.timers[k]);
    }
  }

  lemma {:induction false} RunInvariant(states: seq<State>, acts: seq<Action>, n: nat, p: Path)
    requires Run(states, acts) && Init(states[0]) && n <= |acts|
    ensures Inv(states[n]) && Conserved(states[n], p)
  {
    if n > 0 {
      RunInvariant(states, acts, n - 1, p);
      InvStep(states[n - 1], acts[n - 1]);
      ConservedStep(states[n - 1], acts[n - 1], p);
    }
  }

  /** In every reachable state of every interleaving, accepted events are conserved. */
  lemma EventsConserved(s: State, p: Path)
    requires Reachable(s)
    ensures Events(s.log, p)
         == Stops(s.log, p) + InPhase(s.timers, p, Armed) + InPhase(s.timers, p, Blocked) + Calls(s.log, p)
  {
    var states: seq<State>, acts: seq<Action> :| Run(states, acts) && Init(states[0]) && s == states[|acts|];
    RunInvariant(states, acts, |acts|, p);
  }

  /** In every reachable state, a path that changed since onFile last started on it has an
      armed timer or a blocked sender, also when a receive dropped a newer timer's entry. */
  lemma NoChangeLost(s: State, p: Path)
    requires Reachable(s) && Changed(s.log, p)
    ensures exists id :: 0 <= id < |s.timers| && s.timers[id].path == p && Alive(s.timers[id])
  {
    var states: seq<State>, acts: seq<Action> :| Run(states, acts) && Init(states[0]) && s == states[|acts|];
    RunInvariant(states, acts, |acts|, p);
    var id: nat :| IsLatest(s.timers, id, p) && Alive(s.timers[id]);
  }

  // ----- a change can always be delivered --------------------------------------------------

  predicate FromOutside(a: Action) { a.Event? || a.Stop? }

  /** The protocol can go from s to t with no further event and no stop. */
  ghost predicate Leads(s: State, t: State) {
    exists states: seq<State>, acts: seq<Action> ::
      && Run(states, acts) && states[0] == s && states[|acts|] == t
      && forall i :: 0 <= i < |acts| ==> !FromOutside(acts[i])
  }

  lemma LeadsNowhere(s: State)
    ensures Leads(s, s)
  {
    assert Run([s], []);
  }

  lemma LeadsOn(s: State, t: State, a: Action)
    requires Leads(s, t) && Enabled(t, a) && !FromOutside(a)
    ensures Leads(s, Apply(t, a))
  {
    var states: seq<State>, acts: seq<Action> :| Run(states, acts) && states[0] == s && states[|acts|] == t
      && forall i :: 0 <= i < |acts| ==> !FromOutside(acts[i]);
    assert Run(states + [Apply(t, a)], acts + [a]);
  }

  /** An idle loop's armed timer can be made to expire. */
  lemma CanBlock(s: State, t: State, id: nat)
    requires Leads(s, t) && id < |t.timers| && Alive(t.timers[id])
    ensures exists u :: Leads(s, u) && u.running == t.running && u.calling == t.calling && u.log == t.log
              && |u.timers| == |t.timers| && u.timers[id] == t.timers[id].(phase := Blocked)
  {
    if t.timers[id].phase == Armed {
      var wait := Tick(if t.now < t.timers[id].deadline then t.timers[id].deadline - t.now else 0);
      LeadsOn(s, t, wait);
      var u := Apply(t, wait);
      LeadsOn(s, u, Expire(id));
    }
  }

  /** While the loop runs it never gets stuck on a change: without any new event, time and the
      loop's own steps can reach a state in which onFile has started since the last change. */
  lemma ChangeCanBeDelivered(s: State, p: Path)
    requires Reachable(s) && s.running && Changed(s.log, p)
    ensures exists t :: Leads(s, t) && !Changed(t.log, p) && Calls(t.log, p) == Calls(s.log, p) + 1
  {
    NoChangeLost(s, p);
    var id :| 0 <= id < |s.timers| && s.timers[id].path == p && Alive(s.timers[id]);
    LeadsNowhere(s);
    if s.calling { LeadsOn(s, s, Return); }
    var idle := s.(calling := false);
    CanBlock(s, idle, id);
    var t :| Leads(s, t) && t.running && !t.calling && t.log == s.log
      && |t.timers| == |s.timers| && t.timers[id] == s.timers[id].(phase := Blocked);
    LeadsOn(s, t, Receive(id));
    ChangedSnoc(t.log, Started(p, t.now), p);
    LogSnoc(t.log, Started(p, t.now), p);
  }

  // ----- bursts collapse -------------------------------------------------------------------

  datatype Moment = Never | At(time: int)

  predicate IsChange(a: Action, p: Path) { a == Event(p, true) }

  /** When the last of the first n actions that changed the path was handled. */
  ghost function LastChange(states: seq<State>, acts: seq<Action>, n: nat, p: Path): Moment
    requires n <= |acts| < |states|
  {
    if n == 0 then Never
    else if IsChange(acts[n - 1], p) then At(states[n - 1].now)
    else LastChange(states, acts, n - 1, p)
  }

  /** Changes of the path follow each other in less than the debounce time. */
  ghost predicate Burst(states: seq<State>, acts: seq<Action>, p: Path)
    requires |acts| < |states|
  {
    forall n :: 0 <= n < |acts| && IsChange(acts[n], p) && LastChange(states, acts, n, p).At?
      ==> states[n].now < LastChange(states, acts, n, p).time + DEBOUNCE
  }

  ghost predicate NoneAlive(ts: seq<Timer>, p: Path) {
    forall i :: 0 <= i < |ts| && ts[i].path == p ==> !Alive(ts[i])
  }

  ghost predicate OnlyAlive(ts: seq<Timer>, p: Path, id: nat) {
    && id < |ts| && ts[id].path == p && Alive(ts[id])
    && forall i :: 0 <= i < |ts| && ts[i].path == p && i != id ==> !Alive(ts[i])
  }

  ghost predicate Quiet(s: State, p: Path) {
    p !in s.pending && NoneAlive(s.timers, p)
  }

  ghost predicate StartedLate(s: State, from: nat, p: Path, due: int) {
    exists k :: from <= k < |s.log| && s.log[k].Started? && s.log[k].path == p && s.log[k].at >= due
  }

  /** One timer is outstanding, armed by the change at t and still catchable. */
  ghost predicate ArmedStage(s: State, p: Path, t: int) {
    && p in s.pending && OnlyAlive(s.timers, p, s.pending[p])
    && s.timers[s.pending[p]] == Timer(p, t + DEBOUNCE, Armed)
  }

  ghost predicate BlockedStage(s: State, p: Path, t: int) {
    s.now >= t + DEBOUNCE && exists id: nat :: OnlyAlive(s.timers, p, id) && s.timers[id].phase == Blocked
  }

  ghost predicate DoneStage(s: State, from: nat, p: Path, t: int) {
    s.now >= t + DEBOUNCE && NoneAlive(s.timers, p) && StartedLate(s, from, p, t + DEBOUNCE)
  }

  /** How far a burst has come: not begun, one armed timer, one blocked sender, or delivered. */
  ghost predicate Progress(s: State, from: nat, calls: nat, p: Path, last: Moment) {
    && from <= |s.log|
    && match last
       case Never => Quiet(s, p) && Calls(s.log, p) == calls
       case At(t) =>
         || (Calls(s.log, p) == calls && (ArmedStage(s, p, t) || BlockedStage(s, p, t)))
         || (Calls(s.log, p) == calls + 1 && DoneStage(s, from, p, t))
  }

  lemma ProgressStep(s: State, a: Action, from: nat, calls: nat, p: Path, last: Moment)
    requires Enabled(s, a) && Inv(s) && Progress(s, from, calls, p, last)
    requires IsChange(a, p) && last.At? ==> s.now < last.time + DEBOUNCE
    ensures Progress(Apply(s, a), from, calls, p, if IsChange(a, p) then At(s.now) else last)
  {
    match a
    case Event(q, relevant) =>
      if relevant { ProgressEvent(s, q, from, calls, p, last); }
    case Expire(id) => ProgressExpire(s, id, from, calls, p, last);
    case Receive(id) => ProgressReceive(s, id, from, calls, p, last);
    case _ =>
  }

  lemma ProgressEvent(s: State, q: Path, from: nat, calls: nat, p: Path, last: Moment)
    requires Inv(s) && Progress(s, from, calls, p, last)
    requires q == p && last.At? ==> s.now < last.time + DEBOUNCE
    ensures Progress(Arm(StopPending(s, q), q), from, calls, p, if q == p then At(s.now) else last)
  {
    hide Calls, Changed;
    var m := StopPending(s, q);
    if Catchable(s, q) { LogSnoc(s.log, Caught(s.timers[s.pending[q]].path), p); }
    LogSnoc(m.log, Accepted(q, m.now), p);
    if q != p && last.At? {
      hide ArmedStage, BlockedStage, DoneStage;
      WaitingElsewhere(s, q, p, last.time);
      DoneElsewhere(s, q, from, p, last.time);
    }
  }

  /** An event of another path leaves the path's own timer alone. */
  lemma WaitingElsewhere(s: State, q: Path, p: Path, t: int)
    requires Inv(s) && q != p
    ensures var s' := Arm(StopPending(s, q), q);
            (ArmedStage(s, p, t) ==> ArmedStage(s', p, t)) && (BlockedStage(s, p, t) ==> BlockedStage(s', p, t))
  {
    hide Changed;
    var s' := Arm(StopPending(s, q), q);
    if BlockedStage(s, p, t) {
      var id: nat :| OnlyAlive(s.timers, p, id) && s.timers[id].phase == Blocked;
      assert OnlyAlive(s'.timers, p, id) && s'.timers[id].phase == Blocked;
    }
  }

  lemma DoneElsewhere(s: State, q: Path, from: nat, p: Path, t: int)
    requires q != p
    ensures DoneStage(s, from, p, t) ==> DoneStage(Arm(StopPending(s, q), q), from, p, t)
  {
    if DoneStage(s, from, p, t) {
      StaysStarted(s, Arm(StopPending(s, q), q), from, p, t + DEBOUNCE);
    }
  }

  lemma StaysStarted(s: State, s': State, from: nat, p: Path, due: int)
    requires s.log <= s'.log && StartedLate(s, from, p, due)
    ensures StartedLate(s', from, p, due)
  {
    var k :| from <= k < |s.log| && s.log[k].Started? && s.log[k].path == p && s.log[k].at >= due;
    assert s'.log[k] == s.log[k];
  }

  lemma ProgressExpire(s: State, id: nat, from: nat, calls: nat, p: Path, last: Moment)
    requires Enabled(s, Expire(id)) && Progress(s, from, calls, p, last)
    ensures Progress(Apply(s, Expire(id)), from, calls, p, last)
  {
    hide Calls;
    var s' := Apply(s, Expire(id));
    if last.At? && s.timers[id].path == p {
      assert OnlyAlive(s'.timers, p, id) && s'.timers[id].phase == Blocked;
    } else if last.At? && BlockedStage(s, p, last.time) {
      var k: nat :| OnlyAlive(s.timers, p, k) && s.timers[k].phase == Blocked;
      assert OnlyAlive(s'.timers, p, k) && s'.timers[k].phase == Blocked;
    }
  }

  lemma ProgressReceive(s: State, id: nat, from: nat, calls: nat, p: Path, last: Moment)
    requires Enabled(s, Receive(id)) && Progress(s, from, calls, p, last)
    ensures Progress(Apply(s, Receive(id)), from, calls, p, last)
  {
    hide Calls;
    var s' := Apply(s, Receive(id));
    LogSnoc(s.log, Started(s.timers[id].path, s.now), p);
    if last.At? {
      var t := last.time;
      if s.timers[id].path == p {
        assert s'.log[|s.log|] == Started(p, s.now);
        assert StartedLate(s', from, p, t + DEBOUNCE);
      } else if DoneStage(s, from, p, t) {
        StaysStarted(s, s', from, p, t + DEBOUNCE);
      } else if BlockedStage(s, p, t) {
        var k: nat :| OnlyAlive(s.timers, p, k) && s.timers[k].phase == Blocked;
        assert OnlyAlive(s'.timers, p, k) && s'.timers[k].phase == Blocked;
      }
    }
  }

  lemma {:induction false} BurstProgress(states: seq<State>, acts: seq<Action>, n: nat, p: Path)
    requires Run(states, acts) && n <= |acts| && Inv(states[0]) && Quiet(states[0], p) && Burst(states, acts, p)
    ensures Inv(states[n])
    ensures Progress(states[n], |states[0].log|, Calls(states[0].log, p), p, LastChange(states, acts, n, p))
  {
    if n > 0 {
      BurstProgress(states, acts, n - 1, p);
      InvStep(states[n - 1], acts[n - 1]);
      ProgressStep(states[n - 1], acts[n - 1], |states[0].log|, Calls(states[0].log, p), p,
                   LastChange(states, acts, n - 1, p));
    }
  }

  /** From a reachable state with nothing outstanding for the path, a burst of changes whose
      gaps stay below the debounce time leads to exactly one call of onFile, once no timer or
      sender of the path is left, and that call starts at least the debounce time after the
      last change. Events of other paths may come in between. */
  lemma BurstCollapses(states: seq<State>, acts: seq<Action>, p: Path)
    requires Run(states, acts) && Reachable(states[0]) && Quiet(states[0], p) && Burst(states, acts, p)
    requires LastChange(states, acts, |acts|, p).At?
    ensures var first, last := states[0], states[|acts|];
            && Calls(last.log, p) == Calls(first.log, p) + (if NoneAlive(last.timers, p) then 1 else 0)
            && (NoneAlive(last.timers, p) ==>
                  StartedLate(last, |first.log|, p, LastChange(states, acts, |acts|, p).time + DEBOUNCE))
  {
    var before: seq<State>, past: seq<Action> :| Run(before, past) && Init(before[0]) && states[0] == before[|past|];
    RunInvariant(before, past, |past|, p);
    BurstProgress(states, acts, |acts|, p);
  }

  // ----- one thing at a time ---------------------------------------------------------------

  /** The loop's own actions: what it does at its select statement. */
  predicate AtomOfLoop(a: Action) { a.Event? || a.Receive? || a.WatchError? || a.Stop? }

  /** The loop runs exactly until it is stopped; errors do not end it. */
  lemma {:induction false} RunningExactly(states: seq<State>, acts: seq<Action>, n: nat)
    requires Run(states, acts) && Init(states[0]) && n <= |acts|
    ensures states[n].running <==> forall i :: 0 <= i < n ==> acts[i] != Stop
  {
    if n > 0 { RunningExactly(states, acts, n - 1); }
  }

  /** After a stop the loop does nothing any more: no call of onFile starts, no event is accepted
      and no timer is stopped, whatever timers still expire. */
  lemma {:induction false} SilentAfterStop(states: seq<State>, acts: seq<Action>, i: nat, j: nat)
    requires Run(states, acts) && i < j <= |acts| && acts[i] == Stop
    ensures !states[j].running && !states[j].calling
    ensures states[j].log == states[i].log && states[j].pending == states[i].pending
    ensures j < |acts| ==> !AtomOfLoop(acts[j]) && acts[j] != Return
  {
    if i + 1 < j { SilentAfterStop(states, acts, i, j - 1); }
  }

  /** The loop is inside onFile exactly from a receive to the return that follows. */
  lemma {:induction false} CallingExactly(states: seq<State>, acts: seq<Action>, n: nat)
    requires Run(states, acts) && Init(states[0]) && n <= |acts|
    ensures states[n].calling
       <==> exists i :: 0 <= i < n && acts[i].Receive? && forall k :: i < k < n ==> acts[k] != Return
  {
    if n > 0 {
      CallingExactly(states, acts, n - 1);
      if states[n - 1].calling && acts[n - 1] != Return {
        var i :| 0 <= i < n - 1 && acts[i].Receive? && forall k :: i < k < n - 1 ==> acts[k] != Return;
        assert forall k :: i < k < n ==> acts[k] != Return;
      }
      if acts[n - 1].Receive? { assert states[n].calling; }
    }
  }

  /** Calls of onFile never overlap, and while one runs the loop takes no event, no other path,
      no error and no stop. */
  lemma OneCallAtATime(states: seq<State>, acts: seq<Action>, i: nat, j: nat)
    requires Run(states, acts) && Init(states[0]) && i < j < |acts|
    requires acts[i].Receive? && AtomOfLoop(acts[j])
    ensures exists k :: i < k < j && acts[k] == Return
  {
    CallingExactly(states, acts, j);
  }

  /** The accepted events, in their order. */
  ghost function AcceptedOf(log: seq<Entry>): seq<Entry> {
    if log == [] then []
    else
      var rest, e := AcceptedOf(log[..|log| - 1]), log[|log| - 1];
      if e.Accepted? then rest + [e] else rest
  }

  lemma AcceptedSnoc(log: seq<Entry>, e: Entry)
    ensures AcceptedOf(log + [e]) == AcceptedOf(log) + if e.Accepted? then [e] else []
  {
    assert (log + [e])[..|log|] == log;
  }

  /** Every accepted event has armed one timer of its own, due 300 milliseconds after it. */
  ghost predicate TimersOfEvents(s: State) {
    var events := AcceptedOf(s.log);
    && |s.timers| == |events|
    && forall i :: 0 <= i < |events| ==>
         events[i].Accepted? && s.timers[i].path == events[i].path && s.timers[i].deadline == events[i].at + 300
  }

  /** The pending map has an entry for exactly the paths that changed since onFile last started
      on them. */
  ghost predicate PendingIsChanged(s: State) {
    forall p: Path :: p in s.pending <==> Changed(s.log, p)
  }

  lemma PendingStop(s: State, q: Path)
    requires PendingIsChanged(s)
    ensures PendingIsChanged(StopPending(s, q))
  {
    hide Changed;
    if Catchable(s, q) {
      forall p: Path { ChangedSnoc(s.log, Caught(s.timers[s.pending[q]].path), p); }
    }
  }

  lemma PendingStep(s: State, a: Action)
    requires Enabled(s, a) && PendingIsChanged(s)
    ensures PendingIsChanged(Apply(s, a))
  {
    hide Changed, SetPhase;
    match a
    case Event(q, relevant) =>
      if relevant {
        hide StopPending;
        PendingStop(s, q);
        var m := StopPending(s, q);
        forall p: Path { ChangedSnoc(m.log, Accepted(q, m.now), p); }
      }
    case Receive(id) =>
      forall p: Path { ChangedSnoc(s.log, Started(s.timers[id].path, s.now), p); }
    case _ =>
  }

  lemma TimersStop(s: State, q: Path)
    requires TimersOfEvents(s)
    ensures TimersOfEvents(StopPending(s, q)) && StopPending(s, q).now == s.now
  {
    hide AcceptedOf;
    if Catchable(s, q) { AcceptedSnoc(s.log, Caught(s.timers[s.pending[q]].path)); }
  }

  lemma TimersStep(s: State, a: Action)
    requires Enabled(s, a) && TimersOfEvents(s)
    ensures TimersOfEvents(Apply(s, a))
  {
    hide AcceptedOf;
    match a
    case Event(q, relevant) =>
      if relevant {
        hide StopPending;
        TimersStop(s, q);
        AcceptedSnoc(StopPending(s, q).log, Accepted(q, s.now));
      }
    case Receive(id) => AcceptedSnoc(s.log, Started(s.timers[id].path, s.now));
    case _ =>
  }

  /** Both hold in every reachable state. */
  lemma {:induction false} BooksKept(states: seq<State>, acts: seq<Action>, n: nat)
    requires Run(states, acts) && Init(states[0]) && n <= |acts|
    ensures TimersOfEvents(states[n]) && PendingIsChanged(states[n])
  {
    hide TimersOfEvents, PendingIsChanged;
    if n == 0 {
      StartBooks(states[0]);
    } else {
      BooksKept(states, acts, n - 1);
      PendingStep(states[n - 1], acts[n - 1]);
      TimersStep(states[n - 1], acts[n - 1]);
    }
  }

  lemma StartBooks(s: State)
    requires Init(s)
    ensures TimersOfEvents(s) && PendingIsChanged(s)
  {}

  // ----- a burst that happens --------------------------------------------------------------

  lemma RunOn(states: seq<State>, acts: seq<Action>, a: Action) returns (states': seq<State>, acts': seq<Action>)
    requires Run(states, acts) && Enabled(states[|acts|], a)
    ensures acts' == acts + [a] && states' == states + [Apply(states[|acts|], a)] && Run(states', acts')
  {
    acts' := acts + [a];
    states' := states + [Apply(states[|acts|], a)];
  }

  lemma FirstChange(s: State, p: Path)
    requires Init(s)
    ensures var t := Apply(s, Event(p, true));
            ArmedStage(t, p, t.now) && Events(t.log, p) == 1 && Calls(t.log, p) == 0
  {
    LogSnoc([], Accepted(p, s.now), p);
  }

  lemma NextChange(s: State, p: Path)
    requires AtSelect(s) && ArmedStage(s, p, s.now)
    ensures var t := Apply(s, Event(p, true));
            && t.now == s.now && AtSelect(t) && ArmedStage(t, p, t.now)
            && Events(t.log, p) == Events(s.log, p) + 1 && Calls(t.log, p) == Calls(s.log, p)
  {
    hide Events, Calls;
    LogSnoc(s.log, Caught(p), p);
    LogSnoc(s.log + [Caught(p)], Accepted(p, s.now), p);
  }

  /** n changes of the path at the same time leave one armed timer. */
  lemma {:induction false} Changes(p: Path, n: nat) returns (states: seq<State>, acts: seq<Action>)
    requires n > 0
    ensures Run(states, acts) && Init(states[0]) && AtSelect(states[|acts|])
    ensures |acts| == n && (forall i :: 0 <= i < n ==> acts[i] == Event(p, true))
    ensures ArmedStage(states[n], p, states[n].now)
    ensures Events(states[n].log, p) == n && Calls(states[n].log, p) == 0
  {
    hide Events, Calls, ArmedStage;
    if n == 1 {
      states, acts := RunOn([State(0, true, false, [], map[], [])], [], Event(p, true));
      FirstChange(states[0], p);
    } else {
      states, acts := Changes(p, n - 1);
      NextChange(states[n - 1], p);
      states, acts := RunOn(states, acts, Event(p, true));
    }
  }

  /** An armed timer fires after an error and 300 milliseconds. */
  lemma Fires(states: seq<State>, acts: seq<Action>, p: Path) returns (states': seq<State>, acts': seq<Action>)
    requires Run(states, acts)
    requires var s := states[|acts|]; AtSelect(s) && ArmedStage(s, p, s.now)
    ensures Run(states', acts') && states <= states'
    ensures var s := states[|acts|];
            acts' == acts + [WatchError, Tick(300), Expire(s.pending[p]), Receive(s.pending[p])]
    ensures var s, t := states[|acts|], states'[|acts'|];
            t.log == s.log + [Started(p, s.now + 300)] && t.running && t.calling
  {
    hide Run;
    assert |states| == |acts| + 1 by { RunLength(states, acts); }
    var s := states[|acts|];
    var id := s.pending[p];
    states', acts' := RunOn(states, acts, WatchError);
    RunLength(states', acts');
    states', acts' := RunOn(states', acts', Tick(300));
    RunLength(states', acts');
    states', acts' := RunOn(states', acts', Expire(id));
    RunLength(states', acts');
    states', acts' := RunOn(states', acts', Receive(id));
    RunLength(states', acts');
  }

  lemma RunLength(states: seq<State>, acts: seq<Action>)
    requires Run(states, acts)
    ensures |states| == |acts| + 1
  {}

  /** The loop can take any number of changes, go on after an error, call onFile once for all of
      them, 300 milliseconds later, and stop. */
  lemma BurstHappens(p: Path, n: nat) returns (states: seq<State>, acts: seq<Action>)
    requires n > 0
    ensures Run(states, acts) && Init(states[0]) && |acts| == n + 6
    ensures (forall i :: 0 <= i < n ==> acts[i] == Event(p, true)) && acts[n] == WatchError && acts[n + 1] == Tick(300)
    ensures acts[n + 2].Expire? && acts[n + 3].Receive? && acts[n + 4] == Return && acts[n + 5] == Stop
    ensures Events(states[|acts|].log, p) == n && Calls(states[|acts|].log, p) == 1
  {
    hide Run, Events, Calls;
    var changed, events := Changes(p, n);
    RunLength(changed, events);
    var s := changed[n];
    states, acts := Fires(changed, events, p);
    RunLength(states, acts);
    LogSnoc(s.log, Started(p, s.now + 300), p);
    states, acts := RunOn(states, acts, Return);
    RunLength(states, acts);
    states, acts := RunOn(states, acts, Stop);
    RunLength(states, acts);
  }

  // ----- the loop --------------------------------------------------------------------------

  /** The local variables of Watch, the runtime's timers and the goroutines they start. */
  class Loop {
    var now: int
    var running: bool
    var calling: bool
    var timers: seq<Timer>
    var pending: map<Path, nat>
    ghost var log: seq<Entry>

    ghost function View(): State
      reads this
    {
      State(now, running, calling, timers, pending, log)
    }

    constructor (now: int)
      ensures Init(View()) && this.now == now
    {
      this.now := now;
      running, calling := true, false;
      timers, pending, log := [], map[], [];
    }

    /** The select case for w.Events. */
    method OnEvent(path: Path, relevant: bool)
      requires Enabled(View(), Event(path, relevant))
      modifies this
      ensures View() == Apply(old(View()), Event(path, relevant))
    {
      if !relevant { return; }
      if path in pending {
        StopTimer(pending[path]);
      }
      pending := pending[path := |timers|];
      timers := timers + [Timer(path, now + DEBOUNCE, Armed)];
      log := log + [Accepted(path, now)];
    }

    /** t.Stop(): it has an effect only on a timer that is still armed. */
    method StopTimer(id: nat)
      modifies this
      ensures View() == (if id < |old(timers)| && old(timers)[id].phase == Armed
                         then old(View()).(timers := SetPhase(old(timers), id, Stopped),
                                           log := old(log) + [Caught(old(timers)[id].path)])
                         else old(View()))
    {
      if id < |timers| && timers[id].phase == Armed {
        log := log + [Caught(timers[id].path)];
        timers := SetPhase(timers, id, Stopped);
      }
    }

    /** The function passed to AfterFunc begins to send. */
    method OnExpiry(id: nat)
      requires Enabled(View(), Expire(id))
      modifies this
      ensures View() == Apply(old(View()), Expire(id))
    {
      timers := SetPhase(timers, id, Blocked);
    }

    /** The select case for fire, up to the start of onFile. */
    method OnFire(id: nat) returns (path: Path)
      requires Enabled(View(), Receive(id))
      modifies this
      ensures View() == Apply(old(View()), Receive(id)) && path == old(timers)[id].path
    {
      path := timers[id].path;
      timers := SetPhase(timers, id, Delivered);
      pending := pending - {path};
      calling := true;
      log := log + [Started(path, now)];
    }

    /** onFile is back, and the loop at its select statement. */
    method OnReturn()
      requires Enabled(View(), Return)
      modifies this
      ensures View() == Apply(old(View()), Return)
    {
      calling := false;
    }

    /** The select case for w.Errors: the error is printed, and the loop goes on unless the
        channel is closed. */
    method OnError(ok: bool)
      requires Enabled(View(), if ok then WatchError else Stop)
      modifies this
      ensures View() == Apply(old(View()), if ok then WatchError else Stop)
    {
      if !ok { running := false; }
    }

    /** The select case for stop. */
    method OnStop()
      requires Enabled(View(), Stop)
      modifies this
      ensures View() == Apply(old(View()), Stop)
    {
      running := false;
    }
  }
}
