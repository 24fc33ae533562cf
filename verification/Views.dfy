/** What matters of a state for the order of events: where each process sits, and where the
    cursor is.  Single iterations, in these terms. */
module Views {
  import opened Types
  import opened Replacement
  import opened ProcessModel
  import opened Machine
  import opened Runs
  import opened Tracking

  /** A process in its last interval: the line it has got to, the last one, its saved
      position and its timer. */
  datatype Seat = Seat(pid: nat, line: nat, last: nat, pos: nat, wait: nat)

  datatype View = View(runnable: seq<Seat>, blocked: seq<Seat>, current: nat, cursor: nat)

  ghost predicate Sits(p: Proc, a: Seat) {
    && p.currInterval.Node? && p.currInterval.right.Nil?
    && a == Seat(p.pid, p.currentline, p.currInterval.iv.high, p.currentPos, p.waitTime)
  }

  ghost predicate AllSit(q: seq<Proc>, r: seq<Seat>) {
    |q| == |r| && forall i :: 0 <= i < |q| ==> Sits(q[i], r[i])
  }

  ghost predicate Looks(s: State, v: View) {
    && !s.aborted && AllSit(s.runnable, v.runnable) && AllSit(s.blocked, v.blocked)
    && s.current == Some(v.current) && s.cursor == v.cursor
  }

  function TickSeats(r: seq<Seat>): seq<Seat> {
    if r == [] || r[0].wait == 0 then r else r[0 := r[0].(wait := r[0].wait - 1)]
  }

  /** Where the head reads. */
  function ViewPos(v: View): nat
    requires v.runnable != []
  {
    if v.current == v.runnable[0].pid then v.cursor else v.runnable[0].pos
  }

  /** The head of the disk queue is served and takes its place behind `n` others. */
  ghost predicate Delivers(v: View, n: nat, t: View) {
    && v.blocked != [] && v.blocked[0].wait == 1 && n <= |v.runnable|
    && (forall k :: 0 <= k < n ==> v.runnable[k].pos <= v.blocked[0].pos)
    && (n < |v.runnable| ==> v.runnable[n].pos > v.blocked[0].pos)
    && t == View(v.runnable[..n] + [v.blocked[0].(wait := 0)] + v.runnable[n..], v.blocked[1..],
                 v.current, v.blocked[0].pos)
  }

  /** The head reads a line and, after a hit, stays in its interval. */
  ghost predicate Refers(v: View, penalty: nat, hit: bool, t: View) {
    && v.runnable != [] && (v.blocked == [] || v.blocked[0].wait > 1)
    && t.current == v.runnable[0].pid && t.cursor == PosAfterReading(LineAt(ViewPos(v)))
    && var h := v.runnable[0];
       if hit then
         && h.line < h.last && t.blocked == TickSeats(v.blocked)
         && t.runnable == [h.(line := h.line + 1)] + v.runnable[1..]
       else
         && t.runnable == v.runnable[1..]
         && t.blocked == TickSeats(v.blocked) + [h.(pos := ViewPos(v), wait := penalty)]
  }

  /** The served process goes to the front. */
  lemma {:induction false} ToFront(q: seq<Seat>, a: Seat, rest: seq<Seat>, cur: nat, cursor: nat)
    requires a.wait == 0 && (q != [] ==> q[0].pos > a.pos)
    ensures Delivers(View(q, [a.(wait := 1)] + rest, cur, cursor), 0, View([a] + q, rest, cur, a.pos))
  {
    assert q[..0] + [a] + q[0..] == [a] + q;
    assert ([a.(wait := 1)] + rest)[1..] == rest;
  }

  /** The served process goes to second place. */
  lemma {:induction false} ToSecond(h: Seat, q: seq<Seat>, a: Seat, rest: seq<Seat>, cur: nat, cursor: nat)
    requires a.wait == 0 && h.pos <= a.pos && (q != [] ==> q[0].pos > a.pos)
    ensures Delivers(View([h] + q, [a.(wait := 1)] + rest, cur, cursor), 1, View([h, a] + q, rest, cur, a.pos))
  {
    assert ([h] + q)[..1] + [a] + ([h] + q)[1..] == [h, a] + q;
    assert ([a.(wait := 1)] + rest)[1..] == rest;
  }

  /** The served process goes to the back. */
  lemma {:induction false} ToBack(q: seq<Seat>, a: Seat, rest: seq<Seat>, cur: nat, cursor: nat)
    requires a.wait == 0 && forall i :: 0 <= i < |q| ==> q[i].pos <= a.pos
    ensures Delivers(View(q, [a.(wait := 1)] + rest, cur, cursor), |q|, View(q + [a], rest, cur, a.pos))
  {
    assert q[..|q|] + [a] + q[|q|..] == q + [a];
    assert ([a.(wait := 1)] + rest)[1..] == rest;
  }

  /** The head hits, with nobody else or one process in the disk queue. */
  lemma {:induction false} HitsAt(h: Seat, q: seq<Seat>, b: seq<Seat>, cur: nat, cursor: nat, penalty: nat)
    requires h.line < h.last && (b == [] || (|b| == 1 && b[0].wait > 1))
    ensures var v := View([h] + q, b, cur, cursor);
      var next := PosAfterReading(LineAt(ViewPos(v)));
      Refers(v, penalty, true, View([h.(line := h.line + 1)] + q, TickSeats(b), h.pid, next))
  {
    assert ([h] + q)[1..] == q;
  }

  /** The head misses. */
  lemma {:induction false} MissesAt(h: Seat, q: seq<Seat>, b: seq<Seat>, cur: nat, cursor: nat, penalty: nat)
    requires b == [] || b[0].wait > 1
    ensures var v := View([h] + q, b, cur, cursor);
      var next := PosAfterReading(LineAt(ViewPos(v)));
      Refers(v, penalty, false, View(q, TickSeats(b) + [h.(pos := ViewPos(v), wait := penalty)], h.pid, next))
  {
    assert ([h] + q)[1..] == q;
  }

  lemma {:induction false} Placed(q: seq<Proc>, r: seq<Seat>, p: Proc, a: Seat, n: nat)
    requires AllSit(q, r) && Sits(p, a) && n <= |r|
    requires (forall k :: 0 <= k < n ==> r[k].pos <= a.pos) && (n < |r| ==> r[n].pos > a.pos)
    ensures AllSit(EnqueuePriority(p, q), r[..n] + [a] + r[n..])
  {
    var m := InsertionPoint(q, p.currentPos);
    assert forall k :: 0 <= k < |q| ==> Sits(q[k], r[k]);
    assert m == n;
  }

  lemma {:induction false} SeatedTail(q: seq<Proc>, r: seq<Seat>)
    requires AllSit(q, r) && (q != [] || r != [])
    ensures q != [] && r != [] && AllSit(q[1..], r[1..]) && Sits(q[0], r[0])
  {
  }

  lemma {:induction false} Unseated(q: seq<Proc>, r: seq<Seat>)
    requires AllSit(q, r) && q == []
    ensures r == []
  {
  }

  lemma {:induction false} TickedSeats(q: seq<Proc>, r: seq<Seat>)
    requires AllSit(q, r)
    ensures AllSit(Ticked(q), TickSeats(r))
  {
  }

  lemma {:induction false} SeatedJoin(q: seq<Proc>, r: seq<Seat>, p: Proc, a: Seat)
    requires AllSit(q, r) && Sits(p, a)
    ensures AllSit(q + [p], r + [a]) && AllSit([p] + q, [a] + r)
  {
  }

  // ---- a delivery -----------------------------------------------------------

  lemma {:induction false} ComesIn(env: Env, s: State)
    requires Inv(env, s) && !s.aborted && s.blocked != [] && s.blocked[0].waitTime == 1
    ensures EventOf(env, s).Loaded?
  {
    hide MemOk, LinesInv, Owns, AllPids, SortedByPos, CursorOk, Waiting, Resident;
  }

  /** The page waited for, and what its arrival does to memory. */
  lemma {:induction false} DeliveryIs(env: Env, s: State)
    requires Inv(env, s) && EventOf(env, s).Loaded?
    ensures s.blocked != [] && LineAt(s.blocked[0].currentPos) < |env.trace| && MemOk(s.frames, s.policy)
    ensures var pg := Page(s.blocked[0].pid, env.trace[LineAt(s.blocked[0].currentPos)].vpn);
      && !Resident(s.frames, pg)
      && (Step(env, s).frames, Step(env, s).policy) == LoadPage(s.frames, s.policy, pg)
  {
    hide QueueInv, LinesInv, MemOk, LoadPage, Allocated, Owns, EnqueuePriority;
    HeadsOk(env, s);
  }

  lemma {:induction false} DeliveryStep(env: Env, s: State, v: View, n: nat, t: View)
    requires Inv(env, s) && Looks(s, v) && Delivers(v, n, t)
    ensures Looks(Step(env, s), t) && MemOk(s.frames, s.policy) && LineAt(v.blocked[0].pos) < |env.trace|
    ensures var pg := Page(v.blocked[0].pid, env.trace[LineAt(v.blocked[0].pos)].vpn);
      && !Resident(s.frames, pg)
      && (Step(env, s).frames, Step(env, s).policy) == LoadPage(s.frames, s.policy, pg)
  {
    hide Inv, Step, EnqueuePriority, AllSit, MemOk, LoadPage, EventOf, Resident;
    SeatedTail(s.blocked, v.blocked);
    ComesIn(env, s);
    LoadShape(env, s);
    StepEffect(env, s);
    DeliveryIs(env, s);
    var p, a := s.blocked[0].(waitTime := 0, waitingOnPage := None), v.blocked[0].(wait := 0);
    Placed(s.runnable, v.runnable, p, a, n);
  }

  // ---- a reference ----------------------------------------------------------

  lemma {:induction false} GoesOn(env: Env, s: State)
    requires Inv(env, s) && !s.aborted && s.runnable != [] && CanRead(env, s)
    requires s.blocked == [] || s.blocked[0].waitTime > 1
    ensures EventOf(env, s) ==
      if Resident(s.frames, NextPage(env, s)) then Touched(NextPage(env, s)) else Faulted(NextPage(env, s))
  {
    hide MemOk, LinesInv, Owns, AllPids, SortedByPos, CursorOk, Waiting, Resident;
  }

  lemma {:induction false} ReferenceIs(env: Env, s: State)
    requires Inv(env, s) && (EventOf(env, s).Touched? || EventOf(env, s).Faulted?)
    requires s.runnable != [] && CanRead(env, s) && s.runnable[0].currInterval.Node?
    requires EventOf(env, s).Touched? ==> HasLinesRemainingInInterval(s.runnable[0])
    ensures var pg, t := NextPage(env, s), Step(env, s);
      && t.frames == s.frames && t.current == Some(s.runnable[0].pid)
      && t.cursor == PosAfterReading(LineAt(ReadPos(s)))
      && (EventOf(env, s).Touched? <==> Resident(s.frames, pg))
      && (Resident(s.frames, pg) ==> t.policy == NotifyAccess(s.policy, pg, FrameOf(s.frames, pg)))
      && (!Resident(s.frames, pg) ==> t.policy == s.policy)
  {
    hide Inv, Step, EventOf, Resident, NotifyAccess;
    RunsHead(env, s);
  }

  lemma {:induction false} ReferenceStep(env: Env, s: State, v: View, hit: bool, t: View)
    requires Inv(env, s) && Looks(s, v) && Refers(v, env.penalty, hit, t) && LineAt(ViewPos(v)) < |env.trace|
    requires hit <==> Resident(s.frames, Page(v.runnable[0].pid, env.trace[LineAt(ViewPos(v))].vpn))
    ensures Looks(Step(env, s), t) && Step(env, s).frames == s.frames
    ensures var pg := Page(v.runnable[0].pid, env.trace[LineAt(ViewPos(v))].vpn);
      Step(env, s).policy == if hit then NotifyAccess(s.policy, pg, FrameOf(s.frames, pg)) else s.policy
  {
    hide Inv, Step, EventOf, AllSit, Ticked, TickSeats, Resident, LineAt, NotifyAccess, PosAfterReading;
    SeatedTail(s.runnable, v.runnable);
    if s.blocked != [] { SeatedTail(s.blocked, v.blocked); } else { Unseated(s.blocked, v.blocked); }
    var h, a := s.runnable[0], v.runnable[0];
    assert ReadPos(s) == ViewPos(v);
    GoesOn(env, s);
    ReferenceIs(env, s);
    StepEffect(env, s);
    TickedSeats(s.blocked, v.blocked);
    if hit {
      TouchShape(env, s);
      var q := Read(env, s).(currentline := h.currentline + 1);
      SeatedJoin(s.runnable[1..], v.runnable[1..], q, a.(line := a.line + 1));
    } else {
      FaultShape(env, s);
      var pg := Some(NextPage(env, s));
      var q := Read(env, s).(waitTime := env.penalty, waitingOnPage := pg, currentPos := ReadPos(s));
      SeatedJoin(Ticked(s.blocked), TickSeats(v.blocked), q, a.(pos := ViewPos(v), wait := env.penalty));
    }
  }
}
