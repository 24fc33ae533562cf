/** The trace on which a two-tick penalty never gets the processes apart: for 2m frames,
    m + 1 pairs of processes, each in one block of lines.  The first of a pair has three lines
    more than all the pairs behind it together, the second has two.  All lines are of page 0
    but the last of the file, which is of page 1. */
module JamTrace {
  import opened Types
  import opened IntervalTree
  import opened ProcessModel
  import opened TraceModel
  import opened Views

  /** Lines of the last `q` pairs. */
  function Tail(q: nat): nat { if q == 0 then 0 else 2 * Tail(q - 1) + 5 }

  lemma {:induction false} TailGrows(q: nat, r: nat)
    requires q <= r
    ensures Tail(q) <= Tail(r)
  {
    if q < r { TailGrows(q, r - 1); }
  }

  // Pairs are numbered from the end of the file: pair 0 is the last, pair m the first.

  function FirstPid(m: nat, r: nat): nat
    requires r <= m
  {
    2 * (m - r) + 1
  }

  function SecondPid(m: nat, r: nat): nat
    requires r <= m
  {
    2 * (m - r) + 2
  }

  /** Lines of the whole trace. */
  function Size(m: nat): nat { Tail(m + 1) }

  /** First line (from 0) of the first process of a pair, and of the second. */
  function FirstStart(m: nat, r: nat): (a: nat)
    requires r <= m
    ensures a + Tail(r + 1) == Size(m)
  {
    TailGrows(r + 1, m + 1);
    Size(m) - Tail(r + 1)
  }

  function SecondStart(m: nat, r: nat): (b: nat)
    requires r <= m
    ensures b == FirstStart(m, r) + Tail(r) + 3 && b + 2 + Tail(r) == Size(m)
  {
    FirstStart(m, r) + Tail(r) + 3
  }

  /** The pid of line `i`, looking at the last `q` pairs only. */
  function PidFrom(m: nat, q: nat, i: nat): nat
    requires q <= m + 1
  {
    if q == 0 then 0
    else if i < SecondStart(m, q - 1) then FirstPid(m, q - 1)
    else if i < SecondStart(m, q - 1) + 2 then SecondPid(m, q - 1)
    else PidFrom(m, q - 1, i)
  }

  function Jammed(m: nat): (t: seq<Line>)
    ensures |t| == Size(m) > 0
  {
    seq(Size(m), i requires 0 <= i => Line(PidFrom(m, m + 1, i), if i == Size(m) - 1 then 1 else 0))
  }

  lemma {:induction false} PidBehind(m: nat, q: nat, r: nat, i: nat)
    requires r < q <= m + 1 && i >= FirstStart(m, r)
    ensures PidFrom(m, q, i) == PidFrom(m, r + 1, i)
  {
    if r + 1 < q {
      TailGrows(r + 1, q - 1);
      PidBehind(m, q - 1, r, i);
    }
  }

  /** The blocks of a pair. */
  lemma {:induction false} PairLines(m: nat, r: nat, i: nat)
    requires r <= m && FirstStart(m, r) <= i < SecondStart(m, r) + 2
    ensures i < Size(m)
    ensures Jammed(m)[i].pid == if i < SecondStart(m, r) then FirstPid(m, r) else SecondPid(m, r)
    ensures Jammed(m)[i].vpn == if i == Size(m) - 1 then 1 else 0
  {
    PidBehind(m, m + 1, r, i);
  }

  // ---- the first pass -------------------------------------------------------

  lemma {:induction false} RunStartIs(trace: seq<Line>, s: nat, i: nat)
    requires s <= i < |trace| && (forall j :: s <= j <= i ==> trace[j].pid == trace[i].pid)
    requires s > 0 ==> trace[s - 1].pid != trace[i].pid
    ensures RunStart(trace, i) == s
  {
  }

  /** A block of a pid not seen before makes a new process. */
  lemma {:induction false} BlockParsed(trace: seq<Line>, s: nat, e: nat, pid: nat)
    requires s < e <= |trace| && (forall i :: s <= i < e ==> trace[i].pid == pid)
    requires s > 0 ==> trace[s - 1].pid != pid
    requires forall p :: p in Parse(trace, s) ==> p.pid < pid
    ensures Parse(trace, e) == Parse(trace, s) + [InitProc(pid, Interval(s + 1, e, NotedPos(s)))]
  {
    RunStartIs(trace, s, e - 1);
    assert RunBefore(trace, e) == Interval(s + 1, e, NotedPos(s));
    var n := IndexOfPid(Parse(trace, s), pid);
    assert forall i :: 0 <= i < |Parse(trace, s)| ==> Parse(trace, s)[i].pid < pid;
  }

  function FirstOf(m: nat, r: nat): Proc
    requires r <= m
  {
    InitProc(FirstPid(m, r), Interval(FirstStart(m, r) + 1, SecondStart(m, r), NotedPos(FirstStart(m, r))))
  }

  function SecondOf(m: nat, r: nat): Proc
    requires r <= m
  {
    InitProc(SecondPid(m, r), Interval(SecondStart(m, r) + 1, SecondStart(m, r) + 2, NotedPos(SecondStart(m, r))))
  }

  /** The processes of the last `q` pairs. */
  function LastPairs(m: nat, q: nat): seq<Proc>
    requires q <= m + 1
  {
    if q == 0 then [] else [FirstOf(m, q - 1), SecondOf(m, q - 1)] + LastPairs(m, q - 1)
  }

  lemma {:induction false} PairParsed(m: nat, r: nat)
    requires r <= m && forall p :: p in Parse(Jammed(m), FirstStart(m, r)) ==> p.pid < FirstPid(m, r)
    requires FirstStart(m, r) > 0 ==> Jammed(m)[FirstStart(m, r) - 1].pid < FirstPid(m, r)
    ensures Parse(Jammed(m), SecondStart(m, r) + 2) ==
      Parse(Jammed(m), FirstStart(m, r)) + [FirstOf(m, r), SecondOf(m, r)]
    ensures Jammed(m)[SecondStart(m, r) + 1].pid == SecondPid(m, r)
  {
    hide Jammed, Parse;
    var a, b := FirstStart(m, r), SecondStart(m, r);
    forall i | a <= i < b + 2 ensures Jammed(m)[i].pid == if i < b then FirstPid(m, r) else SecondPid(m, r) {
      PairLines(m, r, i);
    }
    BlockParsed(Jammed(m), a, b, FirstPid(m, r));
    BlockParsed(Jammed(m), b, b + 2, SecondPid(m, r));
  }

  lemma {:induction false} OnePairMore(done: seq<Proc>, a: Proc, b: Proc, rest: seq<Proc>)
    ensures done + [a, b] + rest == done + ([a, b] + rest)
    ensures forall p :: p in done + [a, b] ==> p in done || p == a || p == b
  {
  }

  /** What is parsed before the last `q` pairs, with those pairs, is all of them. */
  lemma {:induction false} JammedParse(m: nat, q: nat)
    requires q <= m + 1
    ensures Tail(q) <= Size(m) && Parse(Jammed(m), Size(m) - Tail(q)) + LastPairs(m, q) == LastPairs(m, m + 1)
    ensures forall p :: p in Parse(Jammed(m), Size(m) - Tail(q)) ==> p.pid <= 2 * (m + 1 - q)
    ensures Size(m) > Tail(q) ==> Jammed(m)[Size(m) - Tail(q) - 1].pid <= 2 * (m + 1 - q)
    decreases m + 1 - q
  {
    hide Jammed, Parse, FirstOf, SecondOf, FirstStart, SecondStart, Tail;
    TailGrows(q, m + 1);
    if q == m + 1 {
      NothingParsed(m);
    } else {
      JammedParse(m, q + 1);
      assert FirstStart(m, q) == Size(m) - Tail(q + 1);
      PairParsed(m, q);
      assert SecondStart(m, q) + 2 == Size(m) - Tail(q);
      OnePairMore(Parse(Jammed(m), FirstStart(m, q)), FirstOf(m, q), SecondOf(m, q), LastPairs(m, q));
      PidsOf(m, q);
    }
  }

  lemma {:induction false} NothingParsed(m: nat)
    ensures Size(m) == Tail(m + 1) && Parse(Jammed(m), 0) == []
    ensures [] + LastPairs(m, m + 1) == LastPairs(m, m + 1)
  {
  }

  lemma {:induction false} PidsOf(m: nat, r: nat)
    requires r <= m
    ensures FirstOf(m, r).pid == FirstPid(m, r) && SecondOf(m, r).pid == SecondPid(m, r)
  {
  }

  // ---- seats ----------------------------------------------------------------

  function FirstSeat(m: nat, r: nat): Seat
    requires r <= m
  {
    Seat(FirstPid(m, r), FirstStart(m, r) + 1, SecondStart(m, r), 2 * FirstStart(m, r), 0)
  }

  function SecondSeat(m: nat, r: nat): Seat
    requires r <= m
  {
    Seat(SecondPid(m, r), SecondStart(m, r) + 1, SecondStart(m, r) + 2, 2 * SecondStart(m, r), 0)
  }

  /** The last `q` pairs, none of them started. */
  function Unstarted(m: nat, q: nat): seq<Seat>
    requires q <= m + 1
  {
    if q == 0 then [] else [FirstSeat(m, q - 1), SecondSeat(m, q - 1)] + Unstarted(m, q - 1)
  }

  lemma {:induction false} UnstartedSit(m: nat, q: nat)
    requires q <= m + 1
    ensures AllSit(LastPairs(m, q), Unstarted(m, q))
  {
    if q > 0 { UnstartedSit(m, q - 1); }
  }

  /** The position everybody ends up at: just before the last line. */
  function End(m: nat): (e: nat)
    requires Size(m) > 0
  {
    2 * (Size(m) - 1) + 1
  }

  lemma {:induction false} UnstartedBounds(m: nat, q: nat, i: nat)
    requires q <= m + 1 && i < |Unstarted(m, q)|
    ensures Tail(q) <= Size(m) && 2 * (Size(m) - Tail(q)) <= Unstarted(m, q)[i].pos < End(m)
  {
    TailGrows(q, m + 1);
    if i >= 2 { UnstartedBounds(m, q - 1, i - 2); }
  }
}
