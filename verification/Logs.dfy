/** Following a container's log over connections that may be refused, and that may
    break anywhere. */
module Logs {

  /** A complete line, with the timestamp that was read off it, in nanoseconds. */
  datatype Line = Line(timestamp: nat, message: string)

  const SECOND: nat := 1_000_000_000

  /** What becomes of a connection attempt: it is refused, or it brings the lines
      it has to bring, up to the first `upTo` lines of the log, and ends with an
      error. */
  datatype Connection = Refused | Stream(upTo: nat)

  /** Every line has a timestamp after the zero time, and none an earlier one
      than the line before. */
  predicate Ordered(log: seq<Line>) {
    && (forall i | 0 <= i < |log| :: log[i].timestamp > 0)
    && (forall i, j | 0 <= i < j < |log| :: log[i].timestamp <= log[j].timestamp)
  }

  predicate StrictlyOrdered(log: seq<Line>) {
    && (forall i | 0 <= i < |log| :: log[i].timestamp > 0)
    && (forall i, j | 0 <= i < j < |log| :: log[i].timestamp < log[j].timestamp)
  }

  /** The time a connection asks for only has the resolution of a second. */
  function Truncated(since: nat): nat {
    since - since % SECOND
  }

  /** The first line that the server sends for a given time. */
  function FirstSince(log: seq<Line>, since: nat): (from: nat)
    ensures from <= |log|
  {
    if log == [] || log[0].timestamp >= Truncated(since) then 0 else 1 + FirstSince(log[1..], since)
  }

  lemma TruncatedExactly(since: nat, timestamp: nat)
    ensures timestamp >= Truncated(since) <==> timestamp / SECOND >= since / SECOND
  {
    assert since == since / SECOND * SECOND + since % SECOND;
    assert timestamp == timestamp / SECOND * SECOND + timestamp % SECOND;
  }

  /** It is the first one from the second on that the time is in. */
  lemma {:induction false} FirstSinceExactly(log: seq<Line>, since: nat)
    ensures forall k | 0 <= k < FirstSince(log, since) :: log[k].timestamp / SECOND < since / SECOND
    ensures FirstSince(log, since) < |log| ==> log[FirstSince(log, since)].timestamp / SECOND >= since / SECOND
  {
    if log != [] {
      TruncatedExactly(since, log[0].timestamp);
      FirstSinceExactly(log[1..], since);
    }
  }

  lemma {:induction false} FirstSinceInTime(log: seq<Line>, since: nat, k: nat)
    requires k < |log| && log[k].timestamp >= Truncated(since)
    ensures FirstSince(log, since) <= k
  {
    if log[0].timestamp < Truncated(since) {
      FirstSinceInTime(log[1..], since, k - 1);
    }
  }

  /** The most of the log that any of the connections has got to. */
  function Reach(connections: seq<Connection>): nat {
    if connections == [] then 0
    else
      var last := connections[|connections| - 1];
      var before := Reach(connections[..|connections| - 1]);
      if last.Stream? && last.upTo > before then last.upTo else before
  }

  predicate Within(connections: seq<Connection>, log: seq<Line>) {
    forall k | 0 <= k < |connections| :: connections[k].Stream? ==> connections[k].upTo <= |log|
  }

  /** The time of the last of the first `reach` lines. */
  function LastTime(log: seq<Line>, reach: nat): nat
    requires reach <= |log|
  {
    if reach == 0 then 0 else log[reach - 1].timestamp
  }

  function Max(a: nat, b: nat): nat {
    if a > b then a else b
  }

  /** The first line, from `at` on, that is later than the first `reach`. */
  function FirstLater(log: seq<Line>, reach: nat, at: nat): (next: nat)
    requires reach <= at <= |log|
    ensures at <= next <= |log|
    decreases |log| - at
  {
    if at == |log| || log[at].timestamp > LastTime(log, reach) then at else FirstLater(log, reach, at + 1)
  }

  lemma {:induction false} LaterExactly(log: seq<Line>, reach: nat, at: nat, k: nat)
    requires Ordered(log) && reach <= at <= |log| && k < |log|
    requires forall i | reach <= i < at :: log[i].timestamp <= LastTime(log, reach)
    ensures log[k].timestamp > LastTime(log, reach) <==> k >= FirstLater(log, reach, at)
    decreases |log| - at
  {
    if at < |log| && log[at].timestamp <= LastTime(log, reach) {
      LaterExactly(log, reach, at + 1, k);
    }
  }

  function Between(log: seq<Line>, from: nat, to: nat): seq<Line>
    requires to <= |log|
  {
    if from < to then log[from..to] else []
  }

  lemma OneMore(log: seq<Line>, from: nat, to: nat)
    requires to < |log|
    ensures Between(log, from, to + 1) == Between(log, from, to) + if to >= from then [log[to]] else []
  {
  }

  /** What one stream adds to what was sent on before. */
  lemma StreamAdds(log: seq<Line>, reach: nat, upTo: nat, forwarded: seq<Line>, clean: bool)
    requires Ordered(log) && reach <= |log| && upTo <= |log|
    requires if clean then forwarded == log[..reach] else |forwarded| < reach
    ensures var more := forwarded + Between(log, FirstLater(log, reach, reach), upTo);
      if clean && (0 < reach < upTo ==> log[reach - 1].timestamp < log[reach].timestamp)
      then more == log[..Max(reach, upTo)] else |more| < Max(reach, upTo)
  {
    var next := FirstLater(log, reach, reach);
    if next < upTo {
      assert log[..upTo] == log[..next] + log[next..upTo];
    }
  }

  /** What one line does to the time of the last message, and whether it is sent. */
  lemma ReadNext(log: seq<Line>, reach: nat, at: nat)
    requires Ordered(log) && reach <= |log| && at < |log|
    ensures log[at].timestamp > LastTime(log, reach) <==> at >= FirstLater(log, reach, reach)
    ensures at < reach ==> log[at].timestamp <= LastTime(log, reach)
    ensures at >= reach ==> Max(LastTime(log, Max(reach, at)), log[at].timestamp) == LastTime(log, at + 1)
  {
    LaterExactly(log, reach, reach, at);
  }

  /** The server starts early enough for nothing to be left out. */
  lemma StartsInTime(log: seq<Line>, reach: nat)
    requires Ordered(log) && reach <= |log|
    ensures FirstSince(log, LastTime(log, reach)) <= reach
  {
    if reach > 0 {
      FirstSinceInTime(log, LastTime(log, reach), reach - 1);
    }
  }

  /** The read loop on one stream, until it ends: it sends on what is later than
      everything that was sent on before. */
  method ReadStream(log: seq<Line>, sinceTime: nat, last: nat, upTo: nat, ghost reach: nat)
    returns (lines: seq<Line>, lastMessageTime: nat)
    requires Ordered(log) && upTo <= |log| && reach <= |log| && sinceTime == last == LastTime(log, reach)
    ensures lines == Between(log, FirstLater(log, reach, reach), upTo)
    ensures lastMessageTime == LastTime(log, Max(reach, upTo))
  {
    lines, lastMessageTime := [], last;
    StartsInTime(log, reach);
    var at: nat := FirstSince(log, sinceTime);
    ghost var next := FirstLater(log, reach, reach);
    while at < upTo
      invariant at <= Max(reach, upTo)
      invariant lines == Between(log, next, at)
      invariant lastMessageTime == LastTime(log, Max(reach, at))
    {
      ReadNext(log, reach, at);
      OneMore(log, next, at);
      if log[at].timestamp > sinceTime {
        if log[at].timestamp > lastMessageTime {
          lastMessageTime := log[at].timestamp;
        }
        lines := lines + [log[at]];
      }
      at := at + 1;
    }
  }

  /** No stream that was followed further broke off between two lines with the
      same timestamp. */
  predicate CleanBreaks(log: seq<Line>, connections: seq<Connection>)
    requires Within(connections, log)
  {
    CleanSoFar(log, connections, |connections|)
  }

  predicate CleanSoFar(log: seq<Line>, connections: seq<Connection>, n: nat)
    requires Within(connections, log) && n <= |connections|
  {
    forall k | 0 <= k < n :: CleanBreakBefore(log, connections, k)
  }

  predicate CleanBreakBefore(log: seq<Line>, connections: seq<Connection>, n: nat)
    requires Within(connections, log) && n < |connections|
  {
    var reach := Reach(connections[..n]);
    connections[n].Stream? && 0 < reach < connections[n].upTo ==> log[reach - 1].timestamp < log[reach].timestamp
  }

  lemma ReachStep(connections: seq<Connection>, n: nat)
    requires n < |connections|
    ensures Reach(connections[..n + 1]) ==
      if connections[n].Stream? then Max(Reach(connections[..n]), connections[n].upTo) else Reach(connections[..n])
  {
    assert connections[..n + 1][..n] == connections[..n];
  }

  /* ----- What is missing after other breaks ----- */

  /** Connection `n` is the first to get to line `k`, which has the same timestamp as
      the last line that any had got to before. */
  predicate SkippedBy(log: seq<Line>, connections: seq<Connection>, n: nat, k: nat)
    requires Within(connections, log) && n < |connections| && k < |log|
  {
    var reach := Reach(connections[..n]);
    connections[n].Stream? && 0 < reach <= k < connections[n].upTo && log[k].timestamp == log[reach - 1].timestamp
  }

  predicate Skipped(log: seq<Line>, connections: seq<Connection>, n: nat, k: nat)
    requires Within(connections, log) && n <= |connections| && k < |log|
  {
    exists m | 0 <= m < n :: SkippedBy(log, connections, m, k)
  }

  /** The first `reach` lines without those that the first `n` connections skip. */
  function Unskipped(log: seq<Line>, connections: seq<Connection>, n: nat, reach: nat): seq<Line>
    requires Within(connections, log) && n <= |connections| && reach <= |log|
  {
    if reach == 0 then []
    else
      Unskipped(log, connections, n, reach - 1) +
      if Skipped(log, connections, n, reach - 1) then [] else [log[reach - 1]]
  }

  lemma {:induction false} ReachBounds(connections: seq<Connection>, m: nat, n: nat)
    requires m < n <= |connections|
    ensures connections[m].Stream? ==> connections[m].upTo <= Reach(connections[..n])
  {
    ReachStep(connections, n - 1);
    if m < n - 1 {
      ReachBounds(connections, m, n - 1);
    }
  }

  /** A connection skips no line that was got to before. */
  lemma {:induction false} UnskippedBefore(log: seq<Line>, connections: seq<Connection>, n: nat, reach: nat)
    requires Within(connections, log) && n < |connections| && reach <= |log| && reach <= Reach(connections[..n])
    ensures Unskipped(log, connections, n + 1, reach) == Unskipped(log, connections, n, reach)
  {
    if reach > 0 {
      UnskippedBefore(log, connections, n, reach - 1);
      assert !SkippedBy(log, connections, n, reach - 1);
    }
  }

  /** Of the lines after that it skips those which are not later. */
  lemma {:induction false} SkipsExactly(log: seq<Line>, connections: seq<Connection>, n: nat, k: nat)
    requires Ordered(log) && Within(connections, log) && n < |connections| && connections[n].Stream?
    requires Reach(connections[..n]) <= k < connections[n].upTo
    ensures Reach(connections[..n]) <= |log| && k < |log|
    ensures Skipped(log, connections, n + 1, k) <==>
      k < FirstLater(log, Reach(connections[..n]), Reach(connections[..n]))
  {
    var reach := Reach(connections[..n]);
    LaterExactly(log, reach, reach, k);
    forall m | 0 <= m < n ensures !SkippedBy(log, connections, m, k) {
      ReachBounds(connections, m, n);
    }
    assert Skipped(log, connections, n + 1, k) <==> SkippedBy(log, connections, n, k);
    assert reach > 0 ==> log[reach - 1].timestamp <= log[k].timestamp;
  }

  lemma OneMoreAfter(log: seq<Line>, before: seq<Line>, next: nat, at: nat)
    requires at < |log|
    ensures before + Between(log, next, at + 1) ==
      (before + Between(log, next, at)) + if at < next then [] else [log[at]]
  {
    OneMore(log, next, at);
  }

  lemma UnskippedOneMore(log: seq<Line>, connections: seq<Connection>, n: nat, k: nat)
    requires Within(connections, log) && n <= |connections| && k < |log|
    ensures Unskipped(log, connections, n, k + 1) ==
      Unskipped(log, connections, n, k) + if Skipped(log, connections, n, k) then [] else [log[k]]
  {
  }

  /** One more line, when the lines from `next` on are not skipped. */
  lemma UnskippedNext(log: seq<Line>, connections: seq<Connection>, n: nat, k: nat, before: seq<Line>, next: nat)
    requires Within(connections, log) && n <= |connections| && k < |log|
    requires Skipped(log, connections, n, k) <==> k < next
    requires Unskipped(log, connections, n, k) == before + Between(log, next, k)
    ensures Unskipped(log, connections, n, k + 1) == before + Between(log, next, k + 1)
  {
    UnskippedOneMore(log, connections, n, k);
    OneMoreAfter(log, before, next, k);
  }

  lemma {:induction false} UnskippedAfter(log: seq<Line>, connections: seq<Connection>, n: nat, reach: nat, next: nat,
                                          to: nat)
    requires Ordered(log) && Within(connections, log) && n < |connections| && connections[n].Stream?
    requires reach == Reach(connections[..n]) <= to <= connections[n].upTo
    requires next == FirstLater(log, reach, reach)
    ensures Unskipped(log, connections, n + 1, to) == Unskipped(log, connections, n, reach) + Between(log, next, to)
  {
    if to == reach {
      UnskippedBefore(log, connections, n, reach);
      assert Between(log, next, to) == [];
    } else {
      UnskippedAfter(log, connections, n, reach, next, to - 1);
      SkipsExactly(log, connections, n, to - 1);
      UnskippedNext(log, connections, n + 1, to - 1, Unskipped(log, connections, n, reach), next);
    }
  }

  lemma {:induction false} UnskippedStep(log: seq<Line>, connections: seq<Connection>, n: nat)
    requires Ordered(log) && Within(connections, log) && n < |connections| && connections[n].Stream?
    requires Reach(connections[..n]) <= |log|
    ensures var reach, upTo := Reach(connections[..n]), connections[n].upTo;
      Unskipped(log, connections, n + 1, Max(reach, upTo)) ==
      Unskipped(log, connections, n, reach) + Between(log, FirstLater(log, reach, reach), upTo)
  {
    var reach := Reach(connections[..n]);
    if connections[n].upTo >= reach {
      UnskippedAfter(log, connections, n, reach, FirstLater(log, reach, reach), connections[n].upTo);
    } else {
      UnskippedBefore(log, connections, n, reach);
    }
  }

  lemma {:induction false} RefusedSkipsNone(log: seq<Line>, connections: seq<Connection>, n: nat, reach: nat)
    requires Within(connections, log) && n < |connections| && connections[n].Refused? && reach <= |log|
    ensures Unskipped(log, connections, n + 1, reach) == Unskipped(log, connections, n, reach)
  {
    if reach > 0 {
      RefusedSkipsNone(log, connections, n, reach - 1);
    }
  }

  /* ----- Following the log ----- */

  /** What the first `n` connections have brought. */
  predicate ForwardedOk(log: seq<Line>, connections: seq<Connection>, n: nat, forwarded: seq<Line>)
    requires Within(connections, log) && n <= |connections|
  {
    var reach := Reach(connections[..n]);
    && reach <= |log|
    && (if CleanSoFar(log, connections, n) then forwarded == log[..reach] else |forwarded| < reach)
    && forwarded == Unskipped(log, connections, n, reach)
  }

  lemma OneMoreClean(log: seq<Line>, connections: seq<Connection>, n: nat)
    requires Within(connections, log) && n < |connections|
    ensures CleanSoFar(log, connections, n + 1) <==>
      CleanSoFar(log, connections, n) && CleanBreakBefore(log, connections, n)
  {
  }

  lemma StreamForwards(log: seq<Line>, connections: seq<Connection>, n: nat, forwarded: seq<Line>, lines: seq<Line>)
    requires Ordered(log) && Within(connections, log) && n < |connections| && connections[n].Stream?
    requires ForwardedOk(log, connections, n, forwarded)
    requires var reach := Reach(connections[..n]);
      lines == Between(log, FirstLater(log, reach, reach), connections[n].upTo)
    ensures ForwardedOk(log, connections, n + 1, forwarded + lines)
  {
    ReachStep(connections, n);
    OneMoreClean(log, connections, n);
    StreamAdds(log, Reach(connections[..n]), connections[n].upTo, forwarded, CleanSoFar(log, connections, n));
    UnskippedStep(log, connections, n);
  }

  lemma RefusedForwards(log: seq<Line>, connections: seq<Connection>, n: nat, forwarded: seq<Line>)
    requires Within(connections, log) && n < |connections| && connections[n].Refused?
    requires ForwardedOk(log, connections, n, forwarded)
    ensures ForwardedOk(log, connections, n + 1, forwarded)
  {
    ReachStep(connections, n);
    OneMoreClean(log, connections, n);
    RefusedSkipsNone(log, connections, n, Reach(connections[..n]));
  }

  /** The loop of forwardLogs over a list of connection attempts. The lines that
      are sent on are the log itself, as far as any connection has got, in order,
      without a gap and without a repetition, exactly if the breaks were clean;
      if not, lines are missing for good: those that a connection is the first to
      get to, and that have the timestamp of the last line before. */
  method ForwardLogs(log: seq<Line>, connections: seq<Connection>) returns (forwarded: seq<Line>)
    requires Ordered(log) && Within(connections, log)
    ensures Reach(connections) <= |log| && |forwarded| <= Reach(connections)
    ensures forwarded == log[..Reach(connections)] <==> CleanBreaks(log, connections)
    ensures forwarded == Unskipped(log, connections, |connections|, Reach(connections))
  {
    forwarded := [];
    var lastMessageTime: nat, sinceTime: nat := 0, 0;
    for n := 0 to |connections|
      invariant ForwardedOk(log, connections, n, forwarded)
      invariant lastMessageTime == LastTime(log, Reach(connections[..n]))
      invariant lastMessageTime == 0 ==> sinceTime == 0
    {
      ReachStep(connections, n);
      if lastMessageTime != 0 {
        sinceTime := lastMessageTime;
      }
      if connections[n].Stream? {
        var upTo := connections[n].upTo;
        var lines;
        lines, lastMessageTime := ReadStream(log, sinceTime, lastMessageTime, upTo, Reach(connections[..n]));
        StreamForwards(log, connections, n, forwarded, lines);
        forwarded := forwarded + lines;
      } else {
        RefusedForwards(log, connections, n, forwarded);
      }
    }
    assert connections[..|connections|] == connections;
  }

  lemma StrictlyOrderedIsClean(log: seq<Line>, connections: seq<Connection>)
    requires StrictlyOrdered(log) && Within(connections, log)
    ensures CleanBreaks(log, connections)
  {
    forall n | 0 <= n < |connections| ensures CleanBreakBefore(log, connections, n) {
    }
  }

  /** A stream that breaks off between two lines with one timestamp. */
  lemma BreakBetween(log: seq<Line>, i: nat)
    requires i + 1 < |log| && log[i].timestamp == log[i + 1].timestamp
    ensures Within([Stream(i + 1), Stream(i + 2)], log) && !CleanBreaks(log, [Stream(i + 1), Stream(i + 2)])
  {
    var connections := [Stream(i + 1), Stream(i + 2)];
    ReachStep(connections, 0);
    assert connections[..0] == [];
    assert !CleanBreakBefore(log, connections, 1);
  }

  /** No break whatever can do harm to a log, exactly if its timestamps strictly
      increase. */
  lemma CleanExactly(log: seq<Line>)
    requires Ordered(log)
    ensures (forall connections | Within(connections, log) :: CleanBreaks(log, connections)) <==> StrictlyOrdered(log)
  {
    if StrictlyOrdered(log) {
      forall connections | Within(connections, log) ensures CleanBreaks(log, connections) {
        StrictlyOrderedIsClean(log, connections);
      }
    } else {
      var i, j :| 0 <= i < j < |log| && log[i].timestamp >= log[j].timestamp;
      assert log[i].timestamp <= log[i + 1].timestamp <= log[j].timestamp;
      BreakBetween(log, i);
    }
  }
}
