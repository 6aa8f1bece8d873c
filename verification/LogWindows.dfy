/** Printing the logs of several containers in windows, each in the order of its
    timestamps. */
module LogWindows {
  import opened Wrappers

  /** A line as it arrives: what was read, the time it was received, and the error
      it came with, if any. `parts` is the timestamp and the text it splits into,
      if it does. */
  datatype RawLine = RawLine(container: string, message: string, parts: Option<(int, string)>, receivedAt: int,
                             failed: bool)

  datatype Parsed = Parsed(container: string, message: string, loggedAt: int)

  /** A line without a timestamp is sorted by the time it was received. */
  function Parse(raw: RawLine): Parsed {
    match raw.parts
    case Some(parts) => Parsed(raw.container, parts.1, parts.0)
    case None => Parsed(raw.container, raw.message, raw.receivedAt)
  }

  /* ----- What is printed, in terms of the raw lines ----- */

  /** The time that a line is sorted by. */
  function StampOf(raw: RawLine): int {
    if raw.parts.Some? then raw.parts.value.0 else raw.receivedAt
  }

  /** An error record without text has nothing to print. */
  predicate HasText(raw: RawLine) {
    raw.message != "" || !raw.failed
  }

  /** The text and the time are those that were split off the line, or else the
      whole message and the time it was received. */
  predicate Records(raw: RawLine, printed: Parsed) {
    && printed.container == raw.container
    && (raw.parts.Some? ==> printed.message == raw.parts.value.1 && printed.loggedAt == raw.parts.value.0)
    && (raw.parts.None? ==> printed.message == raw.message && printed.loggedAt == raw.receivedAt)
  }

  /** By time, and in order of arrival for equal times. */
  predicate PrintedBefore(window: seq<RawLine>, i: nat, j: nat)
    requires i < |window| && j < |window|
  {
    StampOf(window[i]) < StampOf(window[j]) || (StampOf(window[i]) == StampOf(window[j]) && i < j)
  }

  /** The k-th record printed is line `from[k]` of the window. */
  ghost predicate PrintsFrom(window: seq<RawLine>, printed: seq<Parsed>, from: seq<nat>) {
    && |from| == |printed|
    && (forall k | 0 <= k < |from| :: from[k] < |window| && HasText(window[from[k]])
         && Records(window[from[k]], printed[k]))
    && (forall i {:trigger i in from} | 0 <= i < |window| && HasText(window[i]) :: i in from)
    && (forall k, l | 0 <= k < l < |from| :: PrintedBefore(window, from[k], from[l]))
  }

  /** Every line with text is printed once, in order of time and of arrival. */
  ghost predicate Prints(window: seq<RawLine>, printed: seq<Parsed>) {
    exists from :: PrintsFrom(window, printed, from)
  }

  /** What the select of the loop comes up with. When the context is done, what is
      still in the channel is read without waiting. */
  datatype Event = Arrive(line: RawLine) | Closed | Timer | Done(rest: seq<RawLine>)

  /** Error records that carry no text are not printed. */
  function ParseAll(window: seq<RawLine>): seq<Parsed> {
    if window == [] then []
    else
      var last := window[|window| - 1];
      ParseAll(window[..|window| - 1]) +
      (if last.failed && last.message == "" then [] else [Parse(last)])
  }

  lemma {:induction false} ParseAllConcat(a: seq<RawLine>, b: seq<RawLine>)
    ensures ParseAll(a + b) == ParseAll(a) + ParseAll(b)
  {
    if b == [] {
      assert a + b == a;
    } else {
      assert (a + b)[..|a + b| - 1] == a + b[..|b| - 1];
      ParseAllConcat(a, b[..|b| - 1]);
    }
  }

  /* ----- Stable sorting ----- */

  predicate Sorted(s: seq<Parsed>) {
    forall i, j | 0 <= i < j < |s| :: s[i].loggedAt <= s[j].loggedAt
  }

  /** The lines of one time, in their order. */
  function AtTime(s: seq<Parsed>, t: int): seq<Parsed> {
    if s == [] then [] else (if s[0].loggedAt == t then [s[0]] else []) + AtTime(s[1..], t)
  }

  /** The lines of one container, in their order. */
  function Of(s: seq<Parsed>, c: string): seq<Parsed> {
    if s == [] then [] else (if s[0].container == c then [s[0]] else []) + Of(s[1..], c)
  }

  /** Sorted, with the lines of each time as they were. */
  ghost predicate StablySorted(s: seq<Parsed>, sorted: seq<Parsed>) {
    Sorted(sorted) && forall t :: AtTime(sorted, t) == AtTime(s, t)
  }

  lemma {:induction false} AtTimeConcat(a: seq<Parsed>, b: seq<Parsed>, t: int)
    ensures AtTime(a + b, t) == AtTime(a, t) + AtTime(b, t)
  {
    if a == [] {
      assert a + b == b;
    } else {
      assert (a + b)[0] == a[0] && (a + b)[1..] == a[1..] + b;
      AtTimeConcat(a[1..], b, t);
      var head := if a[0].loggedAt == t then [a[0]] else [];
      assert AtTime(a + b, t) == head + (AtTime(a[1..], t) + AtTime(b, t));
    }
  }

  lemma {:induction false} OfConcat(a: seq<Parsed>, b: seq<Parsed>, c: string)
    ensures Of(a + b, c) == Of(a, c) + Of(b, c)
  {
    if a == [] {
      assert a + b == b;
    } else {
      assert (a + b)[0] == a[0] && (a + b)[1..] == a[1..] + b;
      OfConcat(a[1..], b, c);
      var head := if a[0].container == c then [a[0]] else [];
      assert Of(a + b, c) == head + (Of(a[1..], c) + Of(b, c));
    }
  }

  lemma {:induction false} NoneAtTime(s: seq<Parsed>, t: int)
    requires forall i | 0 <= i < |s| :: s[i].loggedAt != t
    ensures AtTime(s, t) == []
  {
    if s != [] {
      NoneAtTime(s[1..], t);
    }
  }

  lemma InsertedAtTime(a: seq<Parsed>, b: seq<Parsed>, x: Parsed, t: int)
    requires forall i | 0 <= i < |b| :: b[i].loggedAt > x.loggedAt
    ensures AtTime(a + [x] + b, t) == AtTime(a + b + [x], t)
  {
    AtTimeConcat(a + [x], b, t);
    AtTimeConcat(a, [x], t);
    AtTimeConcat(a + b, [x], t);
    AtTimeConcat(a, b, t);
    if t == x.loggedAt {
      NoneAtTime(b, t);
    }
  }

  lemma SortedParts(a: seq<Parsed>, b: seq<Parsed>)
    requires Sorted(a + b)
    ensures Sorted(a) && Sorted(b)
  {
    assert forall i | 0 <= i < |a| :: (a + b)[i] == a[i];
    assert forall i | 0 <= i < |b| :: (a + b)[|a| + i] == b[i];
  }

  lemma InsertedSorted(a: seq<Parsed>, b: seq<Parsed>, x: Parsed)
    requires Sorted(a) && Sorted(b)
    requires a != [] ==> a[|a| - 1].loggedAt <= x.loggedAt
    requires b != [] ==> x.loggedAt <= b[0].loggedAt
    ensures Sorted(a + [x] + b)
  {
    var s := a + [x] + b;
    forall i, j | 0 <= i < j < |s| ensures s[i].loggedAt <= s[j].loggedAt {
      assert i < |a| ==> s[i].loggedAt <= x.loggedAt;
      assert j > |a| ==> x.loggedAt <= s[j].loggedAt;
    }
  }

  /** Where a line goes: after all that are not later. */
  lemma InsertedStably(a: seq<Parsed>, b: seq<Parsed>, x: Parsed)
    requires Sorted(a + b)
    requires a != [] ==> a[|a| - 1].loggedAt <= x.loggedAt
    requires b != [] ==> x.loggedAt < b[0].loggedAt
    ensures StablySorted(a + b + [x], a + [x] + b)
  {
    SortedParts(a, b);
    InsertedSorted(a, b, x);
    forall t ensures AtTime(a + [x] + b, t) == AtTime(a + b + [x], t) {
      InsertedAtTime(a, b, x, t);
    }
  }

  lemma StablyMore(s: seq<Parsed>, sorted: seq<Parsed>, x: Parsed, more: seq<Parsed>)
    requires StablySorted(s, sorted) && StablySorted(sorted + [x], more)
    ensures StablySorted(s + [x], more)
  {
    forall t ensures AtTime(more, t) == AtTime(s + [x], t) {
      AtTimeConcat(sorted, [x], t);
      AtTimeConcat(s, [x], t);
    }
  }

  /** The place after all that are not later, found from the end. */
  method Place(sorted: seq<Parsed>, x: Parsed) returns (at: nat)
    ensures at <= |sorted|
    ensures at > 0 ==> sorted[at - 1].loggedAt <= x.loggedAt
    ensures at < |sorted| ==> x.loggedAt < sorted[at].loggedAt
  {
    at := |sorted|;
    while at > 0 && x.loggedAt < sorted[at - 1].loggedAt
      invariant at <= |sorted|
      invariant at < |sorted| ==> x.loggedAt < sorted[at].loggedAt
    {
      at := at - 1;
    }
  }

  lemma PlacedStably(sorted: seq<Parsed>, x: Parsed, at: nat)
    requires Sorted(sorted) && at <= |sorted|
    requires at > 0 ==> sorted[at - 1].loggedAt <= x.loggedAt
    requires at < |sorted| ==> x.loggedAt < sorted[at].loggedAt
    ensures StablySorted(sorted + [x], sorted[..at] + [x] + sorted[at..])
  {
    assert sorted[..at] + sorted[at..] == sorted;
    InsertedStably(sorted[..at], sorted[at..], x);
  }

  /** The sorted lines by their places in the list ... */
  ghost predicate TakenFrom(s: seq<Parsed>, n: nat, sorted: seq<Parsed>, from: seq<nat>) {
    && n <= |s| && |from| == |sorted| == n
    && (forall k | 0 <= k < n :: from[k] < n && sorted[k] == s[from[k]])
    && (forall i {:trigger i in from} | 0 <= i < n :: i in from)
  }

  /** ... by time, and by place for equal times. */
  ghost predicate InOrder(sorted: seq<Parsed>, from: seq<nat>)
    requires |from| == |sorted|
  {
    forall k, l | 0 <= k < l < |sorted| ::
      sorted[k].loggedAt < sorted[l].loggedAt || (sorted[k].loggedAt == sorted[l].loggedAt && from[k] < from[l])
  }

  ghost predicate SortedFrom(s: seq<Parsed>, n: nat, sorted: seq<Parsed>, from: seq<nat>) {
    TakenFrom(s, n, sorted, from) && InOrder(sorted, from)
  }

  lemma PlacedTaken(s: seq<Parsed>, n: nat, sorted: seq<Parsed>, from: seq<nat>, at: nat)
    requires n < |s| && TakenFrom(s, n, sorted, from) && at <= n
    ensures TakenFrom(s, n + 1, sorted[..at] + [s[n]] + sorted[at..], from[..at] + [n] + from[at..])
  {
    var from' := from[..at] + [n] + from[at..];
    forall i | 0 <= i < n + 1 ensures i in from' {
      if i == n {
        assert from'[at] == n;
      } else {
        assert i in from;
        var k :| 0 <= k < n && from[k] == i;
        assert from'[if k < at then k else k + 1] == i;
      }
    }
  }

  lemma PlacedInOrder(sorted: seq<Parsed>, from: seq<nat>, x: Parsed, n: nat, at: nat)
    requires |from| == |sorted| && InOrder(sorted, from) && at <= |sorted|
    requires forall k | 0 <= k < |from| :: from[k] < n
    requires forall k | 0 <= k < at :: sorted[k].loggedAt <= x.loggedAt
    requires forall k | at <= k < |sorted| :: x.loggedAt < sorted[k].loggedAt
    ensures InOrder(sorted[..at] + [x] + sorted[at..], from[..at] + [n] + from[at..])
  {
  }

  lemma PlacedFrom(s: seq<Parsed>, n: nat, sorted: seq<Parsed>, from: seq<nat>, at: nat)
    requires n < |s| && SortedFrom(s, n, sorted, from) && Sorted(sorted) && at <= n
    requires at > 0 ==> sorted[at - 1].loggedAt <= s[n].loggedAt
    requires at < n ==> s[n].loggedAt < sorted[at].loggedAt
    ensures SortedFrom(s, n + 1, sorted[..at] + [s[n]] + sorted[at..], from[..at] + [n] + from[at..])
  {
    PlacedTaken(s, n, sorted, from, at);
    PlacedInOrder(sorted, from, s[n], n, at);
  }

  /** The first `n` lines, sorted. */
  ghost predicate SortedSoFar(s: seq<Parsed>, n: nat, sorted: seq<Parsed>, from: seq<nat>) {
    n <= |s| && StablySorted(s[..n], sorted) && SortedFrom(s, n, sorted, from)
  }

  lemma OneMoreSorted(s: seq<Parsed>, n: nat, sorted: seq<Parsed>, from: seq<nat>, at: nat)
    requires n < |s| && SortedSoFar(s, n, sorted, from) && at <= |sorted|
    requires at > 0 ==> sorted[at - 1].loggedAt <= s[n].loggedAt
    requires at < |sorted| ==> s[n].loggedAt < sorted[at].loggedAt
    ensures |from| == |sorted|
    ensures SortedSoFar(s, n + 1, sorted[..at] + [s[n]] + sorted[at..], from[..at] + [n] + from[at..])
  {
    PlacedStably(sorted, s[n], at);
    PlacedFrom(s, n, sorted, from, at);
    StablyMore(s[..n], sorted, s[n], sorted[..at] + [s[n]] + sorted[at..]);
    assert s[..n + 1] == s[..n] + [s[n]];
  }

  method SortStable(s: seq<Parsed>) returns (sorted: seq<Parsed>, ghost from: seq<nat>)
    ensures StablySorted(s, sorted) && SortedFrom(s, |s|, sorted, from)
  {
    sorted, from := [], [];
    for n := 0 to |s|
      invariant SortedSoFar(s, n, sorted, from)
    {
      var at := Place(sorted, s[n]);
      OneMoreSorted(s, n, sorted, from, at);
      sorted, from := sorted[..at] + [s[n]] + sorted[at..], from[..at] + [n] + from[at..];
    }
    AllSorted(s, sorted, from);
  }

  lemma AllSorted(s: seq<Parsed>, sorted: seq<Parsed>, from: seq<nat>)
    requires SortedSoFar(s, |s|, sorted, from)
    ensures StablySorted(s, sorted) && SortedFrom(s, |s|, sorted, from)
  {
    assert s[..|s|] == s;
  }

  /* ----- What a stable sort does ----- */

  lemma {:induction false} AtTimeIn(s: seq<Parsed>, x: Parsed)
    ensures multiset(AtTime(s, x.loggedAt))[x] == multiset(s)[x]
  {
    if s != [] {
      assert s == [s[0]] + s[1..];
      AtTimeIn(s[1..], x);
      var head := if s[0].loggedAt == x.loggedAt then [s[0]] else [];
      assert multiset(AtTime(s, x.loggedAt)) == multiset(head) + multiset(AtTime(s[1..], x.loggedAt));
    }
  }

  /** It neither drops nor doubles anything. */
  lemma StableKeepsAll(s: seq<Parsed>, sorted: seq<Parsed>)
    requires StablySorted(s, sorted)
    ensures multiset(sorted) == multiset(s)
  {
    forall x ensures multiset(sorted)[x] == multiset(s)[x] {
      AtTimeIn(s, x);
      AtTimeIn(sorted, x);
    }
  }

  lemma FirstAtTime(s: seq<Parsed>)
    requires s != []
    ensures AtTime(s, s[0].loggedAt) != [] && AtTime(s, s[0].loggedAt)[0] == s[0]
  {
  }

  /** There is only one way to do it. */
  lemma {:induction false} SortedIsUnique(s: seq<Parsed>, r: seq<Parsed>)
    requires Sorted(s) && Sorted(r) && forall t :: AtTime(s, t) == AtTime(r, t)
    ensures s == r
    decreases |s|
  {
    if s != [] {
      FirstAtTime(s);
      FirstIn(r, s[0].loggedAt);
      FirstAtTime(r);
      FirstIn(s, r[0].loggedAt);
      forall t ensures AtTime(s[1..], t) == AtTime(r[1..], t) {
        assert AtTime(s, t) == AtTime(r, t);
        SameTail(if s[0].loggedAt == t then [s[0]] else [], AtTime(s[1..], t), AtTime(r[1..], t));
      }
      SortedIsUnique(s[1..], r[1..]);
      assert s == [s[0]] + s[1..] && r == [r[0]] + r[1..];
    } else if r != [] {
      FirstAtTime(r);
    }
  }

  lemma SameTail(a: seq<Parsed>, b: seq<Parsed>, c: seq<Parsed>)
    requires a + b == a + c
    ensures b == c
  {
    assert b == (a + b)[|a|..] && c == (a + c)[|a|..];
  }

  /** If a sorted list has lines of a time, its first line is no later. */
  lemma {:induction false} FirstIn(s: seq<Parsed>, t: int)
    requires Sorted(s) && AtTime(s, t) != []
    ensures s != [] && s[0].loggedAt <= t
    ensures s[0].loggedAt == t ==> AtTime(s, t)[0] == s[0]
  {
    if s[0].loggedAt != t {
      FirstIn(s[1..], t);
      assert s[0].loggedAt <= s[1].loggedAt;
    }
  }

  /** Selecting a container and selecting a time can be done in either order. */
  lemma {:induction false} SelectEither(s: seq<Parsed>, c: string, t: int)
    ensures AtTime(Of(s, c), t) == Of(AtTime(s, t), c)
  {
    if s != [] {
      SelectEither(s[1..], c, t);
      var head := if s[0].container == c then [s[0]] else [];
      AtTimeConcat(head, Of(s[1..], c), t);
      var now := if s[0].loggedAt == t then [s[0]] else [];
      OfConcat(now, AtTime(s[1..], t), c);
    }
  }

  lemma {:induction false} OfIsPart(s: seq<Parsed>, c: string, i: nat) returns (k: nat)
    requires i < |Of(s, c)|
    ensures k < |s| && Of(s, c)[i] == s[k]
  {
    var skip := if s[0].container == c then 1 else 0;
    if i < skip {
      return 0;
    }
    k := OfIsPart(s[1..], c, i - skip);
    k := k + 1;
  }

  lemma {:induction false} OfSorted(s: seq<Parsed>, c: string)
    requires Sorted(s)
    ensures Sorted(Of(s, c))
  {
    if s != [] {
      OfSorted(s[1..], c);
      var rest := Of(s[1..], c);
      forall i | 0 <= i < |rest| ensures s[0].loggedAt <= rest[i].loggedAt {
        var k := OfIsPart(s[1..], c, i);
      }
    }
  }

  /** A container's lines stay in their order if they were in order of time. */
  lemma StableKeepsOrder(s: seq<Parsed>, sorted: seq<Parsed>, c: string)
    requires StablySorted(s, sorted) && Sorted(Of(s, c))
    ensures Of(sorted, c) == Of(s, c)
  {
    OfSorted(sorted, c);
    forall t ensures AtTime(Of(sorted, c), t) == AtTime(Of(s, c), t) {
      SelectEither(sorted, c, t);
      SelectEither(s, c, t);
    }
    SortedIsUnique(Of(sorted, c), Of(s, c));
  }

  /* ----- The loop ----- */

  predicate Ends(e: Event) {
    e.Closed? || e.Done?
  }

  /** What has arrived, and been printed or not. */
  function Received(events: seq<Event>): seq<RawLine> {
    if events == [] then []
    else
      var last := events[|events| - 1];
      Received(events[..|events| - 1]) +
      match last
      case Arrive(line) => [line]
      case Done(rest) => rest
      case _ => []
  }

  /** What is waiting in the window: all that has arrived since it was last
      flushed. */
  function Waiting(events: seq<Event>): seq<RawLine> {
    if events == [] || !events[|events| - 1].Arrive? then []
    else Waiting(events[..|events| - 1]) + [events[|events| - 1].line]
  }

  /** The windows as they were flushed. The timer only runs for a window that has
      something in it. */
  function Windows(events: seq<Event>): seq<seq<RawLine>> {
    if events == [] then []
    else
      var before, last := events[..|events| - 1], events[|events| - 1];
      Windows(before) +
      match last
      case Arrive(_) => []
      case Timer => if Waiting(before) == [] then [] else [Waiting(before)]
      case Closed => [Waiting(before)]
      case Done(rest) => [Waiting(before) + rest]
  }

  /** Each window as it was flushed: all its lines with text, in order of time and
      of arrival. */
  ghost predicate Flushed(windows: seq<seq<RawLine>>, flushes: seq<seq<Parsed>>) {
    && |flushes| == |windows|
    && forall i {:trigger FlushedOne(windows[i], flushes[i])} | 0 <= i < |flushes| :: FlushedOne(windows[i], flushes[i])
  }

  ghost predicate FlushedOne(window: seq<RawLine>, printed: seq<Parsed>) {
    Prints(window, printed) && StablySorted(ParseAll(window), printed)
  }

  lemma FlushedMore(windows: seq<seq<RawLine>>, flushes: seq<seq<Parsed>>, window: seq<RawLine>, printed: seq<Parsed>)
    requires Flushed(windows, flushes) && FlushedOne(window, printed)
    ensures Flushed(windows + [window], flushes + [printed])
  {
  }

  method PrintLogs(events: seq<Event>) returns (flushes: seq<seq<Parsed>>, used: nat)
    ensures used <= |events| && (forall k | 0 <= k < used - 1 :: !Ends(events[k]))
    ensures used < |events| ==> used > 0 && Ends(events[used - 1])
    ensures Flushed(Windows(events[..used]), flushes)
  {
    flushes, used := [], 0;
    var window: seq<RawLine> := [];
    var flushTrigger := false;
    while used < |events|
      invariant used <= |events| && forall k | 0 <= k < used :: !Ends(events[k])
      invariant window == Waiting(events[..used])
      invariant flushTrigger <==> window != []
      invariant Flushed(Windows(events[..used]), flushes)
    {
      used := used + 1;
      assert events[..used][..used - 1] == events[..used - 1];
      match events[used - 1] {
        case Arrive(line) =>
          window := window + [line];
          flushTrigger := true;
        case Timer =>
          if flushTrigger {
            var parsed := Flush(window);
            FlushedMore(Windows(events[..used - 1]), flushes, window, parsed);
            flushes := flushes + [parsed];
            window := [];
            flushTrigger := false;
          }
        case Closed =>
          var parsed := Flush(window);
          FlushedMore(Windows(events[..used - 1]), flushes, window, parsed);
          flushes := flushes + [parsed];
          return;
        case Done(rest) =>
          window := window + rest;
          var parsed := Flush(window);
          FlushedMore(Windows(events[..used - 1]), flushes, window, parsed);
          flushes := flushes + [parsed];
          return;
      }
    }
  }

  /** The first `n` lines of the window that have text, by their places. */
  ghost predicate ParsedFrom(window: seq<RawLine>, n: nat, parsed: seq<Parsed>, from: seq<nat>)
    requires n <= |window|
  {
    && |from| == |parsed|
    && (forall k | 0 <= k < |from| :: from[k] < n && HasText(window[from[k]]) && Records(window[from[k]], parsed[k]))
    && (forall i {:trigger i in from} | 0 <= i < n && HasText(window[i]) :: i in from)
    && (forall k, l | 0 <= k < l < |from| :: from[k] < from[l])
  }

  lemma ParsedMore(window: seq<RawLine>, n: nat, parsed: seq<Parsed>, from: seq<nat>)
    requires n < |window| && ParsedFrom(window, n, parsed, from)
    ensures if HasText(window[n]) then ParsedFrom(window, n + 1, parsed + [Parse(window[n])], from + [n])
            else ParsedFrom(window, n + 1, parsed, from)
  {
    var from' := from + [n];
    forall i | 0 <= i < n + 1 && HasText(window[i]) ensures i in from' && (i < n ==> i in from) {
      if i < n {
        assert i in from;
      } else {
        assert from'[|from|] == n;
      }
    }
  }

  method Flush(window: seq<RawLine>) returns (printed: seq<Parsed>)
    ensures FlushedOne(window, printed)
  {
    var parsed := [];
    ghost var from: seq<nat> := [];
    for n := 0 to |window|
      invariant parsed == ParseAll(window[..n])
      invariant ParsedFrom(window, n, parsed, from)
    {
      assert window[..n + 1][..n] == window[..n];
      ParsedMore(window, n, parsed, from);
      var raw := window[n];
      if !(raw.failed && raw.message == "") {
        parsed := parsed + [Parse(raw)];
        from := from + [n];
      }
    }
    assert window[..|window|] == window;
    ghost var order;
    printed, order := SortStable(parsed);
    SortedPrints(window, parsed, from, printed, order);
  }

  lemma SortedPrints(window: seq<RawLine>, parsed: seq<Parsed>, from: seq<nat>, printed: seq<Parsed>, order: seq<nat>)
    requires ParsedFrom(window, |window|, parsed, from) && SortedFrom(parsed, |parsed|, printed, order)
    ensures Prints(window, printed)
  {
    var places := seq<nat>(|order|, k requires 0 <= k < |order| => from[order[k]]);
    forall i | 0 <= i < |window| && HasText(window[i]) ensures i in places {
      assert i in from;
      var j :| 0 <= j < |from| && from[j] == i;
      assert j in order;
      var k :| 0 <= k < |order| && order[k] == j;
      assert places[k] == i;
    }
    forall k | 0 <= k < |places| ensures places[k] < |window| && HasText(window[places[k]])
      ensures Records(window[places[k]], printed[k]) && StampOf(window[places[k]]) == printed[k].loggedAt
    {
      assert printed[k] == parsed[order[k]];
    }
    forall k, l | 0 <= k < l < |places| ensures PrintedBefore(window, places[k], places[l]) {
      assert order[k] < order[l] ==> from[order[k]] < from[order[l]];
    }
    assert PrintsFrom(window, printed, places);
  }

  /* ----- What is printed in all ----- */

  function Concat<T>(parts: seq<seq<T>>): seq<T> {
    if parts == [] then [] else Concat(parts[..|parts| - 1]) + parts[|parts| - 1]
  }

  /** Every line is in exactly one window, or waits for one. */
  lemma {:induction false} WindowsHaveAll(events: seq<Event>)
    ensures Concat(Windows(events)) + Waiting(events) == Received(events)
  {
    if events != [] {
      var before := events[..|events| - 1];
      WindowsHaveAll(before);
      match events[|events| - 1] {
        case Arrive(line) => assert Windows(events) == Windows(before);
        case Timer =>
          if Waiting(before) != [] {
            ConcatMore(Windows(before), Waiting(before));
          } else {
            assert Windows(events) == Windows(before);
          }
        case Closed => ConcatMore(Windows(before), Waiting(before));
        case Done(rest) => ConcatMore(Windows(before), Waiting(before) + rest);
      }
    }
  }

  lemma ConcatMore<T>(parts: seq<seq<T>>, last: seq<T>)
    ensures Concat(parts + [last]) == Concat(parts) + last
  {
    assert (parts + [last])[..|parts|] == parts;
  }

  /** Everything is printed once, and nothing else. */
  lemma {:induction false} PrintsAll(windows: seq<seq<RawLine>>, flushes: seq<seq<Parsed>>)
    requires Flushed(windows, flushes)
    ensures multiset(Concat(flushes)) == multiset(ParseAll(Concat(windows)))
  {
    if windows != [] {
      var n := |windows| - 1;
      PrintsAll(windows[..n], flushes[..n]);
      assert FlushedOne(windows[n], flushes[n]);
      StableKeepsAll(ParseAll(windows[n]), flushes[n]);
      ParseAllConcat(Concat(windows[..n]), windows[n]);
    }
  }

  /** The lines of a container come out as they came in, if their times do not
      decrease. */
  lemma {:induction false} PrintsInOrder(windows: seq<seq<RawLine>>, flushes: seq<seq<Parsed>>, c: string)
    requires Flushed(windows, flushes) && Sorted(Of(ParseAll(Concat(windows)), c))
    ensures Of(Concat(flushes), c) == Of(ParseAll(Concat(windows)), c)
  {
    if windows != [] {
      var n := |windows| - 1;
      var before, last := ParseAll(Concat(windows[..n])), ParseAll(windows[n]);
      ParseAllConcat(Concat(windows[..n]), windows[n]);
      OfConcat(before, last, c);
      SortedParts(Of(before, c), Of(last, c));
      PrintsInOrder(windows[..n], flushes[..n], c);
      assert FlushedOne(windows[n], flushes[n]);
      StableKeepsOrder(last, flushes[n], c);
      OfConcat(Concat(flushes[..n]), flushes[n], c);
    }
  }

  /** Once the loop has ended, what was received has been printed: each line once,
      and the lines of a container in the order they arrived in. */
  lemma AllIsPrinted(events: seq<Event>, flushes: seq<seq<Parsed>>, c: string)
    requires events != [] && Ends(events[|events| - 1]) && Flushed(Windows(events), flushes)
    ensures multiset(Concat(flushes)) == multiset(ParseAll(Received(events)))
    ensures Sorted(Of(ParseAll(Received(events)), c)) ==> Of(Concat(flushes), c) == Of(ParseAll(Received(events)), c)
  {
    WindowsHaveAll(events);
    assert Concat(Windows(events)) == Received(events);
    PrintsAll(Windows(events), flushes);
    if Sorted(Of(ParseAll(Received(events)), c)) {
      PrintsInOrder(Windows(events), flushes, c);
    }
  }

  /* ----- Every line that arrives ----- */

  predicate Brings(e: Event, line: RawLine) {
    e == Arrive(line) || (e.Done? && line in e.rest)
  }

  predicate Brought(events: seq<Event>, line: RawLine) {
    exists k | 0 <= k < |events| :: Brings(events[k], line)
  }

  lemma BroughtLast(events: seq<Event>, line: RawLine)
    requires events != []
    ensures var n := |events| - 1; Brought(events, line) <==> Brought(events[..n], line) || Brings(events[n], line)
  {
    var n := |events| - 1;
    if k :| 0 <= k < |events| && Brings(events[k], line) {
      assert k < n ==> events[..n][k] == events[k];
    }
    if k :| 0 <= k < n && Brings(events[..n][k], line) {
      assert events[..n][k] == events[k];
    }
  }

  lemma {:induction false} ReceivedExactly(events: seq<Event>, line: RawLine)
    ensures line in Received(events) <==> Brought(events, line)
  {
    if events != [] {
      BroughtLast(events, line);
      ReceivedExactly(events[..|events| - 1], line);
    }
  }

  lemma {:induction false} InConcat<T>(parts: seq<seq<T>>, x: T) returns (i: nat)
    requires x in Concat(parts)
    ensures i < |parts| && x in parts[i]
  {
    var n := |parts| - 1;
    if x in parts[n] {
      i := n;
    } else {
      i := InConcat(parts[..n], x);
    }
  }

  /** Whenever the timer has fired, or the loop has ended, every line with text that
      has arrived is printed, with its own text and time. */
  lemma EveryLineIsPrinted(events: seq<Event>, flushes: seq<seq<Parsed>>, line: RawLine) returns (i: nat, j: nat)
    requires events != [] && !events[|events| - 1].Arrive?
    requires Flushed(Windows(events), flushes) && HasText(line)
    requires Brought(events, line)
    ensures i < |flushes| && j < |flushes[i]| && Records(line, flushes[i][j])
  {
    ReceivedExactly(events, line);
    WindowsHaveAll(events);
    assert Concat(Windows(events)) == Received(events);
    i := InConcat(Windows(events), line);
    var window := Windows(events)[i];
    assert FlushedOne(window, flushes[i]);
    var from :| PrintsFrom(window, flushes[i], from);
    var p :| 0 <= p < |window| && window[p] == line;
    assert p in from;
    j :| 0 <= j < |from| && from[j] == p;
  }
}
