/** A loop that reads what informers hold and then blocks until it is notified
    of a change: a pod waiter, woken by its channel or a timer, and WatchStatus,
    woken through a goroutine that merges the channels of two watchers. */
module Notifications {

  datatype Phase = Reading(next: nat) | Blocked

  /** For each source: how often what it holds has changed, how many of these
      changes have been notified, and whether a notification is in its channel.
      `carried` is one that the goroutine has taken and not passed on; `begun` is
      what had been notified when the last read began, `seen` what it found. */
  datatype State = State(
    staged: bool,
    changes: seq<nat>,
    notified: seq<nat>,
    tokens: seq<bool>,
    carried: bool,
    merged: bool,
    begun: seq<nat>,
    seen: seq<nat>,
    phase: Phase)

  datatype Action =
    | Change(i: nat)
    | Notify(i: nat)
    | Carry(i: nat)
    | PassOn
    | Look
    | Block
    | Wake
    | Tick

  predicate Enabled(s: State, a: Action) {
    match a
    case Change(i) => i < |s.changes|
    // the informer's store is updated before its handlers run
    case Notify(i) => i < |s.changes| && i < |s.notified| && i < |s.tokens| && s.notified[i] < s.changes[i]
    case Carry(i) => s.staged && !s.carried && i < |s.tokens| && s.tokens[i]
    case PassOn => s.carried
    case Look => s.phase.Reading? && s.phase.next < |s.changes| && s.phase.next < |s.seen|
    case Block => s.phase.Reading? && s.phase.next >= |s.changes|
    case Wake => s.phase.Blocked? && if s.staged then s.merged else |s.tokens| > 0 && s.tokens[0]
    case Tick => s.phase.Blocked? && !s.staged
  }

  function Exec(s: State, a: Action): State
    requires Enabled(s, a)
  {
    match a
    case Change(i) => s.(changes := s.changes[i := s.changes[i] + 1])
    case Notify(i) => s.(notified := s.notified[i := s.notified[i] + 1], tokens := s.tokens[i := true])
    case Carry(i) => s.(tokens := s.tokens[i := false], carried := true)
    case PassOn => s.(carried := false, merged := true)
    case Look => s.(seen := s.seen[s.phase.next := s.changes[s.phase.next]], phase := Reading(s.phase.next + 1))
    case Block => s.(phase := Blocked)
    case Wake =>
      var s' := if s.staged then s.(merged := false) else s.(tokens := s.tokens[0 := false]);
      s'.(begun := s.notified, phase := Reading(0))
    case Tick => s.(begun := s.notified, phase := Reading(0))
  }

  /** Everything is set up before the first read. */
  predicate Initial(s: State) {
    && (s.staged || |s.changes| == 1)
    && |s.notified| == |s.tokens| == |s.begun| == |s.seen| == |s.changes|
    && s.begun == s.notified && s.phase == Reading(0)
    && forall i | 0 <= i < |s.changes| :: s.notified[i] <= s.changes[i]
  }

  /** A notification from source `i` has not reached the loop yet. */
  predicate Pending(s: State, i: nat) {
    (i < |s.tokens| && s.tokens[i]) || (s.staged && (s.carried || s.merged))
  }

  predicate Shaped(s: State) {
    && (s.staged || |s.changes| == 1)
    && |s.notified| == |s.tokens| == |s.begun| == |s.seen| == |s.changes|
  }

  /** What is known of one source. */
  predicate SourceOk(s: State, i: nat)
    requires Shaped(s) && i < |s.changes|
  {
    && s.begun[i] <= s.notified[i] <= s.changes[i]
    && (s.begun[i] < s.notified[i] ==> Pending(s, i))
    && (s.phase.Blocked? || i < s.phase.next ==> s.begun[i] <= s.seen[i] <= s.changes[i])
  }

  predicate Inv(s: State) {
    Shaped(s) && forall i | 0 <= i < |s.changes| :: SourceOk(s, i)
  }

  /** The informers and the goroutine. */
  lemma NotifyingKeepsSource(s: State, a: Action, i: nat)
    requires Shaped(s) && Enabled(s, a) && (a.Change? || a.Notify?) && i < |s.changes| && SourceOk(s, i)
    ensures Shaped(Exec(s, a)) && SourceOk(Exec(s, a), i)
  {
  }

  lemma CarryingKeepsSource(s: State, a: Action, i: nat)
    requires Shaped(s) && Enabled(s, a) && (a.Carry? || a.PassOn?) && i < |s.changes| && SourceOk(s, i)
    ensures Shaped(Exec(s, a)) && SourceOk(Exec(s, a), i)
  {
  }

  /** The loop. */
  lemma ReadingKeepsSource(s: State, a: Action, i: nat)
    requires Shaped(s) && Enabled(s, a) && (a.Look? || a.Block?) && i < |s.changes| && SourceOk(s, i)
    ensures Shaped(Exec(s, a)) && SourceOk(Exec(s, a), i)
  {
  }

  lemma WakingKeepsSource(s: State, a: Action, i: nat)
    requires Shaped(s) && Enabled(s, a) && (a.Wake? || a.Tick?) && i < |s.changes| && SourceOk(s, i)
    ensures Shaped(Exec(s, a)) && SourceOk(Exec(s, a), i)
  {
  }

  lemma StepKeepsShape(s: State, a: Action)
    requires Shaped(s) && Enabled(s, a)
    ensures Shaped(Exec(s, a)) && |Exec(s, a).changes| == |s.changes|
  {
  }

  lemma StepKeepsInv(s: State, a: Action)
    requires Inv(s) && Enabled(s, a)
    ensures Inv(Exec(s, a))
  {
    StepKeepsShape(s, a);
    forall i | 0 <= i < |s.changes| ensures SourceOk(Exec(s, a), i) {
      match a {
        case Change(_) => NotifyingKeepsSource(s, a, i);
        case Notify(_) => NotifyingKeepsSource(s, a, i);
        case Carry(_) => CarryingKeepsSource(s, a, i);
        case PassOn => CarryingKeepsSource(s, a, i);
        case Look => ReadingKeepsSource(s, a, i);
        case Block => ReadingKeepsSource(s, a, i);
        case Wake => WakingKeepsSource(s, a, i);
        case Tick => WakingKeepsSource(s, a, i);
      }
    }
  }

  /** The states that a list of actions leads through. */
  ghost predicate IsRun(states: seq<State>, acts: seq<Action>) {
    && |states| == |acts| + 1 && Initial(states[0])
    && forall i {:trigger acts[i]} | 0 <= i < |acts| ::
         Enabled(states[i], acts[i]) && states[i + 1] == Exec(states[i], acts[i])
  }

  ghost predicate Reachable(s: State) {
    exists states, acts :: IsRun(states, acts) && s == states[|acts|]
  }

  lemma {:induction false} RunKeepsInv(states: seq<State>, acts: seq<Action>, k: nat)
    requires IsRun(states, acts) && k <= |acts|
    ensures Inv(states[k])
  {
    if k > 0 {
      RunKeepsInv(states, acts, k - 1);
      var a := acts[k - 1];
      StepKeepsInv(states[k - 1], a);
    }
  }

  lemma ReachableOk(s: State)
    requires Reachable(s)
    ensures Inv(s)
  {
    var states, acts :| IsRun(states, acts) && s == states[|acts|];
    RunKeepsInv(states, acts, |acts|);
  }

  /** While the loop is blocked, whatever was notified since its last read began
      is on its way to wake it. */
  lemma NothingIsLost(s: State, i: nat)
    requires Reachable(s) && s.phase.Blocked? && i < |s.changes|
    ensures |s.notified| == |s.begun| == |s.changes|
    ensures Pending(s, i) || s.notified[i] == s.begun[i]
  {
    ReachableOk(s);
    assert SourceOk(s, i);
  }

  /** If nothing from a source is on its way, and its informer has nothing to tell,
      then the loop has seen what there is to see of it. */
  lemma SeenIsCurrent(s: State, i: nat)
    requires Reachable(s) && s.phase.Blocked? && i < |s.changes|
    ensures |s.notified| == |s.seen| == |s.changes|
    ensures s.notified[i] == s.changes[i] && !Pending(s, i) ==> s.seen[i] == s.changes[i]
  {
    ReachableOk(s);
    assert SourceOk(s, i);
  }

  /* ----- A change wakes the loop ----- */

  predicate Handling(a: Action) {
    a.Notify? || a.Carry? || a.PassOn?
  }

  function Sum(s: seq<nat>): nat {
    if s == [] then 0 else Sum(s[..|s| - 1]) + s[|s| - 1]
  }

  lemma {:induction false} SumAt(s: seq<nat>, i: nat, x: nat)
    requires i < |s|
    ensures Sum(s[i := x]) == Sum(s) - s[i] + x
  {
    var front := s[..|s| - 1];
    if i < |s| - 1 {
      SumAt(front, i, x);
      assert s[i := x][..|s| - 1] == front[i := x];
    } else {
      assert s[i := x][..|s| - 1] == front;
    }
  }

  function Flags(tokens: seq<bool>): seq<nat> {
    seq(|tokens|, i requires 0 <= i < |tokens| => if tokens[i] then 1 else 0)
  }

  function Untold(s: State): seq<nat>
    requires Inv(s)
  {
    seq(|s.changes|, i requires 0 <= i < |s.changes| =>
      assert SourceOk(s, i);
      s.changes[i] - s.notified[i])
  }

  function Outstanding(s: State): nat
    requires Inv(s)
  {
    3 * Sum(Untold(s)) + 2 * Sum(Flags(s.tokens)) + if s.carried then 1 else 0
  }

  lemma NotifyStep(s: State, i: nat)
    requires Inv(s) && Enabled(s, Notify(i)) && Inv(Exec(s, Notify(i)))
    ensures Outstanding(Exec(s, Notify(i))) < Outstanding(s)
  {
    var s' := Exec(s, Notify(i));
    SumAt(Untold(s), i, Untold(s)[i] - 1);
    SumAt(Flags(s.tokens), i, 1);
    assert Untold(s') == Untold(s)[i := Untold(s)[i] - 1];
    assert Flags(s'.tokens) == Flags(s.tokens)[i := 1];
  }

  lemma CarryStep(s: State, i: nat)
    requires Inv(s) && Enabled(s, Carry(i)) && Inv(Exec(s, Carry(i)))
    ensures Outstanding(Exec(s, Carry(i))) < Outstanding(s)
  {
    var s' := Exec(s, Carry(i));
    SumAt(Flags(s.tokens), i, 0);
    assert Untold(s') == Untold(s);
    assert Flags(s'.tokens) == Flags(s.tokens)[i := 0];
  }

  lemma PassOnStep(s: State)
    requires Inv(s) && Enabled(s, PassOn) && Inv(Exec(s, PassOn))
    ensures Outstanding(Exec(s, PassOn)) < Outstanding(s)
  {
    assert Untold(Exec(s, PassOn)) == Untold(s);
  }

  lemma HandlingStep(s: State, a: Action)
    requires Inv(s) && Enabled(s, a) && Handling(a)
    ensures Inv(Exec(s, a)) && Outstanding(Exec(s, a)) < Outstanding(s)
  {
    StepKeepsInv(s, a);
    match a {
      case Notify(i) => NotifyStep(s, i);
      case Carry(i) => CarryStep(s, i);
      case PassOn => PassOnStep(s);
    }
  }

  /** The informers and the goroutine go on until they have nothing left to do. */
  predicate Schedule(s: State, acts: seq<Action>)
    decreases |acts|
  {
    if acts == [] then
      !s.carried && s.notified == s.changes && (s.staged ==> forall i | 0 <= i < |s.tokens| :: !s.tokens[i])
    else Handling(acts[0]) && Enabled(s, acts[0]) && Schedule(Exec(s, acts[0]), acts[1..])
  }

  function After(s: State, acts: seq<Action>): State
    decreases |acts|
  {
    if acts == [] || !Enabled(s, acts[0]) then s else After(Exec(s, acts[0]), acts[1..])
  }

  /** A loop that is blocked on something out of date can be woken once they have,
      which takes them at most `Outstanding` steps. */
  lemma {:induction false} ChangeWakes(s: State, acts: seq<Action>)
    requires Inv(s) && s.phase.Blocked? && s.seen != s.changes && Schedule(s, acts)
    ensures |acts| <= Outstanding(s)
    ensures Enabled(After(s, acts), Wake)
    decreases |acts|
  {
    if acts == [] {
      var i :| 0 <= i < |s.changes| && s.seen[i] != s.changes[i];
      assert SourceOk(s, i);
    } else {
      HandlingStep(s, acts[0]);
      ChangeWakes(Exec(s, acts[0]), acts[1..]);
    }
  }

  /** There are such steps from everywhere. */
  lemma {:induction false} SomeSchedule(s: State) returns (acts: seq<Action>)
    requires Inv(s)
    ensures Schedule(s, acts)
    decreases Outstanding(s)
  {
    if a :| Handling(a) && Enabled(s, a) {
      HandlingStep(s, a);
      var rest := SomeSchedule(Exec(s, a));
      acts := [a] + rest;
      assert acts[1..] == rest;
    } else {
      acts := [];
      assert !Enabled(s, PassOn);
      forall i | 0 <= i < |s.changes| ensures s.notified[i] == s.changes[i] && (s.staged ==> !s.tokens[i]) {
        assert SourceOk(s, i) && !Enabled(s, Notify(i)) && !Enabled(s, Carry(i));
      }
    }
  }

  /** So from everywhere a run can get to, a loop that is blocked on something out
      of date can be woken. */
  lemma CanBeWoken(s: State) returns (acts: seq<Action>)
    requires Reachable(s) && s.phase.Blocked? && s.seen != s.changes
    ensures Schedule(s, acts) && Enabled(After(s, acts), Wake)
  {
    ReachableOk(s);
    acts := SomeSchedule(s);
    ChangeWakes(s, acts);
  }

  /* ----- And it reads what there is ----- */

  /** The actions lead from one state to the other. */
  ghost predicate LeadsBy(s: State, acts: seq<Action>, t: State)
    decreases |acts|
  {
    if acts == [] then t == s else Enabled(s, acts[0]) && LeadsBy(Exec(s, acts[0]), acts[1..], t)
  }

  lemma {:induction false} StepFirst(s: State, a: Action, acts: seq<Action>, t: State)
    requires Enabled(s, a) && LeadsBy(Exec(s, a), acts, t)
    ensures LeadsBy(s, [a] + acts, t)
  {
    assert ([a] + acts)[1..] == acts;
  }

  /** One step of the informers, the goroutine or the loop, but no change. */
  predicate Settles(a: Action) {
    !a.Change?
  }

  /** A read that is under way goes on to look at the rest and block, having seen
      all that there was. */
  lemma {:induction false} ReadsRest(s: State) returns (acts: seq<Action>, t: State)
    requires Inv(s) && s.phase.Reading? && s.phase.next <= |s.changes|
    requires forall i | 0 <= i < s.phase.next :: s.seen[i] == s.changes[i]
    ensures LeadsBy(s, acts, t) && |acts| == |s.changes| - s.phase.next + 1
    ensures forall a | a in acts :: a.Look? || a.Block?
    ensures t == s.(seen := s.changes, phase := Blocked)
    decreases |s.changes| - s.phase.next
  {
    if s.phase.next == |s.changes| {
      acts, t := [Block], Exec(s, Block);
      assert LeadsBy(t, [], t);
      assert s.seen == s.changes;
    } else {
      var s' := Exec(s, Look);
      StepKeepsInv(s, Look);
      var rest;
      rest, t := ReadsRest(s');
      acts := [Look] + rest;
      StepFirst(s, Look, rest, t);
    }
  }

  /** WatchStatus, which has no timer, does nothing until there is another change or
      notification. */
  lemma BlocksUntilNotified(s: State, a: Action)
    requires Reachable(s) && s.staged && s.phase.Blocked? && Enabled(s, a)
    requires (forall i | 0 <= i < |s.tokens| :: !s.tokens[i]) && !s.carried && !s.merged
    ensures a.Change? || a.Notify?
    ensures Exec(s, a).phase.Blocked? && Exec(s, a).seen == s.seen
  {
  }

  /** On its timer, a pod waiter looks again without being notified. */
  lemma TimerLooksAgain(s: State) returns (acts: seq<Action>, t: State)
    requires Reachable(s) && s.phase.Blocked? && !s.staged
    ensures acts != [] && acts[0] == Tick && LeadsBy(s, acts, t) && forall a | a in acts[1..] :: a.Look? || a.Block?
    ensures t.phase.Blocked? && t.seen == t.changes == s.changes
  {
    ReachableOk(s);
    StepKeepsInv(s, Tick);
    var rest;
    rest, t := ReadsRest(Exec(s, Tick));
    acts := [Tick] + rest;
    StepFirst(s, Tick, rest, t);
  }

  lemma {:induction false} HandlesAll(s: State, acts: seq<Action>, more: seq<Action>, t: State)
    requires Inv(s) && Schedule(s, acts) && LeadsBy(After(s, acts), more, t)
    ensures LeadsBy(s, acts + more, t) && Inv(After(s, acts))
    ensures After(s, acts).changes == s.changes && After(s, acts).phase == s.phase
    decreases |acts|
  {
    if acts == [] {
      assert acts + more == more;
    } else {
      HandlingStep(s, acts[0]);
      HandlesAll(Exec(s, acts[0]), acts[1..], more, t);
      assert (acts + more)[1..] == acts[1..] + more;
    }
  }

  /** A blocked loop that is out of date comes to see what there is, without another
      change: it is notified, wakes, reads everything and blocks. */
  lemma CatchesUp(s: State) returns (acts: seq<Action>, t: State)
    requires Reachable(s) && s.phase.Blocked? && s.seen != s.changes
    ensures LeadsBy(s, acts, t) && forall a | a in acts :: Settles(a)
    ensures t.phase.Blocked? && t.seen == t.changes == s.changes
  {
    ReachableOk(s);
    var handling := SomeSchedule(s);
    ChangeWakes(s, handling);
    var s1 := After(s, handling);
    HandlesAll(s, handling, [], s1);
    var reading;
    reading, t := WakesAndReads(s1);
    HandlesAll(s, handling, reading, t);
    acts := handling + reading;
    OnlyHandling(s, handling);
  }

  lemma WakesAndReads(s: State) returns (acts: seq<Action>, t: State)
    requires Inv(s) && Enabled(s, Wake)
    ensures LeadsBy(s, acts, t) && forall a | a in acts :: Settles(a)
    ensures t.phase.Blocked? && t.seen == t.changes == s.changes
  {
    StepKeepsInv(s, Wake);
    var reading;
    reading, t := ReadsRest(Exec(s, Wake));
    StepFirst(s, Wake, reading, t);
    acts := [Wake] + reading;
  }

  lemma {:induction false} OnlyHandling(s: State, acts: seq<Action>)
    requires Schedule(s, acts)
    ensures forall a | a in acts :: Handling(a)
    decreases |acts|
  {
    if acts != [] {
      OnlyHandling(Exec(s, acts[0]), acts[1..]);
      assert acts == [acts[0]] + acts[1..];
    }
  }
}
