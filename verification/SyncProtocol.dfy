/** The protocol that tells the node controller when a namespace's bind volumes
    are synced: CLIs that dial, answer polls and redial, streams that may break
    and lose what is on them, and the node controller's connections. */
module SyncProtocol {
  import opened Wrappers
  import opened SyncConn

  /** Where the CLI's loop is on a connection. */
  datatype CliPhase = Listening | AboutToSend | Ended

  /** Where the node controller's handler is: before RunServer's first locked
      section, in Run, after Run, after the last locked section. */
  datatype NodePhase = Accepted | Running | Exited | Gone

  datatype Conn = Conn(
    cli: nat,
    node: NodePhase,
    end: NodeEnd,
    numbered: set<nat>,
    polled: set<nat>,
    broken: bool,
    toCli: nat,
    toNode: seq<bool>,
    phase: CliPhase,
    turn: nat)
  {
    /** NewWaiter, one locked section at a time. */
    function NextId(): Conn {
      this.(end := end.Numbered(), numbered := numbered + {end.idCtr + 1})
    }

    function Enroll(id: nat): Conn {
      this.(end := end.Enrolled(id), numbered := numbered - {id})
    }

    /** Sending succeeds; whether it arrives is another matter. */
    function Poll(id: nat): Conn {
      this.(polled := polled + {id}, toCli := if broken then toCli else toCli + 1)
    }

    function TakePoll(): Conn
      requires toCli > 0
    {
      this.(toCli := toCli - 1, phase := AboutToSend)
    }

    function Reply(hasSynced: bool): Conn {
      if broken then this.(phase := Ended) else this.(phase := Listening, toNode := toNode + [hasSynced])
    }

    function Receive(): Conn
      requires |toNode| > 0
    {
      this.(toNode := toNode[1..], end := if toNode[0] then end.Notified() else end)
    }

    function Exit(): Conn {
      this.(node := Exited, end := end.Drained("connection is shutting down"))
    }

    /** Whatever is on the stream may be lost, from some point on. */
    function Break(polls: nat, replies: nat): Conn
      requires polls <= toCli && replies <= |toNode|
    {
      this.(broken := true, toCli := polls, toNode := toNode[..replies])
    }
  }

  datatype Cli = Cli(ns: Namespace, hasSynced: bool, token: bool, current: Option<nat>)

  datatype State = State(conns: seq<Conn>, clis: seq<Cli>, registry: map<Namespace, nat>, turns: nat) {
    function With(c: nat, conn: Conn): State
      requires c < |conns|
    {
      this.(conns := conns[c := conn])
    }

    function WithCli(p: nat, cli: Cli): State
      requires p < |clis|
    {
      this.(clis := clis[p := cli])
    }
  }

  const START := State([], [], map[], 0)

  /** What can happen on one connection. */
  datatype Step =
    // its CLI
    | TakeToken
    | TakePoll
    | Reply
    | GiveUp
    // its stream
    | Break(polls: nat, replies: nat)
    // the node controller's handler
    | Accept
    | Receive
    | ReceiveError
    | ObeyShutdown
    | Remove
    // the node controller's waiters
    | NextId
    | Enroll(id: nat)
    | Poll(id: nat)
    | PollFails(id: nat)
    | Cancel(id: nat)

  datatype Action = NewCli(ns: Namespace) | FinishSync(p: nat) | Dial(p: nat) | On(c: nat, step: Step)

  predicate CanStep(conn: Conn, cli: Cli, step: Step) {
    match step
    case TakeToken => conn.phase.Listening? && cli.token
    case TakePoll => conn.phase.Listening? && conn.toCli > 0
    case Reply => conn.phase.AboutToSend?
    case GiveUp => conn.phase.Listening? && conn.broken
    case Break(polls, replies) => polls <= conn.toCli && replies <= |conn.toNode|
    case Accept => conn.node.Accepted?
    case Receive => conn.node.Running? && |conn.toNode| > 0
    case ReceiveError => conn.node.Running? && conn.broken && conn.toNode == []
    case ObeyShutdown => conn.node.Running? && conn.end.shutdown.Some?
    case Remove => conn.node.Exited?
    case NextId => !conn.node.Accepted?
    case Enroll(id) => id in conn.numbered
    case Poll(id) => id in conn.end.results && id !in conn.numbered
    case PollFails(id) => id in conn.end.results && id !in conn.numbered && conn.broken
    case Cancel(id) => id in conn.end.results && id !in conn.numbered
  }

  /** The effect on the connection itself. Accepting and removing it concern the
      registry too. */
  function StepConn(conn: Conn, cli: Cli, step: Step): Conn
    requires CanStep(conn, cli, step)
  {
    match step
    case TakeToken => conn.(phase := AboutToSend)
    case TakePoll => conn.TakePoll()
    case Reply => conn.Reply(cli.hasSynced)
    case GiveUp => conn.(phase := Ended)
    case Break(polls, replies) => conn.Break(polls, replies)
    case Accept => conn.(node := Running)
    case Receive => conn.Receive()
    case ReceiveError => conn.Exit()
    case ObeyShutdown => conn.(end := conn.end.(shutdown := None)).Exit()
    // the stream ends with its handler
    case Remove => conn.(node := Gone, broken := true)
    case NextId => conn.NextId()
    case Enroll(id) => conn.Enroll(id)
    case Poll(id) => conn.Poll(id)
    case PollFails(id) => conn.(end := conn.end.ShutDown("send poll request to CLI"))
    case Cancel(id) => conn.(end := conn.end.Cancelled(id))
  }

  /** The effect on the connection's CLI, which dials again once it has left the
      connection. */
  function StepCli(conn: Conn, cli: Cli, step: Step): Cli
    requires CanStep(conn, cli, step)
  {
    match step
    case TakeToken => cli.(hasSynced := true, token := false)
    case Reply => if conn.broken then cli.(current := None) else cli
    case GiveUp => cli.(current := None)
    case _ => cli
  }

  function CliOf(s: State, c: nat): Cli
    requires c < |s.conns| && s.conns[c].cli < |s.clis|
  {
    s.clis[s.conns[c].cli]
  }

  predicate Enabled(s: State, a: Action) {
    match a
    case NewCli(_) => true
    case FinishSync(p) => p < |s.clis|
    case Dial(p) => p < |s.clis| && s.clis[p].current.None?
    case On(c, step) => c < |s.conns| && s.conns[c].cli < |s.clis| && CanStep(s.conns[c], CliOf(s, c), step)
  }

  /** The connection a CLI has just opened. */
  function Dialled(p: nat): Conn {
    Conn(p, Accepted, NEW_END, {}, {}, false, 0, [], Listening, 0)
  }

  /** RunServer's first locked section: a connection that is registered is told
      to make way. */
  function Supersede(s: State, ns: Namespace): State {
    if ns in s.registry && s.registry[ns] < |s.conns|
    then
      var stale := s.conns[s.registry[ns]];
      s.With(s.registry[ns], stale.(end := stale.end.ShutDown(SUPERSEDED)))
    else s
  }

  function Local(s: State, c: nat, step: Step): State
    requires Enabled(s, On(c, step))
  {
    s.With(c, StepConn(s.conns[c], CliOf(s, c), step)).WithCli(s.conns[c].cli, StepCli(s.conns[c], CliOf(s, c), step))
  }

  function Exec(s: State, a: Action): State
    requires Enabled(s, a)
  {
    match a
    case NewCli(ns) => s.(clis := s.clis + [Cli(ns, false, false, None)])
    case FinishSync(p) => s.WithCli(p, s.clis[p].(token := true))
    case Dial(p) => s.(conns := s.conns + [Dialled(p)]).WithCli(p, s.clis[p].(current := Some(|s.conns|)))
    case On(c, step) =>
      var ns := CliOf(s, c).ns;
      var s' := Local(s, c, step);
      match step
      case Accept =>
        var s'' := Supersede(s', ns);
        s''.With(c, s''.conns[c].(turn := s.turns + 1)).(registry := s.registry[ns := c], turns := s.turns + 1)
      case Remove =>
        s'.(registry := if ns in s.registry && s.registry[ns] == c then s.registry - {ns} else s.registry)
      case _ => s'
  }

  /* ----- What every step keeps ----- */

  /** A waiter that has sent its poll and has not been told anything. */
  predicate Unresolved(conn: Conn, id: nat) {
    id in conn.end.waiters && id in conn.polled && id in conn.end.results && conn.end.results[id] == Waiting
  }

  /** A poll, or a positive answer, is still under way. */
  predicate UnderWay(conn: Conn) {
    conn.toCli > 0 || conn.phase.AboutToSend? || true in conn.toNode
  }

  /** No wake-up is lost. */
  ghost predicate Awake(conn: Conn, cli: Cli) {
    !conn.broken && conn.node.Running? && cli.hasSynced ==> forall id :: Unresolved(conn, id) ==> UnderWay(conn)
  }

  /** Nothing and nobody is told of a sync that the CLI does not know of. */
  ghost predicate Truthful(conn: Conn, cli: Cli) {
    && (true in conn.toNode ==> cli.hasSynced)
    && (forall id | id in conn.end.results :: conn.end.results[id] == Done ==> cli.hasSynced)
  }

  ghost predicate WaitersOk(conn: Conn) {
    && conn.end.Valid()
    && conn.polled <= conn.end.results.Keys
    && (forall id | id in conn.numbered :: id in conn.end.results && id !in conn.end.waiters && id !in conn.polled
                                           && conn.end.results[id] == Waiting)
    && (conn.node.Accepted? ==> conn.end.results == map[])
    && (conn.node.Accepted? || conn.node.Running? ==>
          forall id | id in conn.end.results :: !conn.end.results[id].Failed?)
  }

  ghost predicate ConnOk(conn: Conn, cli: Cli) {
    && WaitersOk(conn)
    && Truthful(conn, cli)
    && Awake(conn, cli)
    && (conn.phase.Ended? ==> conn.broken)
  }

  ghost predicate ConnsOk(s: State) {
    forall c | 0 <= c < |s.conns| :: s.conns[c].cli < |s.clis| && ConnOk(s.conns[c], s.clis[s.conns[c].cli])
  }

  /** A CLI talks on one connection at a time. */
  ghost predicate CurrentOk(s: State) {
    forall c | 0 <= c < |s.conns| :: s.conns[c].cli < |s.clis| &&
      (!s.conns[c].phase.Ended? <==> s.clis[s.conns[c].cli].current == Some(c))
  }

  function NsOf(s: State, c: nat): Namespace
    requires c < |s.conns| && s.conns[c].cli < |s.clis|
  {
    s.clis[s.conns[c].cli].ns
  }

  /** Told to exit, or out of Run already. */
  predicate Stopping(conn: Conn) {
    conn.end.shutdown.Some? || conn.node.Exited? || conn.node.Gone?
  }

  /** Connections are accepted one at a time. */
  ghost predicate TurnsOk(s: State) {
    && (forall ns | ns in s.registry :: s.registry[ns] < |s.conns|)
    && (forall c | 0 <= c < |s.conns| :: s.conns[c].cli < |s.clis| && s.conns[c].turn <= s.turns
         && (s.conns[c].turn == 0 <==> s.conns[c].node.Accepted?))
    && (forall c, d | 0 <= c < d < |s.conns| :: s.conns[c].turn == s.conns[d].turn ==> s.conns[c].turn == 0)
  }

  /** The registered connection is the latest, until that one is removed; the
      others have been told to exit. */
  ghost predicate RegistryOk(s: State) {
    TurnsOk(s) && forall c | 0 <= c < |s.conns| && s.conns[c].turn > 0 :: RegisteredOk(s, c)
  }

  ghost predicate RegisteredOk(s: State, c: nat)
    requires c < |s.conns| && s.conns[c].cli < |s.clis|
  {
    var ns := NsOf(s, c);
    if ns in s.registry && s.registry[ns] == c
    then !s.conns[c].node.Gone? && Latest(s, c)
    else Stopping(s.conns[c]) && (Latest(s, c) ==> s.conns[c].node.Gone? && ns !in s.registry)
  }

  ghost predicate Latest(s: State, c: nat)
    requires c < |s.conns| && s.conns[c].cli < |s.clis|
  {
    forall d | 0 <= d < |s.conns| :: s.conns[d].cli < |s.clis| && NsOf(s, d) == NsOf(s, c) ==>
        s.conns[d].turn <= s.conns[c].turn
  }

  ghost predicate Inv(s: State) {
    ConnsOk(s) && CurrentOk(s) && RegistryOk(s)
  }

  /* ----- One connection ----- */

  /** What the node controller's handler does to its waiters. */
  predicate OfHandler(step: Step) {
    step.Receive? || step.ReceiveError? || step.ObeyShutdown?
  }

  predicate OfWaiters(step: Step) {
    step.NextId? || step.Enroll? || step.Poll? || step.PollFails? || step.Cancel?
  }

  lemma StreamKeepsWaiters(conn: Conn, cli: Cli, step: Step)
    requires WaitersOk(conn) && CanStep(conn, cli, step) && !OfHandler(step) && !OfWaiters(step)
    ensures WaitersOk(StepConn(conn, cli, step))
  {
  }

  lemma HandlerKeepsWaiters(conn: Conn, cli: Cli, step: Step)
    requires WaitersOk(conn) && CanStep(conn, cli, step) && OfHandler(step)
    ensures WaitersOk(StepConn(conn, cli, step))
  {
  }

  lemma WaitersKeepWaiters(conn: Conn, cli: Cli, step: Step)
    requires WaitersOk(conn) && CanStep(conn, cli, step) && OfWaiters(step)
    ensures WaitersOk(StepConn(conn, cli, step))
  {
  }

  lemma WaitersStep(conn: Conn, cli: Cli, step: Step)
    requires WaitersOk(conn) && CanStep(conn, cli, step)
    ensures WaitersOk(StepConn(conn, cli, step))
  {
    if OfHandler(step) {
      HandlerKeepsWaiters(conn, cli, step);
    } else if OfWaiters(step) {
      WaitersKeepWaiters(conn, cli, step);
    } else {
      StreamKeepsWaiters(conn, cli, step);
    }
  }

  lemma TruthfulStep(conn: Conn, cli: Cli, step: Step)
    requires WaitersOk(conn) && Truthful(conn, cli) && CanStep(conn, cli, step)
    ensures Truthful(StepConn(conn, cli, step), StepCli(conn, cli, step))
  {
  }

  lemma AwakeStep(conn: Conn, cli: Cli, step: Step)
    requires WaitersOk(conn) && Awake(conn, cli) && CanStep(conn, cli, step)
    ensures Awake(StepConn(conn, cli, step), StepCli(conn, cli, step))
  {
    var conn', cli' := StepConn(conn, cli, step), StepCli(conn, cli, step);
    if !conn'.broken && conn'.node.Running? && cli'.hasSynced {
      forall id | Unresolved(conn', id) ensures UnderWay(conn') {
        UnresolvedStep(conn, cli, step, id);
      }
    }
  }

  lemma UnresolvedStep(conn: Conn, cli: Cli, step: Step, id: nat)
    requires WaitersOk(conn) && Awake(conn, cli) && CanStep(conn, cli, step)
    requires var conn' := StepConn(conn, cli, step);
      !conn'.broken && conn'.node.Running? && StepCli(conn, cli, step).hasSynced && Unresolved(conn', id)
    ensures UnderWay(StepConn(conn, cli, step))
  {
    var conn' := StepConn(conn, cli, step);
    if step.Reply? {
      assert conn'.toNode[|conn.toNode|];
    }
    if step.Receive? && !conn.toNode[0] {
      assert Unresolved(conn, id) && conn.toNode == [false] + conn'.toNode;
    }
    if step.NextId? || step.Enroll? || step.Cancel? {
      assert Unresolved(conn, id);
    }
  }

  /* ----- The whole system ----- */

  lemma ConnStep(conn: Conn, cli: Cli, step: Step)
    requires ConnOk(conn, cli) && CanStep(conn, cli, step)
    requires cli.current.None? ==> conn.phase.Ended?
    ensures ConnOk(StepConn(conn, cli, step), StepCli(conn, cli, step))
  {
    WaitersStep(conn, cli, step);
    TruthfulStep(conn, cli, step);
    AwakeStep(conn, cli, step);
  }

  /** A connection stays in order while its CLI uses another one. */
  lemma OtherConnOk(conn: Conn, cli: Cli, cli': Cli)
    requires ConnOk(conn, cli) && (cli.hasSynced ==> cli'.hasSynced)
    requires conn.phase.Ended? || cli'.hasSynced == cli.hasSynced
    ensures ConnOk(conn, cli')
  {
  }

  lemma LocalKeepsConns(s: State, c: nat, step: Step)
    requires ConnsOk(s) && CurrentOk(s) && Enabled(s, On(c, step))
    ensures ConnsOk(Local(s, c, step))
  {
    var s' := Local(s, c, step);
    var p := s.conns[c].cli;
    assert ConnOk(s.conns[c], s.clis[p]);
    ConnStep(s.conns[c], s.clis[p], step);
    forall d | 0 <= d < |s'.conns| ensures ConnOk(s'.conns[d], s'.clis[s'.conns[d].cli]) {
      if d != c {
        assert ConnOk(s.conns[d], s.clis[s.conns[d].cli]);
        if s.conns[d].cli == p {
          OtherConnOk(s.conns[d], s.clis[p], s'.clis[p]);
        }
      }
    }
  }

  lemma LocalKeepsCurrent(s: State, c: nat, step: Step)
    requires CurrentOk(s) && Enabled(s, On(c, step))
    ensures CurrentOk(Local(s, c, step))
  {
  }

  /** A connection only remembers more, and stays told to exit, unless it does. */
  lemma LocalKeepsStopping(conn: Conn, cli: Cli, step: Step)
    requires CanStep(conn, cli, step) && Stopping(conn)
    ensures Stopping(StepConn(conn, cli, step))
  {
  }

  /** The same connections and CLIs, registered in the same order. */
  ghost predicate SameOrder(s: State, s': State) {
    && |s'.conns| == |s.conns| && |s'.clis| == |s.clis|
    && (forall e | 0 <= e < |s.conns| :: s'.conns[e].turn == s.conns[e].turn && s'.conns[e].cli == s.conns[e].cli)
    && (forall p | 0 <= p < |s.clis| :: s'.clis[p].ns == s.clis[p].ns)
  }

  lemma SameLatest(s: State, s': State, d: nat)
    requires SameOrder(s, s') && d < |s.conns| && forall e | 0 <= e < |s.conns| :: s.conns[e].cli < |s.clis|
    ensures Latest(s, d) <==> Latest(s', d)
  {
  }

  lemma SameRegistered(s: State, s': State, d: nat)
    requires RegistryOk(s) && SameOrder(s, s') && s'.registry == s.registry && d < |s.conns| && s.conns[d].turn > 0
    requires Stopping(s.conns[d]) ==> Stopping(s'.conns[d])
    requires s'.conns[d].node.Gone? <==> s.conns[d].node.Gone?
    ensures RegisteredOk(s', d)
  {
    assert RegisteredOk(s, d);
    SameLatest(s, s', d);
  }

  lemma LocalKeepsRegistry(s: State, c: nat, step: Step)
    requires RegistryOk(s) && Enabled(s, On(c, step)) && !step.Accept? && !step.Remove?
    ensures RegistryOk(Local(s, c, step))
  {
    var s' := Local(s, c, step);
    assert SameOrder(s, s');
    forall d | 0 <= d < |s'.conns| && s'.conns[d].turn > 0 ensures RegisteredOk(s', d) {
      if d == c && Stopping(s.conns[c]) {
        LocalKeepsStopping(s.conns[c], CliOf(s, c), step);
      }
      SameRegistered(s, s', d);
    }
  }

  /** Being accepted makes a connection the latest one; another one is told to
      make way, if it is of the same namespace and still registered. */
  ghost predicate AcceptedInto(s: State, s': State, c: nat) {
    && c < |s.conns| && |s'.conns| == |s.conns| && s'.clis == s.clis
    && (forall e | 0 <= e < |s.conns| :: s.conns[e].cli < |s.clis| && s'.conns[e].cli == s.conns[e].cli
         && s.conns[e].turn <= s.turns
         && s'.conns[e].turn == (if e == c then s.turns + 1 else s.conns[e].turn))
    && s'.registry == s.registry[NsOf(s, c) := c]
    && (forall e | 0 <= e < |s.conns| && e != c ::
         && s'.conns[e].node == s.conns[e].node
         && (Stopping(s.conns[e]) ==> Stopping(s'.conns[e]))
         && (NsOf(s, c) in s.registry && s.registry[NsOf(s, c)] == e ==> Stopping(s'.conns[e])))
    && s'.conns[c].node.Running?
  }

  lemma AcceptKeepsRegistered(s: State, s': State, c: nat, d: nat)
    requires AcceptedInto(s, s', c) && d < |s.conns| && d != c
    requires RegisteredOk(s, d) && d < |s'.conns|
    ensures RegisteredOk(s', d)
  {
    if NsOf(s, d) == NsOf(s, c) {
      assert s'.conns[c].turn > s'.conns[d].turn && !Latest(s', d);
    } else {
      assert Latest(s', d) <==> Latest(s, d);
    }
  }

  lemma AcceptKeepsRegistry(s: State, c: nat)
    requires RegistryOk(s) && Enabled(s, On(c, Accept))
    ensures RegistryOk(Exec(s, On(c, Accept)))
  {
    var s' := Exec(s, On(c, Accept));
    AcceptKeepsTurns(s, c);
    AcceptIsInto(s, c);
    forall d | 0 <= d < |s'.conns| && s'.conns[d].turn > 0 ensures RegisteredOk(s', d) {
      if d != c {
        assert RegisteredOk(s, d);
        AcceptKeepsRegistered(s, s', c, d);
      } else {
        AcceptRegisters(s, s', c);
      }
    }
  }

  lemma AcceptIsInto(s: State, c: nat)
    requires TurnsOk(s) && Enabled(s, On(c, Accept))
    ensures AcceptedInto(s, Exec(s, On(c, Accept)), c)
  {
  }

  lemma AcceptKeepsTurns(s: State, c: nat)
    requires TurnsOk(s) && Enabled(s, On(c, Accept))
    ensures TurnsOk(Exec(s, On(c, Accept)))
  {
    var s' := Exec(s, On(c, Accept));
    AcceptIsInto(s, c);
    assert forall e | 0 <= e < |s.conns| && e != c :: s'.conns[e].node == s.conns[e].node;
  }

  lemma AcceptRegisters(s: State, s': State, c: nat)
    requires RegistryOk(s) && Enabled(s, On(c, Accept)) && s' == Exec(s, On(c, Accept)) && AcceptedInto(s, s', c)
    ensures RegisteredOk(s', c)
  {
    assert Latest(s', c);
  }

  lemma RemoveKeepsRegistry(s: State, c: nat)
    requires RegistryOk(s) && Enabled(s, On(c, Remove))
    ensures RegistryOk(Exec(s, On(c, Remove)))
  {
    var s' := Exec(s, On(c, Remove));
    RemoveKeepsTurns(s, c);
    forall d | 0 <= d < |s'.conns| && s'.conns[d].turn > 0 ensures RegisteredOk(s', d) {
      RemoveKeepsRegistered(s, c, d);
    }
  }

  lemma RemoveKeepsTurns(s: State, c: nat)
    requires TurnsOk(s) && Enabled(s, On(c, Remove))
    ensures TurnsOk(Exec(s, On(c, Remove))) && SameOrder(s, Exec(s, On(c, Remove)))
    ensures |Exec(s, On(c, Remove)).conns| == |s.conns| && s.conns[c].turn > 0
    ensures forall d | 0 <= d < |s.conns| :: Exec(s, On(c, Remove)).conns[d].turn == s.conns[d].turn
  {
  }

  lemma RemoveKeepsRegistered(s: State, c: nat, d: nat)
    requires RegistryOk(s) && Enabled(s, On(c, Remove)) && d < |s.conns| && s.conns[d].turn > 0
    ensures d < |Exec(s, On(c, Remove)).conns| && Exec(s, On(c, Remove)).conns[d].cli < |s.clis|
    ensures RegisteredOk(Exec(s, On(c, Remove)), d)
  {
    var s' := Exec(s, On(c, Remove));
    RemoveKeepsTurns(s, c);
    assert RegisteredOk(s, c) && RegisteredOk(s, d);
    SameLatest(s, s', d);
    SameLatest(s, s', c);
  }

  lemma SupersedeKeepsConns(s: State, ns: Namespace)
    requires ConnsOk(s)
    ensures ConnsOk(Supersede(s, ns))
  {
    var s' := Supersede(s, ns);
    forall d | 0 <= d < |s'.conns| ensures ConnOk(s'.conns[d], s'.clis[s'.conns[d].cli]) {
      assert ConnOk(s.conns[d], s.clis[s.conns[d].cli]);
      assert forall id :: Unresolved(s'.conns[d], id) ==> Unresolved(s.conns[d], id);
    }
  }

  lemma AcceptKeepsCurrent(s: State, c: nat)
    requires CurrentOk(s) && Enabled(s, On(c, Accept))
    ensures CurrentOk(Exec(s, On(c, Accept)))
  {
  }

  lemma OnKeepsInv(s: State, c: nat, step: Step)
    requires Inv(s) && Enabled(s, On(c, step))
    ensures Inv(Exec(s, On(c, step)))
  {
    LocalKeepsConns(s, c, step);
    LocalKeepsCurrent(s, c, step);
    if step.Accept? {
      AcceptKeepsConns(s, c);
      AcceptKeepsCurrent(s, c);
      AcceptKeepsRegistry(s, c);
    } else if step.Remove? {
      RemoveKeepsRegistry(s, c);
    } else {
      LocalKeepsRegistry(s, c, step);
    }
  }

  lemma AcceptKeepsConns(s: State, c: nat)
    requires Inv(s) && Enabled(s, On(c, Accept))
    ensures ConnsOk(Exec(s, On(c, Accept)))
  {
    LocalKeepsConns(s, c, Accept);
    var s1 := Local(s, c, Accept);
    SupersedeKeepsConns(s1, CliOf(s, c).ns);
    var s2 := Supersede(s1, CliOf(s, c).ns);
    var s' := Exec(s, On(c, Accept));
    forall d | 0 <= d < |s'.conns| ensures ConnOk(s'.conns[d], s'.clis[s'.conns[d].cli]) {
      assert ConnOk(s2.conns[d], s2.clis[s2.conns[d].cli]);
      TurnKeepsOk(s2.conns[d], s2.clis[s2.conns[d].cli], s'.conns[d].turn);
    }
  }

  lemma TurnKeepsOk(conn: Conn, cli: Cli, turn: nat)
    requires ConnOk(conn, cli)
    ensures ConnOk(conn.(turn := turn), cli)
  {
    assert forall id :: Unresolved(conn.(turn := turn), id) ==> Unresolved(conn, id);
  }

  lemma DialKeepsConns(s: State, p: nat)
    requires ConnsOk(s) && Enabled(s, Dial(p))
    ensures ConnsOk(Exec(s, Dial(p)))
  {
    var s' := Exec(s, Dial(p));
    forall d | 0 <= d < |s'.conns| ensures ConnOk(s'.conns[d], s'.clis[s'.conns[d].cli]) {
      if d < |s.conns| {
        assert ConnOk(s.conns[d], s.clis[s.conns[d].cli]);
        OtherConnOk(s.conns[d], s.clis[s.conns[d].cli], s'.clis[s.conns[d].cli]);
      }
    }
  }

  lemma DialKeepsLatest(s: State, p: nat, d: nat)
    requires RegistryOk(s) && Enabled(s, Dial(p)) && d < |s.conns| && s.conns[d].turn > 0
    ensures d < |Exec(s, Dial(p)).conns| && (Latest(Exec(s, Dial(p)), d) <==> Latest(s, d))
  {
    var s' := Exec(s, Dial(p));
    assert forall e | 0 <= e < |s.conns| :: s'.conns[e] == s.conns[e] && NsOf(s', e) == NsOf(s, e);
    assert s'.conns[|s.conns|].turn == 0;
  }

  lemma DialKeepsInv(s: State, p: nat)
    requires Inv(s) && Enabled(s, Dial(p))
    ensures Inv(Exec(s, Dial(p)))
  {
    DialKeepsConns(s, p);
    DialKeepsCurrent(s, p);
    DialKeepsTurns(s, p);
    forall d | 0 <= d < |s.conns| && s.conns[d].turn > 0 ensures RegisteredOk(Exec(s, Dial(p)), d) {
      assert RegisteredOk(s, d);
      DialKeepsRegistered(s, p, d);
    }
  }

  lemma DialKeepsCurrent(s: State, p: nat)
    requires CurrentOk(s) && Enabled(s, Dial(p))
    ensures CurrentOk(Exec(s, Dial(p)))
  {
  }

  lemma DialKeepsTurns(s: State, p: nat)
    requires TurnsOk(s) && Enabled(s, Dial(p))
    ensures TurnsOk(Exec(s, Dial(p)))
    ensures |Exec(s, Dial(p)).conns| == |s.conns| + 1 && Exec(s, Dial(p)).conns[|s.conns|].turn == 0
    ensures forall d | 0 <= d < |s.conns| :: Exec(s, Dial(p)).conns[d] == s.conns[d]
  {
  }

  lemma DialKeepsRegistered(s: State, p: nat, d: nat)
    requires RegistryOk(s) && Enabled(s, Dial(p)) && d < |s.conns| && s.conns[d].turn > 0 && RegisteredOk(s, d)
    ensures d < |Exec(s, Dial(p)).conns| && Exec(s, Dial(p)).conns[d].cli < |Exec(s, Dial(p)).clis|
    ensures RegisteredOk(Exec(s, Dial(p)), d)
  {
    DialKeepsLatest(s, p, d);
  }

  lemma CliKeepsInv(s: State, s': State)
    requires Inv(s) && s'.conns == s.conns && s'.registry == s.registry && s'.turns == s.turns && |s.clis| <= |s'.clis|
    requires forall p | 0 <= p < |s.clis| :: s'.clis[p] == s.clis[p].(token := s'.clis[p].token)
    ensures Inv(s')
  {
    forall d | 0 <= d < |s'.conns| ensures ConnOk(s'.conns[d], s'.clis[s'.conns[d].cli]) {
      assert ConnOk(s.conns[d], s.clis[s.conns[d].cli]);
      OtherConnOk(s.conns[d], s.clis[s.conns[d].cli], s'.clis[s.conns[d].cli]);
    }
    forall d | 0 <= d < |s.conns| && s.conns[d].turn > 0 ensures RegisteredOk(s', d) {
      assert RegisteredOk(s, d);
      assert Latest(s, d) <==> Latest(s', d);
    }
  }

  lemma StepKeepsInv(s: State, a: Action)
    requires Inv(s) && Enabled(s, a)
    ensures Inv(Exec(s, a))
  {
    match a {
      case NewCli(_) => CliKeepsInv(s, Exec(s, a));
      case FinishSync(_) => CliKeepsInv(s, Exec(s, a));
      case Dial(p) => DialKeepsInv(s, p);
      case On(c, step) => OnKeepsInv(s, c, step);
    }
  }

  /* ----- Whole runs ----- */

  /** The states that a list of actions leads through, from the start. */
  ghost predicate IsRun(states: seq<State>, acts: seq<Action>) {
    && |states| == |acts| + 1 && states[0] == START
    && forall i {:trigger acts[i]} | 0 <= i < |acts| ::
         Enabled(states[i], acts[i]) && states[i + 1] == Exec(states[i], acts[i])
  }

  ghost predicate Reachable(s: State) {
    exists states, acts :: IsRun(states, acts) && s == states[|acts|]
  }

  /** Every state of a run is in order. */
  lemma {:induction false} RunKeepsInv(states: seq<State>, acts: seq<Action>, k: nat)
    requires IsRun(states, acts) && k <= |acts|
    ensures Inv(states[k])
  {
    if k > 0 {
      RunKeepsInv(states, acts, k - 1);
      var a := acts[k - 1];
      StepKeepsInv(states[k - 1], a);
    }
  }

  lemma ReachableOk(s: State)
    requires Reachable(s)
    ensures Inv(s)
  {
    var states, acts :| IsRun(states, acts) && s == states[|acts|];
    RunKeepsInv(states, acts, |acts|);
  }

  lemma StepReaches(s: State, a: Action)
    requires Reachable(s) && Enabled(s, a)
    ensures Reachable(Exec(s, a))
  {
    var states, acts :| IsRun(states, acts) && s == states[|acts|];
    assert IsRun(states + [Exec(s, a)], acts + [a]);
  }

  predicate IsConn(s: State, c: nat) {
    c < |s.conns| && s.conns[c].cli < |s.clis|
  }

  /** On a live connection, whoever waits for a sync that has completed has a
      poll or a positive answer under way. */
  lemma NoLostWakeUp(s: State, c: nat, id: nat)
    requires Reachable(s) && IsConn(s, c)
    requires !s.conns[c].broken && s.conns[c].node.Running? && CliOf(s, c).hasSynced && Unresolved(s.conns[c], id)
    ensures UnderWay(s.conns[c])
  {
    ReachableOk(s);
    assert ConnOk(s.conns[c], s.clis[s.conns[c].cli]);
  }

  /** A waiter is only told of a sync that the CLI of its connection has seen. */
  lemma ResolvedMeansSynced(s: State, c: nat, id: nat)
    requires Reachable(s) && IsConn(s, c) && id in s.conns[c].end.results && s.conns[c].end.results[id] == Done
    ensures CliOf(s, c).hasSynced
  {
    ReachableOk(s);
    assert ConnOk(s.conns[c], s.clis[s.conns[c].cli]);
  }

  /** The registered connection of a namespace is the one accepted last, and
      there is none exactly when that one has been removed. */
  lemma LatestIsRegistered(s: State, c: nat)
    requires Reachable(s) && IsConn(s, c) && s.conns[c].turn > 0 && Latest(s, c)
    ensures NsOf(s, c) in s.registry <==> !s.conns[c].node.Gone?
    ensures NsOf(s, c) in s.registry ==> s.registry[NsOf(s, c)] == c
  {
    ReachableOk(s);
    assert RegisteredOk(s, c);
    if NsOf(s, c) in s.registry && s.registry[NsOf(s, c)] != c {
      assert false;
    }
  }

  /** A connection that is not the latest is out of Run, or has been told to be. */
  lemma SupersededIsStopping(s: State, c: nat)
    requires Reachable(s) && IsConn(s, c) && s.conns[c].turn > 0 && !Latest(s, c)
    ensures Stopping(s.conns[c])
    ensures NsOf(s, c) in s.registry ==> s.registry[NsOf(s, c)] != c
  {
    ReachableOk(s);
    assert RegisteredOk(s, c);
  }

  /** What a waiter has been told it is told once and for all. */
  lemma ToldOnce(s: State, a: Action, c: nat, id: nat)
    requires Reachable(s) && Enabled(s, a) && IsConn(s, c)
    requires id in s.conns[c].end.results && s.conns[c].end.results[id] != Waiting
    ensures c < |Exec(s, a).conns| && id in Exec(s, a).conns[c].end.results
    ensures Exec(s, a).conns[c].end.results[id] == s.conns[c].end.results[id]
  {
    if a.On? && a.c == c {
      ReachableOk(s);
      assert ConnOk(s.conns[c], s.clis[s.conns[c].cli]);
      ToldOnceOn(s.conns[c], CliOf(s, c), a.step, id);
      OwnResults(s, c, a.step);
    } else {
      OtherResults(s, a, c);
    }
  }

  lemma OwnResults(s: State, c: nat, step: Step)
    requires Enabled(s, On(c, step)) && IsConn(s, c)
    ensures c < |Exec(s, On(c, step)).conns|
    ensures Exec(s, On(c, step)).conns[c].end.results == StepConn(s.conns[c], CliOf(s, c), step).end.results
  {
  }

  lemma OtherResults(s: State, a: Action, c: nat)
    requires Enabled(s, a) && IsConn(s, c) && !(a.On? && a.c == c)
    ensures c < |Exec(s, a).conns| && Exec(s, a).conns[c].end.results == s.conns[c].end.results
  {
  }

  lemma ToldOnceOn(conn: Conn, cli: Cli, step: Step, id: nat)
    requires WaitersOk(conn) && CanStep(conn, cli, step) && id in conn.end.results && conn.end.results[id] != Waiting
    ensures id in StepConn(conn, cli, step).end.results
    ensures StepConn(conn, cli, step).end.results[id] == conn.end.results[id]
  {
  }

  /** When Run returns, everybody registered has an error, and had nothing before. */
  lemma ExitTellsEveryone(s: State, c: nat, step: Step, id: nat)
    requires Reachable(s) && Enabled(s, On(c, step)) && (step.ReceiveError? || step.ObeyShutdown?)
    requires id in s.conns[c].end.waiters
    ensures id in s.conns[c].end.results && s.conns[c].end.results[id] == Waiting
    ensures id in Exec(s, On(c, step)).conns[c].end.results && Exec(s, On(c, step)).conns[c].end.results[id].Failed?
  {
    ReachableOk(s);
    assert ConnOk(s.conns[c], s.clis[s.conns[c].cli]);
  }

  /* ----- Progress ----- */

  /** The loops at the two ends taking in and answering what there is. */
  predicate Handling(step: Step) {
    step.TakeToken? || step.TakePoll? || step.Reply? || step.Receive?
  }

  function Outstanding(conn: Conn, cli: Cli): nat {
    3 * conn.toCli + (if cli.token then 3 else 0) + (if conn.phase.AboutToSend? then 2 else 0) + |conn.toNode|
  }

  predicate Live(s: State, c: nat) {
    IsConn(s, c) && !s.conns[c].broken && s.conns[c].node.Running?
  }

  predicate CanHandle(s: State, c: nat, step: Step) {
    Handling(step) && Enabled(s, On(c, step))
  }

  /** Resolved, or waiting with a poll sent. */
  predicate Accounted(conn: Conn, id: nat) {
    Unresolved(conn, id) || (id in conn.end.results && conn.end.results[id] == Done)
  }

  lemma HandlingStep(s: State, c: nat, step: Step, id: nat)
    requires Reachable(s) && Live(s, c) && CanHandle(s, c, step) && Accounted(s.conns[c], id)
    requires CliOf(s, c).hasSynced || CliOf(s, c).token
    ensures var s' := Exec(s, On(c, step));
      && Reachable(s') && Live(s', c) && Accounted(s'.conns[c], id)
      && (CliOf(s', c).hasSynced || CliOf(s', c).token)
      && Outstanding(s'.conns[c], CliOf(s', c)) < Outstanding(s.conns[c], CliOf(s, c))
  {
    StepReaches(s, On(c, step));
    ReachableOk(s);
    assert ConnOk(s.conns[c], s.clis[s.conns[c].cli]);
  }

  /** Once there is nothing left to take in or answer, nobody waits. */
  lemma QuietMeansResolved(s: State, c: nat, id: nat)
    requires Reachable(s) && Live(s, c) && Accounted(s.conns[c], id)
    requires CliOf(s, c).hasSynced || CliOf(s, c).token
    requires forall step :: !CanHandle(s, c, step)
    ensures s.conns[c].end.results[id] == Done
  {
    ReachableOk(s);
    assert ConnOk(s.conns[c], s.clis[s.conns[c].cli]);
    assert !CanHandle(s, c, TakeToken) && !CanHandle(s, c, TakePoll) && !CanHandle(s, c, Reply)
        && !CanHandle(s, c, Receive);
    if Unresolved(s.conns[c], id) {
      assert false;
    }
  }

  /** However the two ends take turns: a schedule of at most `Outstanding` steps
      in which a step is taken as long as one can be resolves the waiter. */
  ghost predicate Schedule(s: State, c: nat, steps: seq<Step>)
    decreases |steps|
  {
    if steps == [] then forall step :: !CanHandle(s, c, step)
    else CanHandle(s, c, steps[0]) && Schedule(Exec(s, On(c, steps[0])), c, steps[1..])
  }

  function AfterSteps(s: State, c: nat, steps: seq<Step>): State
    decreases |steps|
  {
    if steps == [] || !Enabled(s, On(c, steps[0])) then s else AfterSteps(Exec(s, On(c, steps[0])), c, steps[1..])
  }

  lemma {:induction false} EverySchedule(s: State, c: nat, steps: seq<Step>, id: nat)
    requires Reachable(s) && Live(s, c) && Accounted(s.conns[c], id)
    requires CliOf(s, c).hasSynced || CliOf(s, c).token
    requires Schedule(s, c, steps)
    ensures |steps| <= Outstanding(s.conns[c], CliOf(s, c))
    ensures IsConn(AfterSteps(s, c, steps), c)
    ensures id in AfterSteps(s, c, steps).conns[c].end.results
              && AfterSteps(s, c, steps).conns[c].end.results[id] == Done
    decreases |steps|
  {
    if steps == [] {
      QuietMeansResolved(s, c, id);
    } else {
      HandlingStep(s, c, steps[0], id);
      EverySchedule(Exec(s, On(c, steps[0])), c, steps[1..], id);
    }
  }

  lemma {:induction false} SomeSchedule(s: State, c: nat, id: nat) returns (steps: seq<Step>)
    requires Reachable(s) && Live(s, c) && Accounted(s.conns[c], id)
    requires CliOf(s, c).hasSynced || CliOf(s, c).token
    ensures Schedule(s, c, steps)
    decreases Outstanding(s.conns[c], CliOf(s, c))
  {
    if step :| CanHandle(s, c, step) {
      HandlingStep(s, c, step, id);
      var rest := SomeSchedule(Exec(s, On(c, step)), c, id);
      steps := [step] + rest;
      assert steps[1..] == rest;
    } else {
      steps := [];
    }
  }

  /* ----- Waiters that come, fail and go ----- */

  /** Where a list of actions leads, if each can be taken. */
  function After(s: State, acts: seq<Action>): (r: Option<State>)
    decreases |acts|
  {
    if acts == [] then Some(s)
    else if !Enabled(s, acts[0]) then None
    else After(Exec(s, acts[0]), acts[1..])
  }

  lemma AfterThree(s: State, a1: Action, a2: Action, a3: Action)
    requires Enabled(s, a1) && Enabled(Exec(s, a1), a2) && Enabled(Exec(Exec(s, a1), a2), a3)
    ensures After(s, [a1, a2, a3]) == Some(Exec(Exec(Exec(s, a1), a2), a3))
  {
    assert [a1, a2, a3][1..] == [a2, a3] && [a2, a3][1..] == [a3] && [a3][1..] == [];
    assert After(Exec(Exec(s, a1), a2), [a3]) == Some(Exec(Exec(Exec(s, a1), a2), a3));
  }

  /** The new waiter is counted, and known by a number. */
  lemma NextIdNumbers(s: State, c: nat)
    requires Reachable(s) && Live(s, c)
    ensures var id := s.conns[c].end.idCtr + 1;
      && id !in s.conns[c].end.results && Enabled(s, On(c, NextId))
      && var s' := Exec(s, On(c, NextId));
      && Reachable(s') && Live(s', c) && CliOf(s', c) == CliOf(s, c) && Enabled(s', On(c, Enroll(id)))
  {
    ReachableOk(s);
    assert ConnOk(s.conns[c], s.clis[s.conns[c].cli]);
    StepReaches(s, On(c, NextId));
  }

  /** It is registered before it polls. */
  lemma EnrollRegisters(s: State, c: nat, id: nat)
    requires Reachable(s) && Live(s, c) && Enabled(s, On(c, Enroll(id)))
    ensures var s' := Exec(s, On(c, Enroll(id)));
      && Reachable(s') && Live(s', c) && CliOf(s', c) == CliOf(s, c) && Enabled(s', On(c, Poll(id)))
      && id in s'.conns[c].end.waiters && s'.conns[c].end.results[id] == Waiting
  {
    ReachableOk(s);
    assert ConnOk(s.conns[c], s.clis[s.conns[c].cli]);
    StepReaches(s, On(c, Enroll(id)));
  }

  lemma PollAccounts(s: State, c: nat, id: nat)
    requires Reachable(s) && Live(s, c) && Enabled(s, On(c, Poll(id)))
    requires id in s.conns[c].end.waiters && s.conns[c].end.results[id] == Waiting
    ensures var s' := Exec(s, On(c, Poll(id)));
      Reachable(s') && Live(s', c) && CliOf(s', c) == CliOf(s, c) && Accounted(s'.conns[c], id)
  {
    StepReaches(s, On(c, Poll(id)));
  }

  /** NewWaiter: whoever starts waiting on a live connection waits under a number of
      its own, and is told once the CLI has synced, in whatever order things go. */
  lemma NewWaiterIsTold(s: State, c: nat, steps: seq<Step>)
    requires Reachable(s) && Live(s, c)
    requires CliOf(s, c).hasSynced || CliOf(s, c).token
    ensures var id := s.conns[c].end.idCtr + 1;
      && id !in s.conns[c].end.results
      && var s' := After(s, [On(c, NextId), On(c, Enroll(id)), On(c, Poll(id))]);
      && s'.Some? && IsConn(s'.value, c)
      && (Schedule(s'.value, c, steps) ==>
            && IsConn(AfterSteps(s'.value, c, steps), c)
            && id in AfterSteps(s'.value, c, steps).conns[c].end.results
            && AfterSteps(s'.value, c, steps).conns[c].end.results[id] == Done)
  {
    var id := s.conns[c].end.idCtr + 1;
    NextIdNumbers(s, c);
    var s1 := Exec(s, On(c, NextId));
    EnrollRegisters(s1, c, id);
    var s2 := Exec(s1, On(c, Enroll(id)));
    PollAccounts(s2, c, id);
    var s3 := Exec(s2, On(c, Poll(id)));
    AfterThree(s, On(c, NextId), On(c, Enroll(id)), On(c, Poll(id)));
    if Schedule(s3, c, steps) {
      EverySchedule(s3, c, steps, id);
    }
  }

  lemma PollCanFail(s: State, c: nat, id: nat)
    requires Reachable(s) && IsConn(s, c) && s.conns[c].broken && id in s.conns[c].end.waiters
    ensures Enabled(s, On(c, PollFails(id)))
  {
    ReachableOk(s);
    assert ConnOk(s.conns[c], s.clis[s.conns[c].cli]);
  }

  /** On a broken stream the poll of a registered waiter can fail. Then everybody who
      waits on the connection can be told so in one step, and hears nothing else. */
  lemma FailedPollFailsEverybody(s: State, c: nat, id: nat, other: nat)
    requires Reachable(s) && IsConn(s, c) && s.conns[c].node.Running? && s.conns[c].broken
    requires id in s.conns[c].end.waiters && other in s.conns[c].end.waiters
    ensures Enabled(s, On(c, PollFails(id)))
    ensures var s' := Exec(s, On(c, PollFails(id)));
      && Enabled(s', On(c, ObeyShutdown))
      && other in Exec(s', On(c, ObeyShutdown)).conns[c].end.results
      && Exec(s', On(c, ObeyShutdown)).conns[c].end.results[other].Failed?
  {
    PollCanFail(s, c, id);
    var s' := Exec(s, On(c, PollFails(id)));
    StepReaches(s, On(c, PollFails(id)));
    assert s' == Local(s, c, PollFails(id));
    ExitTellsEveryone(s', c, ObeyShutdown, other);
  }

  /** Given up before it was told anything. */
  predicate Forgotten(conn: Conn, id: nat) {
    id in conn.end.results && conn.end.results[id] == Waiting && id !in conn.end.waiters && id !in conn.numbered
  }

  lemma ForgottenOn(conn: Conn, cli: Cli, step: Step, id: nat)
    requires WaitersOk(conn) && CanStep(conn, cli, step) && Forgotten(conn, id)
    ensures Forgotten(StepConn(conn, cli, step), id)
  {
  }

  /** What others do does not concern it. */
  lemma ForgottenElsewhere(s: State, a: Action, c: nat, id: nat)
    requires Enabled(s, a) && IsConn(s, c) && Forgotten(s.conns[c], id) && !(a.On? && a.c == c)
    ensures c < |Exec(s, a).conns| && Forgotten(Exec(s, a).conns[c], id)
  {
  }

  lemma ForgottenHere(s: State, c: nat, step: Step, id: nat)
    requires Inv(s) && Enabled(s, On(c, step)) && IsConn(s, c) && Forgotten(s.conns[c], id)
    ensures c < |Exec(s, On(c, step)).conns| && Forgotten(Exec(s, On(c, step)).conns[c], id)
  {
    assert ConnOk(s.conns[c], s.clis[s.conns[c].cli]);
    ForgottenOn(s.conns[c], CliOf(s, c), step, id);
    assert step.Accept? || step.Remove? || Exec(s, On(c, step)) == Local(s, c, step);
  }

  lemma ForgottenStep(s: State, a: Action, c: nat, id: nat)
    requires Inv(s) && Enabled(s, a) && c < |s.conns| && Forgotten(s.conns[c], id)
    ensures c < |Exec(s, a).conns| && Forgotten(Exec(s, a).conns[c], id)
  {
    if a.On? && a.c == c {
      ForgottenHere(s, c, a.step, id);
    } else {
      ForgottenElsewhere(s, a, c, id);
    }
  }

  /** A registered waiter can be cancelled at any time. */
  lemma CancelForgets(s: State, c: nat, id: nat)
    requires Reachable(s) && IsConn(s, c) && id in s.conns[c].end.waiters
    ensures Enabled(s, On(c, Cancel(id)))
    ensures var s' := Exec(s, On(c, Cancel(id)));
      ForgottenAt(s', c, id) <==> s.conns[c].end.results[id] == Waiting
  {
    ReachableOk(s);
    assert ConnOk(s.conns[c], s.clis[s.conns[c].cli]);
  }

  predicate ForgottenAt(s: State, c: nat, id: nat) {
    c < |s.conns| && Forgotten(s.conns[c], id)
  }

  lemma NextForgotten(states: seq<State>, acts: seq<Action>, i: nat, c: nat, id: nat)
    requires IsRun(states, acts) && i < |acts| && ForgottenAt(states[i], c, id)
    ensures ForgottenAt(states[i + 1], c, id)
  {
    var a := acts[i];
    RunKeepsInv(states, acts, i);
    ForgottenStep(states[i], a, c, id);
  }

  lemma {:induction false} StaysForgotten(states: seq<State>, acts: seq<Action>, i: nat, k: nat, c: nat, id: nat)
    requires IsRun(states, acts) && i <= k <= |acts| && ForgottenAt(states[i], c, id)
    ensures ForgottenAt(states[k], c, id)
    decreases k - i
  {
    if i < k {
      NextForgotten(states, acts, i, c, id);
      StaysForgotten(states, acts, i + 1, k, c, id);
    }
  }

  /** A waiter that is cancelled before it has been told anything never is. */
  lemma CancelledHearsNothing(states: seq<State>, acts: seq<Action>, i: nat, k: nat, c: nat, id: nat)
    requires IsRun(states, acts) && i < k <= |acts| && acts[i] == On(c, Cancel(id))
    requires IsConn(states[i], c) && id in states[i].conns[c].end.waiters
    requires states[i].conns[c].end.results[id] == Waiting
    ensures c < |states[k].conns| && id in states[k].conns[c].end.results
    ensures states[k].conns[c].end.results[id] == Waiting
  {
    PrefixReaches(states, acts, i);
    CancelForgets(states[i], c, id);
    StaysForgotten(states, acts, i + 1, k, c, id);
  }

  lemma PrefixReaches(states: seq<State>, acts: seq<Action>, k: nat)
    requires IsRun(states, acts) && k <= |acts|
    ensures Reachable(states[k])
  {
    assert IsRun(states[..k + 1], acts[..k]);
  }

  lemma DialConnects(s: State, p: nat)
    requires Reachable(s) && p < |s.clis| && s.clis[p].current.None?
    ensures var s' := Exec(s, Dial(p));
      var c := |s.conns|;
      Reachable(s') && IsConn(s', c) && CliOf(s', c) == s.clis[p].(current := Some(c)) && s'.conns[c] == Dialled(p)
  {
    StepReaches(s, Dial(p));
  }

  /** The connection that is accepted takes over from whatever was registered. */
  lemma AcceptTakesOver(s: State, c: nat)
    requires Reachable(s) && IsConn(s, c) && s.conns[c].node.Accepted? && !s.conns[c].broken
    ensures var s' := Exec(s, On(c, Accept));
      && Reachable(s') && Live(s', c) && CliOf(s', c) == CliOf(s, c)
      && CliOf(s, c).ns in s'.registry && s'.registry[CliOf(s, c).ns] == c
  {
    StepReaches(s, On(c, Accept));
  }

  lemma FinishIsSignalled(s: State, p: nat, c: nat)
    requires Reachable(s) && Live(s, c) && s.conns[c].cli == p
    ensures var s' := Exec(s, FinishSync(p));
      && Reachable(s') && Live(s', c) && CliOf(s', c) == CliOf(s, c).(token := true) && s'.registry == s.registry
  {
    StepReaches(s, FinishSync(p));
  }

  /** A CLI that lost its connection gets another one, which takes over, and on
      which waiters are told once it has synced. */
  lemma RedialsAndSyncs(s: State, p: nat)
    requires Reachable(s) && p < |s.clis| && s.clis[p].current.None?
    ensures var c := |s.conns|;
      var r := After(s, [Dial(p), On(c, Accept), FinishSync(p)]);
      && r.Some? && Reachable(r.value) && Live(r.value, c)
      && CliOf(r.value, c) == s.clis[p].(current := Some(c), token := true)
      && s.clis[p].ns in r.value.registry && r.value.registry[s.clis[p].ns] == c
  {
    var c := |s.conns|;
    DialConnects(s, p);
    var s1 := Exec(s, Dial(p));
    AcceptTakesOver(s1, c);
    var s2 := Exec(s1, On(c, Accept));
    assert s2.conns[c].cli == p by { AcceptKeepsCli(s1, c); }
    FinishIsSignalled(s2, p, c);
    AfterThree(s, Dial(p), On(c, Accept), FinishSync(p));
  }

  lemma AcceptKeepsCli(s: State, c: nat)
    requires Enabled(s, On(c, Accept)) && IsConn(s, c)
    ensures c < |Exec(s, On(c, Accept)).conns| && Exec(s, On(c, Accept)).conns[c].cli == s.conns[c].cli
  {
  }

  /** A CLI leaves a connection that broke, in one step: it cannot reply on it, or
      hears that it is gone. */
  lemma LeavesBroken(s: State, p: nat, c: nat) returns (step: Step)
    requires Reachable(s) && p < |s.clis| && s.clis[p].current == Some(c)
    requires IsConn(s, c) && s.conns[c].cli == p && s.conns[c].broken
    ensures Enabled(s, On(c, step)) && (step.Reply? || step.GiveUp?)
    ensures p < |Exec(s, On(c, step)).clis| && Exec(s, On(c, step)).clis[p].current.None?
  {
    ReachableOk(s);
    assert !s.conns[c].phase.Ended?;
    step := if s.conns[c].phase.Listening? then GiveUp else Reply;
  }

  /* ----- How connections end ----- */

  lemma ReceivesRest(s: State, c: nat) returns (acts: seq<Action>, t: State)
    requires Reachable(s) && IsConn(s, c) && s.conns[c].node.Running? && s.conns[c].broken
    ensures After(s, acts) == Some(t) && Reachable(t) && Enabled(t, On(c, ReceiveError))
    ensures |acts| == |s.conns[c].toNode| && forall a | a in acts :: a == On(c, Receive)
    ensures NsOf(t, c) == NsOf(s, c)
    decreases |s.conns[c].toNode|
  {
    if s.conns[c].toNode == [] {
      acts, t := [], s;
    } else {
      StepReaches(s, On(c, Receive));
      var s' := Exec(s, On(c, Receive));
      var rest;
      rest, t := ReceivesRest(s', c);
      acts := [On(c, Receive)] + rest;
      assert acts[1..] == rest;
    }
  }

  /** The handler of a connection that broke takes in what got through, returns, and
      the connection is no longer registered. */
  lemma BrokenIsRemoved(s: State, c: nat) returns (acts: seq<Action>, t: State)
    requires Reachable(s) && IsConn(s, c) && s.conns[c].node.Running? && s.conns[c].broken
    ensures After(s, acts) == Some(t) && Reachable(t) && |acts| == |s.conns[c].toNode| + 2
    ensures IsConn(t, c) && t.conns[c].node.Gone?
    ensures NsOf(s, c) in t.registry ==> t.registry[NsOf(s, c)] != c
  {
    var first, s1 := ReceivesRest(s, c);
    var s2 := Exec(s1, On(c, ReceiveError));
    StepReaches(s1, On(c, ReceiveError));
    t := Exec(s2, On(c, Remove));
    StepReaches(s2, On(c, Remove));
    acts := first + [On(c, ReceiveError), On(c, Remove)];
    AfterTwo(s1, On(c, ReceiveError), On(c, Remove));
    AfterBoth(s, first, s1, [On(c, ReceiveError), On(c, Remove)]);
  }

  lemma AfterTwo(s: State, a1: Action, a2: Action)
    requires Enabled(s, a1) && Enabled(Exec(s, a1), a2)
    ensures After(s, [a1, a2]) == Some(Exec(Exec(s, a1), a2))
  {
    assert [a1, a2][1..] == [a2] && [a2][1..] == [];
    assert After(Exec(s, a1), [a2]) == Some(Exec(Exec(s, a1), a2));
  }

  lemma {:induction false} AfterBoth(s: State, acts: seq<Action>, t: State, more: seq<Action>)
    requires After(s, acts) == Some(t)
    ensures After(s, acts + more) == After(t, more)
    decreases |acts|
  {
    if acts == [] {
      assert acts + more == more;
    } else {
      var s' := Exec(s, acts[0]);
      AfterBoth(s', acts[1..], t, more);
      assert (acts + more)[0] == acts[0] && (acts + more)[1..] == acts[1..] + more;
      assert After(s, acts + more) == After(s', acts[1..] + more);
    }
  }

  predicate RegisteredFor(s: State, ns: Namespace)
    requires ns in s.registry
  {
    var c := s.registry[ns];
    c < |s.conns| && s.conns[c].cli < |s.clis| && NsOf(s, c) == ns
  }

  /** A connection is registered for the namespace of its CLI. */
  ghost predicate Named(s: State) {
    forall ns | ns in s.registry :: RegisteredFor(s, ns)
  }

  lemma NamedElsewhere(s: State, a: Action)
    requires Named(s) && Enabled(s, a) && (a.On? ==> !a.step.Accept? && !a.step.Remove?)
    ensures Named(Exec(s, a))
  {
    forall ns | ns in Exec(s, a).registry ensures RegisteredFor(Exec(s, a), ns) {
      assert RegisteredFor(s, ns);
    }
  }

  lemma AcceptedFor(s: State, c: nat, ns: Namespace)
    requires Enabled(s, On(c, Accept)) && ns in Exec(s, On(c, Accept)).registry
    requires ns in s.registry ==> RegisteredFor(s, ns)
    ensures RegisteredFor(Exec(s, On(c, Accept)), ns)
  {
    var s' := Exec(s, On(c, Accept));
    var d := s'.registry[ns];
    assert d == if ns == CliOf(s, c).ns then c else s.registry[ns];
    assert s'.conns[d].cli == s.conns[d].cli && s'.clis[s.conns[d].cli].ns == s.clis[s.conns[d].cli].ns;
  }

  lemma NamedAccepted(s: State, c: nat)
    requires Named(s) && Enabled(s, On(c, Accept))
    ensures Named(Exec(s, On(c, Accept)))
  {
    forall ns | ns in Exec(s, On(c, Accept)).registry ensures RegisteredFor(Exec(s, On(c, Accept)), ns) {
      AcceptedFor(s, c, ns);
    }
  }

  lemma NamedRemoved(s: State, c: nat)
    requires Named(s) && Enabled(s, On(c, Remove))
    ensures Named(Exec(s, On(c, Remove)))
  {
    var s' := Exec(s, On(c, Remove));
    forall ns | ns in s'.registry ensures RegisteredFor(s', ns) {
      assert RegisteredFor(s, ns);
    }
  }

  lemma {:induction false} RunKeepsNamed(states: seq<State>, acts: seq<Action>, k: nat)
    requires IsRun(states, acts) && k <= |acts|
    ensures Named(states[k])
  {
    if k > 0 {
      RunKeepsNamed(states, acts, k - 1);
      var a := acts[k - 1];
      if a.On? && a.step.Accept? {
        NamedAccepted(states[k - 1], a.c);
      } else if a.On? && a.step.Remove? {
        NamedRemoved(states[k - 1], a.c);
      } else {
        NamedElsewhere(states[k - 1], a);
      }
    }
  }

  lemma ReachableNamed(s: State)
    requires Reachable(s)
    ensures Named(s)
  {
    var states, acts :| IsRun(states, acts) && s == states[|acts|];
    RunKeepsNamed(states, acts, |acts|);
  }

  /** A connection that serves its namespace, and has not been told to exit. */
  predicate Serves(s: State, c: nat) {
    Live(s, c) && s.conns[c].end.shutdown.None? && NsOf(s, c) in s.registry && s.registry[NsOf(s, c)] == c
  }

  lemma ServesMeanwhile(s: State, a: Action, c: nat)
    requires Enabled(s, a) && Serves(s, c) && !a.On?
    ensures Serves(Exec(s, a), c)
  {
  }

  lemma ServesBeside(s: State, c: nat, d: nat, step: Step)
    requires Enabled(s, On(d, step)) && Serves(s, c) && d != c && !step.Accept?
    ensures Serves(Exec(s, On(d, step)), c)
  {
    assert step.Remove? || Exec(s, On(d, step)) == Local(s, d, step);
  }

  lemma ServesBesideAccepted(s: State, c: nat, d: nat)
    requires Named(s) && Enabled(s, On(d, Accept)) && Serves(s, c) && d != c && NsOf(s, d) != NsOf(s, c)
    ensures Serves(Exec(s, On(d, Accept)), c)
  {
    assert RegisteredFor(s, NsOf(s, c));
    assert NsOf(s, d) in s.registry ==> RegisteredFor(s, NsOf(s, d));
  }

  lemma ServesItself(s: State, c: nat, step: Step)
    requires Enabled(s, On(c, step)) && Serves(s, c) && !step.Break?
    ensures Serves(Exec(s, On(c, step)), c)
  {
    assert Exec(s, On(c, step)) == Local(s, c, step);
  }

  /** It goes on doing so until its stream breaks, or another connection is accepted
      for the namespace. */
  lemma ServesUntilReplaced(s: State, a: Action, c: nat)
    requires Reachable(s) && Enabled(s, a) && Serves(s, c)
    requires a.On? && a.c == c ==> !a.step.Break?
    requires a.On? && a.step.Accept? && IsConn(s, a.c) ==> NsOf(s, a.c) != NsOf(s, c)
    ensures Serves(Exec(s, a), c)
  {
    if !a.On? {
      ServesMeanwhile(s, a, c);
    } else if a.c == c {
      ServesItself(s, c, a.step);
    } else if a.step.Accept? {
      ReachableNamed(s);
      ServesBesideAccepted(s, c, a.c);
    } else {
      ServesBeside(s, c, a.c, a.step);
    }
  }
}
