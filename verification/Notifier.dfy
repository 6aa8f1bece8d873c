/** The CLI's end of the sync protocol: it answers every poll, announces the sync
    when it completes, and remembers it over all the streams that follow. */
module Notifier {
  import opened SyncProtocol

  /** What the select of the loop comes up with: the sync has completed, or there
      is a poll, each followed by a reply that may not get through; or the stream
      has ended. */
  datatype Event = Synced(sent: bool) | Poll(sent: bool) | Ended

  /** How much of a stream is handled: up to the first event that ends it, or whose
      reply does not get through, if there is one. */
  function Handled(events: seq<Event>): (n: nat)
    ensures n <= |events|
    ensures forall i | 0 <= i < n - 1 :: !events[i].Ended? && events[i].sent
    ensures n < |events| ==> n > 0 && (events[n - 1].Ended? || !events[n - 1].sent)
  {
    if events == [] then 0
    else if events[0].Ended? || !events[0].sent then 1
    else 1 + Handled(events[1..])
  }

  predicate AnySynced(events: seq<Event>, n: nat)
    requires n <= |events|
  {
    exists i | 0 <= i < n :: events[i].Synced?
  }

  /** Each reply tells whether the sync had completed before the stream, or by the
      event that it answers. */
  predicate AllTell(replies: seq<bool>, events: seq<Event>, before: bool) {
    |replies| <= |events| && forall i | 0 <= i < |replies| :: replies[i] == (before || AnySynced(events, i + 1))
  }

  class Notifier {
    var hasSynced: bool

    constructor ()
      ensures !hasSynced
    {
      hasSynced := false;
    }

    /** One stream: the loop goes on to the first event that ends it, or whose reply
        does not get through, or to the last one. There is a reply for each event
        before that, which tells whether the sync had completed by then, on this
        stream or an earlier one. */
    method RunServer(events: seq<Event>) returns (replies: seq<bool>)
      modifies this
      ensures |replies| <= |events|
      ensures forall i | 0 <= i < |replies| :: !events[i].Ended? && events[i].sent
      ensures |replies| < |events| ==> events[|replies|].Ended? || !events[|replies|].sent
      ensures forall i | 0 <= i < |replies| ::
        replies[i] == (old(hasSynced) || exists k | 0 <= k <= i :: events[k].Synced?)
      ensures hasSynced == (old(hasSynced) || exists k | 0 <= k <= |replies| && k < |events| :: events[k].Synced?)
    {
      replies := [];
      while |replies| < |events|
        invariant |replies| <= |events| && forall i | 0 <= i < |replies| :: !events[i].Ended? && events[i].sent
        invariant hasSynced == (old(hasSynced) || AnySynced(events, |replies|))
        invariant AllTell(replies, events, old(hasSynced))
        decreases |events| - |replies|
      {
        var n := |replies|;
        match events[n] {
          case Synced(sent) => hasSynced := true;
          case Poll(sent) =>
          case Ended => return;
        }
        assert AnySynced(events, n + 1) <==> AnySynced(events, n) || events[n].Synced?;
        if !events[n].sent {
          return;
        }
        replies := replies + [hasSynced];
      }
    }

    /** A stream after the other, each dialled when the one before has ended. Once
        the sync has completed, every reply on every later stream says so. */
    method Run(streams: seq<seq<Event>>) returns (replies: seq<seq<bool>>)
      modifies this
      ensures |replies| == |streams| && forall k | 0 <= k < |streams| ::
        Handled(streams[k]) - 1 <= |replies[k]| <= Handled(streams[k])
      ensures forall k | 0 <= k < |streams| ::
        AllTell(replies[k], streams[k], old(hasSynced) || SyncedBefore(streams, k))
      ensures hasSynced == (old(hasSynced) || SyncedBefore(streams, |streams|))
    {
      replies := [];
      for k := 0 to |streams|
        invariant |replies| == k && forall j | 0 <= j < k ::
          Handled(streams[j]) - 1 <= |replies[j]| <= Handled(streams[j])
        invariant hasSynced == (old(hasSynced) || SyncedBefore(streams, k))
        invariant forall j | 0 <= j < k :: AllTell(replies[j], streams[j], old(hasSynced) || SyncedBefore(streams, j))
      {
        ghost var before := hasSynced;
        var r := RunServer(streams[k]);
        HandledIs(streams[k], |r|);
        assert AllTell(r, streams[k], before);
        assert hasSynced == (before || AnySynced(streams[k], Handled(streams[k])));
        replies := replies + [r];
      }
    }
  }

  lemma {:induction false} HandledIs(events: seq<Event>, replies: nat)
    requires replies <= |events| && forall i | 0 <= i < replies :: !events[i].Ended? && events[i].sent
    requires replies < |events| ==> events[replies].Ended? || !events[replies].sent
    ensures Handled(events) == if replies < |events| then replies + 1 else replies
  {
    if replies > 0 {
      HandledIs(events[1..], replies - 1);
    }
  }

  /** The sync completed on one of the first `k` streams. */
  predicate SyncedBefore(streams: seq<seq<Event>>, k: nat)
    requires k <= |streams|
  {
    exists j | 0 <= j < k :: AnySynced(streams[j], Handled(streams[j]))
  }

  /** Handling an event is what the two steps of the protocol come to: taking in
      the news or the poll, and replying. */
  lemma HandlingIsTwoSteps(conn: Conn, cli: Cli, e: Event)
    requires conn.phase.Listening? && !conn.broken && !e.Ended? && e.sent
    requires if e.Synced? then cli.token else conn.toCli > 0
    ensures var take := if e.Synced? then TakeToken else TakePoll;
      && CanStep(conn, cli, take)
      && var conn', cli' := StepConn(conn, cli, take), StepCli(conn, cli, take);
      && CanStep(conn', cli', Reply)
      && StepConn(conn', cli', Reply).toNode == conn.toNode + [cli.hasSynced || e.Synced?]
      && StepCli(conn', cli', Reply).hasSynced == (cli.hasSynced || e.Synced?)
  {
  }
}
