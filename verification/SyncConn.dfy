/** The node controller's end of the sync connections: the waiters of one
    connection, and the registry of connections. */
module SyncConn {
  import opened Wrappers

  type Namespace = string
  type Error = string

  /** What a waiter's channel has to say: nothing yet, that it was closed because
      the sync completed, or an error. */
  datatype Result = Waiting | Done | Failed(err: Error)

  /** One connection as its methods leave it. `results` also remembers the
      waiters that are no longer registered. */
  datatype NodeEnd = NodeEnd(waiters: set<nat>, results: map<nat, Result>, idCtr: nat, shutdown: Option<Error>) {

    /** Ids are not used twice, and a registered waiter was never told that the
        sync completed. */
    ghost predicate Valid() {
      && waiters <= results.Keys
      && (forall id | id in results :: id <= idCtr)
      && (forall id | id in waiters :: results[id] != Done)
    }

    function Numbered(): NodeEnd {
      this.(results := results[idCtr + 1 := Waiting], idCtr := idCtr + 1)
    }

    function Enrolled(id: nat): NodeEnd {
      this.(waiters := waiters + {id})
    }

    function Registered(): NodeEnd {
      Numbered().Enrolled(idCtr + 1)
    }

    function Cancelled(id: nat): NodeEnd {
      this.(waiters := waiters - {id})
    }

    /** Everybody but the waiters in `left` has been told of the sync. */
    function Notifying(left: set<nat>): NodeEnd {
      this.(waiters := left, results := map id | id in results :: if id in waiters - left then Done else results[id])
    }

    function Notified(): NodeEnd {
      Notifying({})
    }

    function Closed(id: nat): NodeEnd {
      this.(waiters := waiters - {id}, results := results[id := Done])
    }

    lemma CloseNext(left: set<nat>, id: nat)
      requires id in left && left <= waiters <= results.Keys
      ensures Notifying(left).Closed(id) == Notifying(left - {id})
    {
      assert Notifying(left).Closed(id).results == Notifying(left - {id}).results;
    }

    function ShutDown(err: Error): NodeEnd {
      if shutdown.None? then this.(shutdown := Some(err)) else this
    }

    function Fail(id: nat, err: Error): NodeEnd
      requires id in results
    {
      this.(results := results[id := if results[id] == Waiting then Failed(err) else results[id]])
    }

    /** Everybody but the waiters in `left` has an error. */
    function Draining(left: set<nat>, err: Error): NodeEnd {
      this.(results := map id | id in results ::
        if id in waiters - left && results[id] == Waiting then Failed(err) else results[id])
    }

    function Drained(err: Error): NodeEnd {
      Draining({}, err)
    }

    lemma FailNext(left: set<nat>, id: nat, err: Error)
      requires id in left && left <= waiters <= results.Keys
      ensures Draining(left, err).Fail(id, err) == Draining(left - {id}, err)
    {
      assert Draining(left, err).Fail(id, err).results == Draining(left - {id}, err).results;
    }
  }

  const NEW_END := NodeEnd({}, map[], 0, None)

  /** A channel with room for one error. */
  class ResultChan {
    var closed: bool
    var buffer: Option<Error>

    constructor ()
      ensures !closed && buffer == None
    {
      closed, buffer := false, None;
    }

    function Value(): Result
      reads this
    {
      if closed then Done else if buffer.Some? then Failed(buffer.value) else Waiting
    }

    /** Closing a closed channel panics. */
    method Close()
      requires !closed
      modifies this
      ensures Value() == Done
    {
      closed := true;
    }

    /** So does sending on one; a full channel drops the error. */
    method TrySend(err: Error)
      requires !closed
      modifies this
      ensures Value() == if old(Value()) == Waiting then Failed(err) else old(Value())
      ensures !closed
    {
      if buffer.None? {
        buffer := Some(err);
      }
    }
  }

  lemma UpdatedAt<K, V>(before: map<K, V>, after: map<K, V>, key: K, value: V)
    requires after.Keys == before.Keys + {key} && after[key] == value
    requires forall k | k in before && k != key :: after[k] == before[k]
    ensures after == before[key := value]
  {
  }

  class CliConn {
    var waiters: map<nat, ResultChan>
    var idCtr: nat
    var shutdown: Option<Error>
    ghost var issued: map<nat, ResultChan>

    ghost predicate Valid()
      reads this, issued.Values
    {
      && (forall id | id in waiters :: id in issued && waiters[id] == issued[id])
      && (forall id | id in issued :: id <= idCtr)
      && (forall id, id' | id in issued && id' in issued && id != id' :: issued[id] != issued[id'])
      && (forall id | id in waiters :: !issued[id].closed)
    }

    ghost function Value(): (v: NodeEnd)
      requires Valid()
      reads this, issued.Values
      ensures v.Valid()
    {
      NodeEnd(waiters.Keys, map id | id in issued :: issued[id].Value(), idCtr, shutdown)
    }

    constructor ()
      ensures Valid() && Value() == NEW_END && issued == map[]
    {
      waiters, idCtr, shutdown := map[], 0, None;
      issued := map[];
    }

    /** The first half of NewWaiter: the waiter is registered before the poll is
        sent. */
    method Register() returns (id: nat, w: ResultChan)
      requires Valid()
      modifies this`waiters, this`idCtr, this`issued
      ensures Valid() && Value() == old(Value()).Registered()
      ensures id !in old(issued) && issued == old(issued)[id := w] && waiters == old(waiters)[id := w]
      ensures fresh(w) && w.Value() == Waiting
    {
      ghost var was := Value();
      w := new ResultChan();
      id := NextId(w);
      assert Value() == was.Numbered();
      Enroll(id, w);
    }

    method NextId(w: ResultChan) returns (id: nat)
      requires Valid() && w.Value() == Waiting && forall k | k in issued :: issued[k] != w
      modifies this`idCtr, this`issued
      ensures Valid() && Value() == old(Value()).Numbered()
      ensures id !in old(issued) && issued == old(issued)[id := w]
    {
      ghost var was := Value();
      idCtr := idCtr + 1;
      id := idCtr;
      issued := issued[id := w];
      UpdatedAt(was.results, Value().results, id, Waiting);
    }

    method Enroll(id: nat, w: ResultChan)
      requires Valid() && id in issued && issued[id] == w && !w.closed
      modifies this`waiters
      ensures Valid() && Value() == old(Value()).Enrolled(id)
      ensures waiters == old(waiters)[id := w]
    {
      waiters := waiters[id := w];
    }

    method Cancel(id: nat)
      requires Valid()
      modifies this
      ensures Valid() && Value() == old(Value()).Cancelled(id)
      ensures waiters == old(waiters) - {id} && issued == old(issued) && shutdown == old(shutdown)
    {
      waiters := waiters - {id};
    }

    method Shutdown(err: Error)
      requires Valid()
      modifies this`shutdown
      ensures Valid() && Value() == old(Value()).ShutDown(err)
      ensures shutdown == if old(shutdown).None? then Some(err) else old(shutdown)
    {
      if shutdown.None? {
        shutdown := Some(err);
      }
    }

    /** Closes one waiter's channel, which was not closed before. */
    method CloseOne(id: nat)
      requires Valid() && id in waiters
      modifies this`waiters, waiters[id]
      ensures Valid() && issued == old(issued) && waiters == old(waiters) - {id}
      ensures Value() == old(Value()).Closed(id)
    {
      ghost var was := Value();
      var w := waiters[id];
      w.Close();
      waiters := waiters - {id};
      forall k | k in issued && k != id ensures issued[k].Value() == was.results[k] {
        assert issued[k] != w;
      }
      UpdatedAt(was.results, Value().results, id, Done);
    }

    /** The CLI has said that it is synced. */
    method Notify()
      requires Valid()
      modifies this`waiters, waiters.Values
      ensures Valid() && Value() == old(Value()).Notified() && issued == old(issued)
      ensures waiters == map[]
      ensures forall id | id in issued ::
        if id in old(waiters) then issued[id].closed else issued[id].Value() == old(issued[id].Value())
    {
      ghost var was := Value();
      assert was == was.Notifying(waiters.Keys);
      while waiters.Keys != {}
        invariant Valid() && issued == old(issued)
        invariant waiters.Keys <= was.waiters
        invariant Value() == was.Notifying(waiters.Keys)
        decreases waiters.Keys
      {
        var id :| id in waiters.Keys;
        assert waiters[id] == old(waiters)[id];
        was.CloseNext(waiters.Keys, id);
        CloseOne(id);
      }
      forall id | id in issued
        ensures if id in old(waiters) then issued[id].closed else issued[id].Value() == was.results[id]
      {
        assert Value().results[id] == was.Notified().results[id];
      }
    }

    /** Leaves an error for one waiter, on a channel that is not closed. */
    method FailOne(id: nat, err: Error)
      requires Valid() && id in waiters
      modifies waiters[id]
      ensures Valid() && issued == old(issued)
      ensures Value() == old(Value()).Fail(id, err)
    {
      ghost var was := Value();
      var w := waiters[id];
      w.TrySend(err);
      forall k | k in issued && k != id ensures issued[k].Value() == was.results[k] {
        assert issued[k] != w;
      }
      assert Value().results == was.Fail(id, err).results;
    }

    /** Run's last act: whoever is registered is told that the connection is going
        away. */
    method Drain(err: Error)
      requires Valid()
      modifies waiters.Values
      ensures Valid() && Value() == old(Value()).Drained(err) && issued == old(issued)
      ensures forall id | id in issued ::
        issued[id].Value() ==
        if id in waiters && old(issued[id].Value()) == Waiting then Failed(err) else old(issued[id].Value())
    {
      ghost var was := Value();
      var left := waiters.Keys;
      assert was.results == was.Draining(left, err).results;
      while left != {}
        invariant Valid() && issued == old(issued) && left <= waiters.Keys
        invariant Value() == was.Draining(left, err)
        decreases left
      {
        var id :| id in left;
        was.FailNext(left, id, err);
        FailOne(id, err);
        left := left - {id};
      }
      forall id | id in issued ensures issued[id].Value() == was.Drained(err).results[id] {
        assert Value().results[id] == was.Drained(err).results[id];
      }
    }
  }

  const SUPERSEDED: Error := "new connection supersedes stale stream"

  class SyncTracker {
    var conns: map<Namespace, CliConn>

    constructor ()
      ensures conns == map[]
    {
      conns := map[];
    }

    /** A new connection takes the place of the old one, which is told to exit. */
    method Connect(namespace: Namespace) returns (cc: CliConn)
      requires namespace in conns ==> conns[namespace].Valid()
      modifies this, (if namespace in conns then {conns[namespace]} else {})`shutdown
      ensures fresh(cc) && cc.Valid() && cc.Value() == NEW_END
      ensures conns == old(conns)[namespace := cc]
      ensures namespace in old(conns) ==>
        var stale := old(conns)[namespace];
        stale.Valid() && stale.Value() == old(conns[namespace].Value()).ShutDown(SUPERSEDED)
    {
      if namespace in conns {
        conns[namespace].Shutdown(SUPERSEDED);
      }
      cc := new CliConn();
      conns := conns[namespace := cc];
    }

    /** A connection whose Run has returned is removed, unless another one has
        replaced it. */
    method Disconnect(namespace: Namespace, cc: CliConn)
      modifies this
      ensures conns == if namespace in old(conns) && old(conns)[namespace] == cc then old(conns) - {namespace}
                else old(conns)
    {
      if namespace in conns && conns[namespace] == cc {
        conns := conns - {namespace};
      }
    }
  }
}
