/** The link proxy's end of a tunnel, read through buffers of any size. */
module LinkTunnel {

  type Bytes = seq<bv8>

  datatype Message = Data(bytes: Bytes) | Eof | Ended | Broken

  /** What Read returns besides the number of bytes. It blocks when there is
      nothing to receive yet. */
  datatype Status = Ok | EndOfFile | Canceled | Failed | Blocked

  /** The bytes of the leading messages, up to the first that is not data. */
  function Payload(messages: seq<Message>): Bytes {
    if messages == [] || !messages[0].Data? then [] else messages[0].bytes + Payload(messages[1..])
  }

  /** How the end of the data is told. */
  predicate Reports(status: Status, msg: Message) {
    match status
    case EndOfFile => msg.Eof?
    case Canceled => msg.Ended?
    case Failed => msg.Broken?
    case _ => false
  }

  class TunnelConn {
    var pendingData: Bytes
    /** What the tunnel has brought, or will. */
    var incoming: seq<Message>
    var closed: bool

    /** The bytes that reading can still return. */
    function Ahead(): Bytes
      reads this
    {
      pendingData + Payload(incoming)
    }

    constructor (incoming: seq<Message>)
      ensures Ahead() == Payload(incoming) && this.incoming == incoming && pendingData == [] && !closed
    {
      this.incoming := incoming;
      pendingData, closed := [], false;
    }

    /** What is returned is the next part of what is ahead. Only the part of the
        buffer that is said to be filled has changed. */
    method Read(b: array<bv8>) returns (n: nat, status: Status)
      modifies this, b
      ensures n <= b.Length && b[n..] == old(b[n..])
      ensures status.Ok? ==> b[..n] + Ahead() == old(Ahead())
      ensures status.Ok? && b.Length > 0 && n == 0 ==>
                old(pendingData) == [] && old(incoming) != [] && old(incoming)[0].Data? && |old(incoming)[0].bytes| == 0
      ensures status.Ok? ==>
                incoming == old(incoming) || (old(incoming) != [] && incoming == old(incoming)[1..])
      ensures !status.Ok? ==> n == 0 && old(Ahead()) == [] && pendingData == []
      ensures status.Blocked? <==> old(pendingData) == [] && old(incoming) == []
      ensures !status.Ok? && !status.Blocked? ==>
                old(incoming) != [] && incoming == old(incoming)[1..] && Reports(status, old(incoming)[0])
      ensures closed == (old(closed) || status.Canceled?)
    {
      if |pendingData| > 0 {
        n := Copy(b, pendingData);
        assert pendingData == pendingData[..n] + pendingData[n..];
        pendingData := if n < |pendingData| then pendingData[n..] else [];
        return n, Ok;
      }
      if incoming == [] {
        return 0, Blocked;
      }
      var msg := incoming[0];
      incoming := incoming[1..];
      match msg {
        case Ended =>
          closed := true;
          return 0, Canceled;
        case Broken =>
          return 0, Failed;
        case Eof =>
          return 0, EndOfFile;
        case Data(msgBuf) =>
          n := Copy(b, msgBuf);
          assert msgBuf == msgBuf[..n] + msgBuf[n..];
          if n < |msgBuf| {
            pendingData := msgBuf[n..];
          }
          return n, Ok;
      }
    }
  }

  /** Go's copy: as much as fits. */
  method Copy(b: array<bv8>, source: Bytes) returns (n: nat)
    modifies b
    ensures n == if |source| <= b.Length then |source| else b.Length
    ensures b[..n] == source[..n] && b[n..] == old(b[n..])
  {
    n := if |source| <= b.Length then |source| else b.Length;
    for i := 0 to n
      invariant b[..i] == source[..i]
      invariant forall k | i <= k < b.Length :: b[k] == old(b[k])
    {
      b[i] := source[i];
    }
  }

  /** However the reader sizes its buffers, what it has read, followed by what is
      pending, is what has been received. */
  method ReadAll(conn: TunnelConn, sizes: seq<nat>) returns (read: Bytes, status: Status)
    modifies conn
    ensures status.Ok? ==> read + conn.Ahead() == old(conn.Ahead())
    ensures !status.Ok? ==> read == old(conn.Ahead())
  {
    read, status := [], Ok;
    for k := 0 to |sizes|
      invariant status.Ok? && read + conn.Ahead() == old(conn.Ahead())
    {
      var b := new bv8[sizes[k]];
      ghost var ahead := conn.Ahead();
      var n;
      n, status := conn.Read(b);
      if !status.Ok? {
        assert read + ahead == read;
        return;
      }
      assert read + ahead == (read + b[..n]) + conn.Ahead();
      read := read + b[..n];
    }
  }
}
