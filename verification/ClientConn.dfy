/** The writing end of a connection, as send uses it: a buffered writer over a socket that may fail at any byte. The
    lock makes calls of Send follow one another; the lines they begin form the stream of IpcProtocol. */
module ClientConnection {
  import opened Basics
  import opened IpcProtocol
  import IpcTheorems

  /** The default buffer size of bufio. */
  const BUFFER_SIZE := 4096

  class ClientConn {
    var wire: string
    var buffer: string
    var broken: bool
    ghost const codec: Codec
    ghost var sent: seq<Sent>
    /** What the writer was given but never took, after an error. */
    ghost var lost: string

    /** The connection as the machine sees it between two calls of Send. */
    ghost function View(): Conn
      reads this
    {
      Conn(wire, buffer + lost, broken, false, None, [], sent)
    }

    ghost predicate Valid()
      reads this
    {
      Whole(codec, View()) && |buffer| <= BUFFER_SIZE && (!broken ==> buffer == "" && lost == "")
    }

    constructor (ghost codec: Codec)
      ensures Valid() && this.codec == codec && wire == "" && sent == [] && !broken
    {
      this.codec := codec;
      wire, buffer, broken, sent, lost := "", "", false, [], "";
    }

    /** conn.Write: takes some of the data; all of it unless it fails. */
    method SocketWrite(data: string) returns (n: nat, ok: bool)
      modifies this`wire
      ensures n <= |data| && (ok ==> n == |data|)
      ensures wire == old(wire) + data[..n]
    {
      ok := *;
      n :| 0 <= n <= |data|;
      if ok { n := |data|; }
      wire := wire + data[..n];
    }

    /** bufio.Writer.Flush. */
    method Flush()
      requires |buffer| <= BUFFER_SIZE
      modifies this`wire, this`buffer, this`broken
      ensures wire + buffer == old(wire + buffer) && |buffer| <= BUFFER_SIZE
      ensures old(wire) <= wire && (old(broken) ==> wire == old(wire) && broken)
      ensures !broken ==> buffer == ""
    {
      if broken || buffer == "" { return; }
      var n, ok := SocketWrite(buffer);
      ghost var all := buffer;
      assert all == all[..n] + all[n..];
      buffer := buffer[n..];
      if !ok { broken := true; }
    }

    /** bufio.Writer.Write: returns what it did not take. */
    method Write(data: string) returns (ok: bool, ghost rest: string)
      requires |buffer| <= BUFFER_SIZE
      modifies this`wire, this`buffer, this`broken
      ensures wire + (buffer + rest) == old(wire + buffer) + data && |buffer| <= BUFFER_SIZE
      ensures old(wire) <= wire && (old(broken) ==> wire == old(wire) && buffer == old(buffer) && broken)
      ensures ok == !broken && (ok ==> rest == "")
    {
      var p := data;
      ghost var all := old(wire + buffer) + data;
      while |p| > BUFFER_SIZE - |buffer| && !broken
        invariant |buffer| <= BUFFER_SIZE && old(wire) <= wire
                  && (old(broken) ==> wire == old(wire) && buffer == old(buffer) && broken)
        invariant wire + buffer + p == all
        decreases !broken, |p|, |buffer|
      {
        var n;
        if buffer == "" {
          var sent;
          n, sent := SocketWrite(p);
          if !sent { broken := true; }
        } else {
          n := BUFFER_SIZE - |buffer|;
          buffer := buffer + p[..n];
          Flush();
        }
        assert p == p[..n] + p[n..];
        p := p[n..];
      }
      rest := p;
      if broken {
        assert wire + buffer + p == wire + (buffer + p);
        return false, rest;
      }
      buffer := buffer + p;
      rest := "";
      return true, rest;
    }

    /** send. The message's line goes on the wire whole unless a write fails; after a failure nothing more is
        written. */
    method Send(msg: Sent, data: string, marshals: bool)
      requires Valid() && data == codec(msg.message)
      modifies this
      ensures Valid()
      ensures sent == if marshals && !old(broken) then old(sent) + [msg] else old(sent)
      ensures old(wire) <= wire && (old(broken) ==> wire == old(wire) && broken)
      ensures !broken ==> wire == Joined(codec, sent)
    {
      if !marshals { return; }
      if broken {
        var ok, rest := Write(data + "\n");
        return;
      }
      IpcTheorems.JoinedSnoc(codec, sent, msg);
      assert wire + buffer == Joined(codec, sent) && data + "\n" == Line(codec, msg);
      sent := sent + [msg];
      var ok;
      ok, lost := Write(data + "\n");
      if !ok { return; }
      assert buffer + lost == buffer;
      Flush();
      assert buffer + lost == buffer;
    }
  }
}
