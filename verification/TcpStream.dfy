/** The receiving side of the resolver's TCP connection: length-prefixed messages (section 4.2.2 of
    RFC 1035) rebuilt from whatever pieces the socket gives. */
module TcpStream {
  import opened Bytes

  /** The complete payloads of a stream, and the bytes after them. */
  datatype Frames = Frames(payloads: seq<seq<Byte>>, rest: seq<Byte>)

  function Length(s: seq<Byte>): nat
    requires |s| >= 2
  {
    var hi: int, lo: int := s[0], s[1];
    hi * 256 + lo
  }

  function Split(s: seq<Byte>): Frames {
    if |s| < 2 || |s| < 2 + Length(s) then Frames([], s)
    else
      var tail := Split(s[2 + Length(s)..]);
      Frames([s[2..2 + Length(s)]] + tail.payloads, tail.rest)
  }

  lemma SplitStep(s: seq<Byte>)
    requires |s| >= 2 && |s| >= 2 + Length(s)
    ensures var tail := Split(s[2 + Length(s)..]); Split(s) == Frames([s[2..2 + Length(s)]] + tail.payloads, tail.rest)
  {
    hide Length;
  }

  /** How the payloads are cut out does not depend on how the stream arrived. */
  lemma {:induction false} SplitAppend(s: seq<Byte>, t: seq<Byte>)
    ensures var f, g := Split(s), Split(Split(s).rest + t);
      Split(s + t) == Frames(f.payloads + g.payloads, g.rest)
    decreases |s|
  {
    if |s| < 2 || |s| < 2 + Length(s) {
      assert [] + Split(s + t).payloads == Split(s + t).payloads;
    } else {
      var n := 2 + Length(s);
      assert (s + t)[2..n] == s[2..n] && (s + t)[n..] == s[n..] + t;
      SplitAppend(s[n..], t);
      var f, g := Split(s[n..]), Split(Split(s[n..]).rest + t);
      assert [s[2..n]] + (f.payloads + g.payloads) == [s[2..n]] + f.payloads + g.payloads;
    }
  }

  /** What is left over is an incomplete frame. */
  lemma {:induction false} RestIsIncomplete(s: seq<Byte>)
    ensures Split(Split(s).rest) == Frames([], Split(s).rest)
    decreases |s|
  {
    if |s| >= 2 && |s| >= 2 + Length(s) {
      RestIsIncomplete(s[2 + Length(s)..]);
    }
  }

  /** The sender's side: each payload behind its length. */
  function Framed(ps: seq<seq<Byte>>): seq<Byte> {
    if ps == [] then []
    else Prefix(|ps[0]|) + ps[0] + Framed(ps[1..])
  }

  function Prefix(n: nat): (s: seq<Byte>)
    ensures |s| == 2
    ensures n < 65536 ==> Length(s) == n
  {
    [n / 256 % 256, n % 256]
  }

  lemma {:induction false} SplitOfFramed(ps: seq<seq<Byte>>, t: seq<Byte>)
    requires forall i :: 0 <= i < |ps| ==> |ps[i]| < 65536
    ensures Split(Framed(ps) + t) == Frames(ps + Split(t).payloads, Split(t).rest)
    decreases |ps|
  {
    hide *;
    FramedUnfold(ps);
    if ps == [] {
      assert [] + t == t && ps + Split(t).payloads == Split(t).payloads;
    } else {
      var p, tail, q := ps[0], Framed(ps[1..]), Split(t).payloads;
      assert Prefix(|p|) + p + tail + t == Prefix(|p|) + p + (tail + t);
      SplitHead(p, tail + t);
      SplitOfFramed(ps[1..], t);
      assert ps + q == [p] + (ps[1..] + q);
    }
  }

  lemma FramedUnfold(ps: seq<seq<Byte>>)
    ensures Framed(ps) == if ps == [] then [] else Prefix(|ps[0]|) + ps[0] + Framed(ps[1..])
  {
  }

  lemma SplitHead(p: seq<Byte>, t: seq<Byte>)
    requires |p| < 65536
    ensures Split(Prefix(|p|) + p + t) == Frames([p] + Split(t).payloads, Split(t).rest)
  {
    hide Prefix;
    var s, n := Prefix(|p|) + p + t, 2 + |p|;
    assert s[..2] == Prefix(|p|) && s[0] == s[..2][0] && s[1] == s[..2][1];
    assert s[2..n] == p && s[n..] == t;
  }

  /** What one read of the socket does. */
  datatype ReadEvent =
    | Data(bytes: seq<Byte>)
    | WouldBlock
    | Interrupted
    | NoResources
    | Failed

  /** Bounds the reads a call can make on a finite script of events. */
  function Cost(script: seq<ReadEvent>): nat {
    if script == [] then 0
    else (if script[0].Data? then 1 + |script[0].bytes| else 1) + Cost(script[1..])
  }

  /** The bytes the events of a script hold. */
  function Given(script: seq<ReadEvent>): seq<Byte> {
    if script == [] then [] else (if script[0].Data? then script[0].bytes else []) + Given(script[1..])
  }

  /** The script from the first event on that is not bytes or an interrupted read. */
  function Stop(script: seq<ReadEvent>): seq<ReadEvent> {
    if script == [] then []
    else if script[0].Interrupted? || (script[0].Data? && script[0].bytes != []) then Stop(script[1..])
    else script
  }

  /** Taking some of the bytes of the first event. */
  lemma GivenPart(script: seq<ReadEvent>, n: nat)
    requires script != [] && script[0].Data? && 0 < n < |script[0].bytes|
    ensures var rest := [Data(script[0].bytes[n..])] + script[1..];
      script[0].bytes[..n] + Given(rest) == Given(script) && Stop(rest) == Stop(script)
  {
    var bytes := script[0].bytes;
    var rest := [Data(bytes[n..])] + script[1..];
    assert rest[1..] == script[1..];
    assert bytes[..n] + (bytes[n..] + Given(script[1..])) == bytes + Given(script[1..]);
  }

  class TcpReceiver {
    var buf: array<Byte>
    var used: nat
    var skip: nat
    /** tcpstate is server_ok. */
    var connected: bool
    /** Since the connection was made: the bytes read, and the payloads given to adns__procdgram. */
    ghost var received: seq<Byte>
    ghost var delivered: seq<seq<Byte>>

    /** Between calls. */
    ghost predicate Valid()
      reads this, buf
    {
      && skip == 0 && used <= buf.Length
      && (connected ==> Split(received) == Frames(delivered, buf[..used]))
      && (!connected ==> used == 0 && delivered <= Split(received).payloads)
    }

    constructor ()
      ensures Valid() && !connected
    {
      buf := new Byte[0];
      used, skip, connected, received, delivered := 0, 0, false, [], [];
    }

    /** tcp_connected. */
    method Connect()
      requires Valid() && !connected
      modifies `connected, `received, `delivered
      ensures Valid() && connected && received == [] && delivered == []
    {
      connected, received, delivered := true, [], [];
    }

    /** adns__tcp_broken, as far as the buffer is concerned. */
    method Broken()
      modifies `connected, `used, `skip
      ensures !connected && used == 0 && skip == 0
    {
      connected, used, skip := false, 0, 0;
    }

    /** adns__vbuf_ensure. */
    method Ensure(want: nat)
      requires used <= buf.Length
      modifies `buf
      ensures buf.Length >= want && used <= buf.Length && buf[..used] == old(buf[..used])
      ensures buf == old(buf) || fresh(buf)
    {
      if buf.Length < want {
        var nb := new Byte[want];
        forall i | 0 <= i < used {
          nb[i] := buf[i];
        }
        assert nb[..used] == buf[..used];
        buf := nb;
      }
    }

    /** The progress of the loop: what is still in the buffer decides the payloads to come. */
    ghost predicate Reading()
      reads this, buf
    {
      && skip <= used <= buf.Length
      && (connected ==>
        var f := Split(buf[skip..used]);
        Split(received) == Frames(delivered + f.payloads, f.rest))
      && (!connected ==> used == 0 && skip == 0 && delivered <= Split(received).payloads)
    }

    /** The memmove that drops the bytes already handled. */
    method Compact()
      requires Reading()
      modifies `used, `skip, buf
      ensures Reading() && skip == 0 && used == old(used) - old(skip) && buf[..used] == old(buf[skip..used])
      ensures connected ==> Split(buf[..used]) == Split(old(buf[skip..used]))
    {
      ghost var kept := buf[skip..used];
      var n := used - skip;
      forall i | 0 <= i < n {
        buf[i] := buf[skip + i];
      }
      used, skip := n, 0;
      assert buf[skip..used] == kept && buf[..used] == kept;
    }

    /** The branch that finds a whole message: step over it and process it, which breaks the connection
        if `breaks`. */
    method HandleFrame(n: nat, breaks: bool)
      requires Reading() && connected && used >= skip + 2 + n && n == Length(buf[skip..used])
      modifies `connected, `used, `skip, `delivered
      ensures Reading() && received == old(received) && delivered == old(delivered) + [old(buf[skip + 2..skip + 2 + n])]
      ensures connected <==> !breaks
      ensures connected ==> used == old(used) && skip == old(skip) + 2 + n
    {
      hide Split;
      ghost var rest := buf[skip..used];
      SplitFirst(rest, delivered);
      assert rest[2..2 + n] == buf[skip + 2..skip + 2 + n] && rest[2 + n..] == buf[skip + 2 + n..used];
      delivered := delivered + [buf[skip + 2..skip + 2 + n]];
      skip := skip + 2 + n;
      if breaks {
        Broken();
      }
    }

    static lemma SplitFirst(s: seq<Byte>, done: seq<seq<Byte>>)
      requires |s| >= 2 && |s| >= 2 + Length(s)
      ensures var f, g := Split(s), Split(s[2 + Length(s)..]);
        f.rest == g.rest && done + f.payloads == done + [s[2..2 + Length(s)]] + g.payloads
    {
      hide *;
      SplitStep(s);
      var p, g := s[2..2 + Length(s)], Split(s[2 + Length(s)..]);
      assert done + ([p] + g.payloads) == done + [p] + g.payloads;
    }

    /** os_sock_read delivered bytes. */
    method TakeIn(bytes: seq<Byte>)
      requires Reading() && connected && skip == 0 && used + |bytes| <= buf.Length
      modifies `used, `received, buf
      ensures Reading() && used == old(used) + |bytes| && received == old(received) + bytes
      ensures buf[..used] == old(buf[..used]) + bytes
    {
      hide Split;
      ghost var held := buf[..used];
      assert buf[skip..used] == held;
      forall i | 0 <= i < |bytes| {
        buf[used + i] := bytes[i];
      }
      used := used + |bytes|;
      assert buf[..used] == held + bytes && buf[skip..used] == held + bytes;
      SplitAppend(received, bytes);
      SplitAppend(held, bytes);
      received := received + bytes;
      var f, g := Split(held), Split(Split(held).rest + bytes);
      assert delivered + (f.payloads + g.payloads) == delivered + f.payloads + g.payloads;
    }

    /** adns_processreadable on the TCP socket, the socket behaving as the script says; breaks says
        of which message, counted from the beginning of the call, the processing breaks the connection.
        No byte is lost; a call that leaves the connection up stops at the first event that is neither
        bytes nor an interrupted read, and reports an error exactly if that is a lack of resources. The
        connection goes down with the first message that breaks it, or because the socket fails or ends
        once every complete message was handed on. */
    method ProcessReadable(script: seq<ReadEvent>, breaks: nat -> bool) returns (error: bool, left: seq<ReadEvent>)
      requires Valid() && connected
      modifies this, buf
      ensures Valid() && old(delivered) <= delivered
      ensures received + Given(left) == old(received) + Given(script) && old(received) <= received
      ensures var n := |delivered| - |old(delivered)|; forall k :: 0 <= k < n && breaks(k) ==> !connected && k == n - 1
      ensures connected ==>
        var stop := Stop(script);
        && left == (if stop == [] then [] else stop[1..]) && (stop != [] ==> stop[0] in {WouldBlock, NoResources})
        && (error <==> stop != [] && stop[0] == NoResources)
      ensures !connected ==>
        var n := |delivered| - |old(delivered)|;
        !error && (Ended(script, left) || (n > 0 && breaks(n - 1)))
    {
      hide Split, Given, Stop;
      error, left := false, script;
      var n := 0;
      SplitWhole();
      while connected
        invariant Reading() && (buf == old(buf) || fresh(buf))
        invariant old(received) <= received && old(delivered) <= delivered
        invariant received + Given(left) == old(received) + Given(script) && (connected ==> Stop(left) == Stop(script))
        invariant n == |delivered| - |old(delivered)|
        invariant forall k :: 0 <= k < n && breaks(k) ==> !connected && k == n - 1
        invariant !connected ==> Ended(script, left) || (n > 0 && breaks(n - 1))
        decreases Cost(left), connected, used - skip
      {
        var want := 2;
        if used >= skip + 2 {
          var dgramlen := Length(buf[skip..used]);
          if used >= skip + 2 + dgramlen {
            HandleFrame(dgramlen, breaks(n));
            n := n + 1;
            continue;
          }
          want := 2 + dgramlen;
        }
        Compact();
        Ensure(want);
        SplitRest();
        GivenNext(left, received);
        var event := if left == [] then WouldBlock else left[0];
        match event {
          case Data(_) =>
            left := ReadSome(left);
          case WouldBlock =>
            return false, if left == [] then [] else left[1..];
          case Interrupted =>
            left := left[1..];
          case NoResources =>
            return true, left[1..];
          case Failed =>
            Broken();
            left := left[1..];
        }
      }
    }

    /** The socket failed or came to its end, and all that was complete had been handed on. */
    ghost predicate Ended(script: seq<ReadEvent>, left: seq<ReadEvent>)
      reads `received, `delivered
    {
      var stop := Stop(script);
      && stop != [] && (stop[0] == Failed || stop[0] == Data([])) && left == stop[1..]
      && delivered == Split(received).payloads
    }

    /** os_sock_read with bytes to give, as many as there is room for; none is the end of the
        stream. */
    method ReadSome(script: seq<ReadEvent>) returns (left: seq<ReadEvent>)
      requires Reading() && connected && skip == 0 && used < buf.Length && script != [] && script[0].Data?
      modifies `connected, `used, `skip, `received, buf
      ensures Reading() && skip == 0 && received + Given(left) == old(received) + Given(script)
      ensures connected ==> Stop(left) == Stop(script) && Cost(left) < Cost(script) && old(received) <= received
      ensures !connected ==> script[0] == Data([]) && left == script[1..] && Cost(left) < Cost(script) && received == old(received)
    {
      hide Split, Given, Stop;
      GivenNext(script, received);
      var bytes := script[0].bytes;
      left := script[1..];
      if bytes == [] {
        Broken();
      } else if |bytes| <= buf.Length - used {
        TakeIn(bytes);
      } else {
        var room := buf.Length - used;
        GivenPart(script, room);
        ghost var had := received;
        TakeIn(bytes[..room]);
        left := [Data(bytes[room..])] + left;
        assert left[1..] == script[1..];
        assert had + (bytes[..room] + Given(left)) == received + Given(left);
      }
    }

    /** What the first event is, to the bytes and to where the reading stops. */
    static lemma GivenNext(left: seq<ReadEvent>, received: seq<Byte>)
      ensures left == [] ==> Given(left) == [] && Stop(left) == []
      ensures left != [] && left[0].Data? ==> received + Given(left) == received + left[0].bytes + Given(left[1..])
      ensures left != [] && left[0].Data? && left[0].bytes == [] ==> Given(left) == Given(left[1..])
      ensures left != [] && !left[0].Data? ==> Given(left) == Given(left[1..])
      ensures left != [] ==>
        Stop(left) == if left[0].Interrupted? || (left[0].Data? && left[0].bytes != []) then Stop(left[1..]) else left
    {
    }

    lemma SplitWhole()
      requires Valid()
      ensures Reading()
    {
      RestIsIncomplete(received);
      assert buf[skip..used] == buf[..used];
      assert delivered + [] == delivered;
    }

    lemma SplitRest()
      requires Reading() && skip == 0 && connected && (used < 2 || used < 2 + Length(buf[..used]))
      ensures Valid()
    {
      var w := buf[skip..used];
      assert w == buf[..used];
      assert Split(w) == Frames([], w);
      assert delivered + [] == delivered;
    }
  }
}
