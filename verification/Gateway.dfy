/** MMessageGateway: queues frames, sends them through partial writes, and rebuilds messages from
    partial reads in a buffer that grows and shrinks. */
module Gateway {
  import opened Bytes
  import opened Messages
  import opened Codec
  import opened CodecMethods
  import opened Framing

  const HEADERS: nat := 8
  const SMALL_BUFFER: nat := 64 * 1024
  /** Room for the next-pointer at the head of every output buffer. */
  const POINTER_SIZE: nat := 8

  /** The byte pipe behind the send and receive callbacks: it may take or give less than asked,
      or report an error. */
  class Link {
    var transit: seq<Byte>

    constructor ()
      ensures transit == []
    {
      transit := [];
    }

    method Send(bytes: seq<Byte>) returns (n: int)
      modifies this
      ensures -1 <= n <= |bytes|
      ensures transit == if n < 0 then old(transit) else old(transit) + bytes[..n]
    {
      n :| -1 <= n <= |bytes|;
      if n >= 0 {
        transit := transit + bytes[..n];
      }
    }

    method Receive(most: nat) returns (n: int, bytes: seq<Byte>)
      modifies this
      ensures -1 <= n <= most && |bytes| == (if n < 0 then 0 else n)
      ensures old(transit) == bytes + transit
    {
      n :| -1 <= n <= most && n <= |transit|;
      if n < 0 {
        bytes := [];
      } else {
        bytes, transit := transit[..n], transit[n..];
      }
    }
  }

  /** The phases of the receiver, given the bytes of the frame in progress: reading the two header
      words, reading a body whose length they gave, or stuck behind a frame it has refused. */
  predicate Phase(big: bool, held: seq<Byte>, max: nat) {
    if max == HEADERS then |held| < HEADERS || (|held| == HEADERS && !HeaderOk(held))
    else
      && HEADERS <= |held| <= max && HeaderOk(held) && max == HEADERS + BodySize(held)
      && (|held| == max ==> !Unflatten(big, held[HEADERS..]).Parsed?)
  }

  lemma HeaderKept(held: seq<Byte>, more: seq<Byte>)
    requires |held| >= HEADERS
    ensures HeaderOk(held + more) == HeaderOk(held) && BodySize(held + more) == BodySize(held)
  {
    assert (held + more)[..4] == held[..4] && (held + more)[4..8] == held[4..8];
  }

  lemma DecodeWhole(big: bool, s: seq<Byte>)
    requires |s| > HEADERS && HeaderOk(s) && |s| == HEADERS + BodySize(s)
    ensures var m := Unflatten(big, s[HEADERS..]);
      Decode(big, s) == if m.Parsed? then Decoded([m.value], [], false) else Decoded([], s, true)
  {
    hide Unflatten, FromLe32;
    assert s[HEADERS..HEADERS + BodySize(s)] == s[HEADERS..];
    assert s[HEADERS + BodySize(s)..] == [];
    DecodeStep(big, s);
  }

  function Min(a: nat, b: nat): (r: nat)
    ensures r <= a && r <= b && (r == a || r == b)
  {
    if a <= b then a else b
  }

  /** An MByteBuffer of the output queue; its bytes do not change once the frame is in it. */
  class OutBuffer {
    const bytes: seq<Byte>
    var next: OutBuffer?

    constructor (bytes: seq<Byte>)
      ensures this.bytes == bytes && next == null
    {
      this.bytes := bytes;
      next := null;
    }
  }

  class MessageGateway {
    const big: bool
    var curInput: array<Byte>
    var curOutput: OutBuffer?
    var outputTail: OutBuffer?
    var curInputPos: nat
    var maxInputPos: nat
    var curOutputPos: nat

    /** The output queue, head first. */
    ghost var queue: seq<OutBuffer>
    /** The messages unflattened so far and the bytes of their frames. */
    ghost var parsed: seq<Message>
    ghost var base: seq<Byte>

    ghost predicate ValidOutput()
      reads `curOutput, `outputTail, `curOutputPos, `queue, queue
    {
      && curOutput == (if queue == [] then null else queue[0])
      && outputTail == (if queue == [] then null else queue[|queue| - 1])
      && (forall i, j {:trigger queue[i], queue[j]} :: 0 <= i && j == i + 1 < |queue| ==> queue[i].next == queue[j])
      && (queue != [] ==> queue[|queue| - 1].next == null)
      && (forall i, j :: 0 <= i < j < |queue| ==> queue[i] != queue[j])
      && (forall i :: 0 <= i < |queue| ==> |queue[i].bytes| > POINTER_SIZE)
      && POINTER_SIZE <= curOutputPos
      && (if queue == [] then curOutputPos == POINTER_SIZE else curOutputPos < |queue[0].bytes|)
    }

    /** The bytes of the frame in progress. */
    ghost function Held(): seq<Byte>
      reads `curInput, `curInputPos, curInput
    {
      if curInputPos <= curInput.Length then curInput[..curInputPos] else []
    }

    /** Every byte taken from the link so far. */
    ghost function Received(): seq<Byte>
      reads `curInput, `curInputPos, `base, curInput
    {
      base + Held()
    }

    ghost predicate Buffered()
      reads `curInput, `curInputPos, `maxInputPos, `parsed, `base, curInput
    {
      && HEADERS <= curInput.Length && curInputPos <= maxInputPos <= curInput.Length
      && (curInput.Length <= SMALL_BUFFER || curInput.Length == 2 * maxInputPos)
      && Decode(big, base) == Decoded(parsed, [], false)
    }

    ghost predicate ValidInput()
      reads `curInput, `curInputPos, `maxInputPos, `parsed, `base, curInput
    {
      Buffered() && Phase(big, Held(), maxInputPos)
    }

    ghost predicate Valid()
      reads this, queue, curInput
    {
      ValidOutput() && ValidInput()
    }

    constructor (big: bool)
      ensures Valid() && fresh(curInput) && this.big == big
      ensures Pending() == [] && Received() == [] && parsed == [] && queue == []
    {
      this.big := big;
      outputTail, curOutput := null, null;
      curInputPos, curOutputPos, maxInputPos := 0, POINTER_SIZE, HEADERS;
      curInput := new Byte[HEADERS];
      queue, parsed, base := [], [], [];
    }

    /** The bytes queued and not yet taken by the link. */
    ghost function Pending(): seq<Byte>
      requires ValidOutput()
      reads `curOutput, `outputTail, `curOutputPos, `queue, queue
    {
      if queue == [] then [] else queue[0].bytes[curOutputPos..] + Tail(queue[1..])
    }

    static ghost function Tail(q: seq<OutBuffer>): seq<Byte>
      requires forall i :: 0 <= i < |q| ==> |q[i].bytes| > POINTER_SIZE
    {
      if q == [] then [] else q[0].bytes[POINTER_SIZE..] + Tail(q[1..])
    }

    static lemma {:induction false} TailAppend(q: seq<OutBuffer>, b: OutBuffer)
      requires |b.bytes| > POINTER_SIZE && forall i :: 0 <= i < |q| ==> |q[i].bytes| > POINTER_SIZE
      ensures Tail(q + [b]) == Tail(q) + b.bytes[POINTER_SIZE..]
    {
      if q != [] {
        assert (q + [b])[1..] == q[1..] + [b];
        TailAppend(q[1..], b);
      }
    }

    /** MGAddOutgoingMessage. */
    method AddOutgoingMessage(msg: Message)
      requires ValidOutput() && Sendable(msg)
      modifies `curOutput, `outputTail, `curOutputPos, `queue, queue
      ensures ValidOutput()
      ensures queue != [] && fresh(queue[|queue| - 1]) && queue[..|queue| - 1] == old(queue)
      ensures Pending() == old(Pending()) + Frame(big, msg)
    {
      hide *;
      var bytes := FlattenFrame(msg);
      var buf := new OutBuffer(bytes);
      NotQueued(buf);
      Enqueue(buf);
    }

    twostate lemma NotQueued(new buf: OutBuffer)
      requires fresh(buf) && queue == old(queue)
      ensures buf !in queue
    {
    }

    method Enqueue(buf: OutBuffer)
      requires ValidOutput() && buf !in queue && buf.next == null && |buf.bytes| > POINTER_SIZE
      modifies `curOutput, `outputTail, `queue, queue
      ensures ValidOutput() && queue == old(queue) + [buf]
      ensures Pending() == old(Pending()) + buf.bytes[POINTER_SIZE..]
    {
      hide Tail;
      ghost var before := queue;
      PendingAppend(buf);
      if outputTail != null {
        outputTail.next := buf;
        outputTail := buf;
      } else {
        curOutput, outputTail := buf, buf;
      }
      queue := queue + [buf];
      assert before != [] ==> queue[1..] == before[1..] + [buf];
      assert before == [] ==> queue[1..] == [];
    }

    lemma PendingAppend(buf: OutBuffer)
      requires ValidOutput() && |buf.bytes| > POINTER_SIZE
      ensures Tail([]) == []
      ensures queue != [] ==> Tail(queue[1..] + [buf]) == Tail(queue[1..]) + buf.bytes[POINTER_SIZE..]
    {
      if queue != [] {
        TailAppend(queue[1..], buf);
      }
    }

    /** The output buffer for a message: next-pointer, frame header, image. */
    method FlattenFrame(msg: Message) returns (bytes: seq<Byte>)
      requires Sendable(msg)
      ensures |bytes| > POINTER_SIZE && bytes[POINTER_SIZE..] == Frame(big, msg)
    {
      hide FlatMessage, MessageSize, Le32, WellFormed;
      var flatSize := MessageSize(msg);
      var data := new Byte[POINTER_SIZE + HEADERS + flatSize];
      var off := WriteData(data, POINTER_SIZE, Le32(flatSize));
      off := WriteData(data, off, Le32(ENCODING_DEFAULT));
      off := FlattenMessage(big, msg, data, off);
      bytes := data[..];
      assert data[..] == data[..off];
    }

    /** One turn of MGDoOutput's loop: offers at most `budget` bytes of the head buffer, and drops
        the buffer once it is sent. A budget of zero changes nothing and asks for another turn. */
    method SendChunk(link: Link, budget: nat) returns (sent: int, offered: nat)
      requires ValidOutput() && curOutput != null
      modifies `curOutput, `outputTail, `curOutputPos, `queue, link
      ensures ValidOutput()
      ensures queue == old(queue) || queue == old(queue)[1..]
      ensures -1 <= sent <= offered <= budget && (budget > 0 ==> offered > 0)
      ensures link.transit + Pending() == old(link.transit + Pending())
      ensures |old(Pending())| == |Pending()| + (if sent < 0 then 0 else sent)
      ensures budget == 0 && sent >= 0 ==> sent == offered && queue == old(queue) && curOutputPos == old(curOutputPos)
    {
      hide *;
      PendingHead();
      offered := Min(|curOutput.bytes| - curOutputPos, budget);
      sent := link.Send(curOutput.bytes[curOutputPos..curOutputPos + offered]);
      if sent >= 0 {
        Advance(sent);
      }
    }

    /** The sent bytes leave the queue; a buffer sent to its end is dropped. */
    method Advance(sent: nat)
      requires ValidOutput() && curOutput != null && curOutputPos + sent <= |curOutput.bytes|
      modifies `curOutput, `outputTail, `curOutputPos, `queue
      ensures ValidOutput() && (queue == old(queue) || queue == old(queue)[1..])
      ensures sent <= |old(Pending())| && Pending() == old(Pending())[sent..]
      ensures sent == 0 ==> queue == old(queue) && curOutputPos == old(curOutputPos)
    {
      ghost var pending := Pending();
      curOutputPos := curOutputPos + sent;
      if curOutputPos == |curOutput.bytes| {
        ghost var q := queue;
        assert |q| > 1 ==> q[0].next == q[1];
        var next := curOutput.next;
        if next == null {
          outputTail := null;
        }
        curOutput := next;
        curOutputPos := POINTER_SIZE;
        queue := queue[1..];
        assert pending[sent..] == Tail(queue);
      }
    }

    lemma PendingHead()
      requires ValidOutput() && curOutput != null
      ensures queue != [] && POINTER_SIZE <= curOutputPos < |curOutput.bytes|
      ensures curOutput.bytes[curOutputPos..] <= Pending()
    {
    }

    /** MGDoOutput. spins: the budget is used up and something is still queued; the loop offers no
        byte, the link takes none, and so on for as long as the link reports no error. */
    method DoOutput(link: Link, maxBytes: nat) returns (total: int, spins: bool)
      requires ValidOutput()
      modifies `curOutput, `outputTail, `curOutputPos, `queue, link
      ensures ValidOutput()
      ensures |queue| <= |old(queue)| && queue == old(queue)[|old(queue)| - |queue|..]
      ensures link.transit + Pending() == old(link.transit + Pending())
      ensures -1 <= total <= maxBytes && (total >= 0 ==> |Pending()| == |old(Pending())| - total)
      ensures spins <==> total == maxBytes < |old(Pending())|
    {
      hide *;
      total, spins := 0, false;
      var budget := maxBytes;
      while curOutput != null
        invariant ValidOutput()
        invariant |queue| <= |old(queue)| && queue == old(queue)[|old(queue)| - |queue|..]
        invariant 0 <= total && 0 <= budget && total + budget == maxBytes && |Pending()| == |old(Pending())| - total
        invariant link.transit + Pending() == old(link.transit + Pending())
        decreases |Pending()|
      {
        PendingHead();
        assert |Pending()| > 0;
        var sent, offered := SendChunk(link, budget);
        if sent < 0 {
          return -1, false;
        }
        if budget == 0 {
          return total, true;
        }
        total, budget := total + sent, budget - sent;
        if sent < offered {
          return;
        }
      }
      NothingPending();
    }

    lemma NothingPending()
      requires ValidOutput() && curOutput == null
      ensures Pending() == []
    {
    }

    /** What has been parsed is what the received bytes hold; the receiver is stuck exactly when
        those bytes end in a frame that must be refused. */
    lemma DecodedSoFar()
      requires ValidInput()
      ensures Decode(big, Received()) == Decoded(parsed, Held(), curInputPos == maxInputPos)
    {
      hide Unflatten, FromLe32;
      DecodeAppend(big, base, Held());
      assert [] + Held() == Held();
      if |Held()| > HEADERS && |Held()| == maxInputPos {
        DecodeWhole(big, Held());
      }
      assert parsed + [] == parsed;
    }

    /** One turn of MGDoInput's loop: asks for at most `budget` of the missing bytes, and acts when
        none is missing. `got` is the message this turn completed. */
    method ReceiveChunk(link: Link, budget: nat)
      returns (n: int, asked: nat, got: Option<Message>, refused: bool, ghost taken: seq<Byte>)
      requires ValidInput()
      modifies `curInput, `curInputPos, `maxInputPos, `parsed, `base, curInput, link
      ensures ValidInput() && (curInput == old(curInput) || fresh(curInput))
      ensures -1 <= n <= asked <= budget
      ensures asked == Min(old(maxInputPos - curInputPos), budget)
      ensures |taken| == (if n < 0 then 0 else n)
      ensures Received() == old(Received()) + taken && old(link.transit) == taken + link.transit
      ensures parsed == if got.Some? then old(parsed) + [got.value] else old(parsed)
      ensures refused <==> n >= 0 && curInputPos == maxInputPos
      ensures refused || n <= 0 ==> got.None?
      ensures n < 0 ==> got.None? && curInputPos == old(curInputPos) && maxInputPos == old(maxInputPos)
      ensures old(curInputPos == maxInputPos) && n >= 0 ==> refused
    {
      hide Unflatten, Decode, FromLe32;
      got, refused := None, false;
      asked := Min(maxInputPos - curInputPos, budget);
      var bytes;
      n, bytes := link.Receive(asked);
      taken := bytes;
      if n >= 0 {
        ghost var held := Held();
        StoreInput(bytes);
        assert bytes == [] ==> held + bytes == held;
        if held != [] && |held| >= HEADERS {
          HeaderKept(held, bytes);
        }
        if curInputPos == maxInputPos {
          if curInputPos > HEADERS {
            got := FinishBody();
            refused := got.None?;
          } else {
            refused := FinishHeader();
          }
        }
      }
    }

    method StoreInput(bytes: seq<Byte>)
      requires Buffered() && curInputPos + |bytes| <= maxInputPos
      modifies `curInputPos, curInput
      ensures Buffered() && curInputPos == old(curInputPos) + |bytes|
      ensures Held() == old(Held()) + bytes
    {
      forall i | 0 <= i < |bytes| {
        curInput[curInputPos + i] := bytes[i];
      }
      curInputPos := curInputPos + |bytes|;
    }

    /** The body is complete: unflatten it, or refuse the frame and stay. */
    method FinishBody() returns (got: Option<Message>)
      requires Buffered() && HEADERS < curInputPos == maxInputPos
      requires HeaderOk(Held()) && maxInputPos == HEADERS + BodySize(Held())
      modifies `curInput, `curInputPos, `maxInputPos, `parsed, `base
      ensures ValidInput() && (curInput == old(curInput) || fresh(curInput))
      ensures Received() == old(Received())
      ensures got.Some? <==> Unflatten(big, old(Held())[HEADERS..]).Parsed?
      ensures got.Some? ==> curInputPos < maxInputPos && parsed == old(parsed) + [got.value]
      ensures got.None? ==> curInputPos == maxInputPos && parsed == old(parsed)
    {
      hide Unflatten, Decode, FromLe32;
      var msg := UnflattenMessage(big, curInput[HEADERS..maxInputPos]);
      assert curInput[HEADERS..maxInputPos] == Held()[HEADERS..];
      got := None;
      if msg.Parsed? {
        DecodeWhole(big, Held());
        DecodeAppend(big, base, Held());
        assert [] + Held() == Held();
        base, parsed := base + Held(), parsed + [msg.value];
        curInputPos, maxInputPos := 0, HEADERS;
        if curInput.Length > SMALL_BUFFER {
          curInput := new Byte[SMALL_BUFFER];
        }
        got := Some(msg.value);
      }
    }

    /** Both header words are in: make room for the body, or refuse the frame and stay. */
    method FinishHeader() returns (refused: bool)
      requires Buffered() && curInputPos == maxInputPos == HEADERS
      modifies `curInput, `maxInputPos
      ensures ValidInput() && (curInput == old(curInput) || fresh(curInput))
      ensures Held() == old(Held()) && (refused <==> maxInputPos == HEADERS) && (refused <==> !HeaderOk(Held()))
    {
      hide Unflatten, Decode, FromLe32;
      var header := curInput[..HEADERS];
      refused := !HeaderOk(header);
      assert Held() == header;
      if !refused {
        var bodySize := HEADERS + BodySize(header);
        if bodySize > curInput.Length {
          var bigBuf := new Byte[2 * bodySize];
          forall i | 0 <= i < curInputPos {
            bigBuf[i] := curInput[i];
          }
          assert bigBuf[..HEADERS] == curInput[..HEADERS];
          curInput := bigBuf;
        }
        maxInputPos := bodySize;
        assert Held() == header;
      }
    }

    /** MGDoInput. With `want` the call returns the first message it completes; without, it drops them
        and reads on. spins: the budget is used up in the middle of a message; the loop asks for no
        byte, gets none, and so on for as long as the link reports no error. */
    method DoInput(link: Link, maxBytes: nat, want: bool) returns (total: int, msg: Option<Message>, spins: bool)
      requires ValidInput()
      modifies `curInput, `curInputPos, `maxInputPos, `parsed, `base, curInput, link
      ensures ValidInput() && (curInput == old(curInput) || fresh(curInput))
      ensures Received() + link.transit == old(Received() + link.transit)
      ensures total >= 0 ==> |Received()| == |old(Received())| + total && curInputPos < maxInputPos
      ensures total <= maxBytes && total <= |old(link.transit)|
      ensures spins <==> total == maxBytes && msg.None?
      ensures want ==> parsed == if msg.Some? then old(parsed) + [msg.value] else old(parsed)
      ensures old(curInputPos == maxInputPos) ==>
        total == -1 && msg.None? && Received() == old(Received()) && parsed == old(parsed)
    {
      hide Unflatten, Decode, FromLe32, Phase;
      total, msg, spins := 0, None, false;
      var budget := maxBytes;
      while true
        invariant ValidInput() && (curInput == old(curInput) || fresh(curInput))
        invariant Received() + link.transit == old(Received() + link.transit)
        invariant 0 <= budget && total + budget == maxBytes && total + |link.transit| == |old(link.transit)|
        invariant total >= 0 && |Received()| == |old(Received())| + total
        invariant want ==> parsed == old(parsed)
        invariant old(curInputPos == maxInputPos) ==>
          curInputPos == maxInputPos && Received() == old(Received()) && parsed == old(parsed)
        invariant !old(curInputPos == maxInputPos) ==> curInputPos < maxInputPos
        decreases |link.transit|
      {
        var n, asked, got, refused, taken := ReceiveChunk(link, budget);
        if n < 0 || refused {
          return -1, None, false;
        }
        if asked == 0 {
          return total, None, true;
        }
        total, budget := total + n, budget - n;
        if want && got.Some? {
          msg := got;
          break;
        }
        if n < asked {
          break;
        }
      }
    }
  }
}
