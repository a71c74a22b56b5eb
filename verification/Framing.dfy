/** The stream format of the gateway: frames one after the other, and the messages a stream holds. */
module Framing {
  import opened Bytes
  import opened Messages
  import opened Codec
  import RoundTrip

  const ENCODING_DEFAULT: U32 := 1164862256

  function FrameHeader(size: nat): (s: seq<Byte>)
    ensures |s| == 8
  {
    Le32(size) + Le32(ENCODING_DEFAULT)
  }

  function Frame(big: bool, m: Message): seq<Byte> {
    FrameHeader(MessageSize(m)) + FlatMessage(big, m)
  }

  function Frames(big: bool, ms: seq<Message>): seq<Byte> {
    if ms == [] then [] else Frame(big, ms[0]) + Frames(big, ms[1..])
  }

  lemma {:induction false} FramesAppend(big: bool, ms: seq<Message>, m: Message)
    ensures Frames(big, ms + [m]) == Frames(big, ms) + Frame(big, m)
  {
    hide Frame;
    if ms != [] {
      FramesAppend(big, ms[1..], m);
      assert (ms + [m])[1..] == ms[1..] + [m];
    }
  }

  function NormalAll(from: bool, to: bool, ms: seq<Message>): (r: seq<Message>)
    ensures |r| == |ms|
  {
    seq(|ms|, i requires 0 <= i < |ms| => Normal(from, to, ms[i]))
  }

  /** What Add accepts: a well-formed message whose frame length fits a uint32. */
  predicate Sendable(m: Message) {
    WellFormed(m) && MessageSize(m) + 8 < WORD
  }

  /** The messages of a stream, the bytes of the frame in progress, and whether that frame can
      only be refused. */
  datatype Decoded = Decoded(msgs: seq<Message>, rest: seq<Byte>, failed: bool)

  predicate HeaderOk(s: seq<Byte>)
    requires |s| >= 8
  {
    FromLe32(s[..4]) != 0 && FromLe32(s[4..8]) == ENCODING_DEFAULT
  }

  function BodySize(s: seq<Byte>): nat
    requires |s| >= 8
  {
    FromLe32(s[..4])
  }

  function Decode(big: bool, s: seq<Byte>): Decoded {
    if |s| < 8 then Decoded([], s, false)
    else if !HeaderOk(s) then Decoded([], s, true)
    else if |s| < 8 + BodySize(s) then Decoded([], s, false)
    else
      var m := Unflatten(big, s[8..8 + BodySize(s)]);
      if !m.Parsed? then Decoded([], s, true)
      else
        var d := Decode(big, s[8 + BodySize(s)..]);
        Decoded([m.value] + d.msgs, d.rest, d.failed)
  }

  predicate FrameComplete(s: seq<Byte>) {
    |s| >= 8 && HeaderOk(s) && |s| >= 8 + BodySize(s)
  }

  /** What the decoding of a stream must be once more bytes follow it. */
  function Continue(big: bool, d: Decoded, t: seq<Byte>): Decoded {
    if d.failed then Decoded(d.msgs, d.rest + t, true)
    else
      var e := Decode(big, d.rest + t);
      Decoded(d.msgs + e.msgs, e.rest, e.failed)
  }

  /** Decoding does not depend on how the stream is cut. */
  lemma {:induction false} DecodeAppend(big: bool, s: seq<Byte>, t: seq<Byte>)
    ensures Decode(big, s + t) == Continue(big, Decode(big, s), t)
    decreases |s|
  {
    hide Decode, Continue, Unflatten, FromLe32;
    if FrameComplete(s) {
      var n := 8 + BodySize(s);
      DecodeAppend(big, s[n..], t);
      CompleteStays(s, t);
      DecodeStep(big, s);
      DecodeStep(big, s + t);
      if Unflatten(big, s[8..n]).Parsed? {
        ContinueAfter(big, Unflatten(big, s[8..n]).value, Decode(big, s[n..]), t);
      } else {
        ContinueFailed(big, s, t);
      }
    } else {
      IncompleteAppend(big, s, t);
    }
  }

  lemma CompleteStays(s: seq<Byte>, t: seq<Byte>)
    requires FrameComplete(s)
    ensures FrameComplete(s + t) && BodySize(s + t) == BodySize(s)
    ensures (s + t)[8..8 + BodySize(s)] == s[8..8 + BodySize(s)]
    ensures (s + t)[8 + BodySize(s)..] == s[8 + BodySize(s)..] + t
  {
    hide FromLe32;
    assert (s + t)[..4] == s[..4] && (s + t)[4..8] == s[4..8];
  }

  lemma ContinueAfter(big: bool, m: Message, d: Decoded, t: seq<Byte>)
    ensures var c := Continue(big, d, t);
      Continue(big, Decoded([m] + d.msgs, d.rest, d.failed), t) == Decoded([m] + c.msgs, c.rest, c.failed)
  {
    hide Decode;
    if !d.failed {
      var e := Decode(big, d.rest + t);
      assert [m] + (d.msgs + e.msgs) == [m] + d.msgs + e.msgs;
    }
  }

  lemma ContinueFailed(big: bool, s: seq<Byte>, t: seq<Byte>)
    ensures Continue(big, Decoded([], s, true), t) == Decoded([], s + t, true)
  {
  }

  lemma IncompleteAppend(big: bool, s: seq<Byte>, t: seq<Byte>)
    requires !FrameComplete(s)
    ensures Decode(big, s + t) == Continue(big, Decode(big, s), t)
  {
    hide Unflatten, FromLe32;
    if |s| >= 8 {
      assert (s + t)[..4] == s[..4] && (s + t)[4..8] == s[4..8];
    }
    if |s| >= 8 && !HeaderOk(s) {
      assert Decode(big, s + t) == Decoded([], s + t, true);
    } else {
      var e := Decode(big, s + t);
      assert Decode(big, s) == Decoded([], s, false);
      assert [] + e.msgs == e.msgs;
    }
  }

  lemma DecodeStep(big: bool, s: seq<Byte>)
    requires FrameComplete(s)
    ensures var m, d := Unflatten(big, s[8..8 + BodySize(s)]), Decode(big, s[8 + BodySize(s)..]);
      Decode(big, s) == if m.Parsed? then Decoded([m.value] + d.msgs, d.rest, d.failed) else Decoded([], s, true)
  {
    hide Unflatten, FromLe32;
  }

  lemma FrameStarts(a: bool, m: Message, t: seq<Byte>)
    requires Sendable(m)
    ensures var s := Frame(a, m) + t;
      |s| >= 8 + MessageSize(m) && HeaderOk(s) && BodySize(s) == MessageSize(m)
      && s[8..8 + MessageSize(m)] == FlatMessage(a, m) && s[8 + MessageSize(m)..] == t
  {
    var s := Frame(a, m) + t;
    FlatMessageSize(a, m);
    assert s[..4] == Le32(MessageSize(m)) && s[4..8] == Le32(ENCODING_DEFAULT);
    Le32RoundTrip(MessageSize(m));
    Le32RoundTrip(ENCODING_DEFAULT);
  }

  lemma {:induction false} DecodeFrames(a: bool, b: bool, ms: seq<Message>)
    requires forall i :: 0 <= i < |ms| ==> Sendable(ms[i])
    ensures Decode(b, Frames(a, ms)) == Decoded(NormalAll(a, b, ms), [], false)
    decreases |ms|
  {
    hide *;
    FramesUnfold(a, b, ms);
    if ms != [] {
      FrameFirst(a, b, ms[0], Frames(a, ms[1..]));
      DecodeFrames(a, b, ms[1..]);
    }
  }

  lemma FramesUnfold(a: bool, b: bool, ms: seq<Message>)
    ensures ms == [] ==> Decode(b, Frames(a, ms)) == Decoded([], [], false) && NormalAll(a, b, ms) == []
    ensures ms != [] ==>
      && Frames(a, ms) == Frame(a, ms[0]) + Frames(a, ms[1..])
      && NormalAll(a, b, ms) == [Normal(a, b, ms[0])] + NormalAll(a, b, ms[1..])
  {
    hide Frame, Normal;
  }

  lemma FrameFirst(a: bool, b: bool, m: Message, t: seq<Byte>)
    requires Sendable(m)
    ensures var d := Decode(b, t);
      Decode(b, Frame(a, m) + t) == Decoded([Normal(a, b, m)] + d.msgs, d.rest, d.failed)
  {
    hide Unflatten, FlatMessage, Normal, Frame, FromLe32;
    FrameStarts(a, m, t);
    RoundTrip.UnflattenOfFlatten(a, b, m, []);
    assert FlatMessage(a, m) + [] == FlatMessage(a, m);
  }

  /** A receiver that has seen only part of the frames has decoded the first messages and refused
      nothing; with all the bytes it has decoded them all. */
  lemma DecodePrefix(a: bool, b: bool, ms: seq<Message>, p: seq<Byte>, t: seq<Byte>)
    requires forall i :: 0 <= i < |ms| ==> Sendable(ms[i])
    requires p + t == Frames(a, ms)
    ensures !Decode(b, p).failed && Decode(b, p).msgs <= NormalAll(a, b, ms)
    ensures t == [] ==> Decode(b, p) == Decoded(NormalAll(a, b, ms), [], false)
  {
    hide Decode, Frames, Sendable;
    DecodeFrames(a, b, ms);
    DecodeAppend(b, p, t);
    if t == [] {
      assert p + t == p;
    }
  }
}
