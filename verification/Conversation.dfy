/** Two gateways joined by a link: what the receiving side is handed, over every run. */
module Conversation {
  import opened Bytes
  import opened Messages
  import opened Framing
  import opened Codec
  import opened Gateway

  datatype Action =
    | Queue(msg: Message)
    | Output(maxBytes: nat)
    | Input(maxBytes: nat)

  /** The messages a script queues, in order. */
  function Queued(script: seq<Action>): seq<Message> {
    if script == [] then []
    else
      var n := |script| - 1;
      Queued(script[..n]) + if script[n].Queue? then [script[n].msg] else []
  }

  lemma {:induction false} QueuedSendable(script: seq<Action>)
    requires forall i :: 0 <= i < |script| && script[i].Queue? ==> Sendable(script[i].msg)
    ensures forall j :: 0 <= j < |Queued(script)| ==> Sendable(Queued(script)[j])
    decreases |script|
  {
    if script != [] {
      QueuedSendable(script[..|script| - 1]);
    }
  }

  lemma QueuedStep(script: seq<Action>, i: nat)
    requires i < |script|
    ensures Queued(script[..i + 1]) == Queued(script[..i]) + if script[i].Queue? then [script[i].msg] else []
  {
    assert script[..i + 1][..i] == script[..i];
  }

  /** Every run: whatever is queued, however the link cuts the bytes, and whenever it fails, no byte
      is lost between the two sides; the caller has been handed the first of the messages, in normal
      form and in order; once no byte is under way it has them all; and the receiver has refused
      nothing. */
  method Converse(senderBig: bool, receiverBig: bool, script: seq<Action>)
    returns (delivered: seq<Message>, sender: MessageGateway, receiver: MessageGateway, link: Link)
    requires forall i :: 0 <= i < |script| && script[i].Queue? ==> Sendable(script[i].msg)
    ensures sender.ValidOutput() && receiver.ValidInput()
    ensures receiver.Received() + (link.transit + sender.Pending()) == Frames(senderBig, Queued(script))
    ensures delivered == receiver.parsed && delivered <= NormalAll(senderBig, receiverBig, Queued(script))
    ensures link.transit + sender.Pending() == [] ==> delivered == NormalAll(senderBig, receiverBig, Queued(script))
    ensures receiver.curInputPos < receiver.maxInputPos
  {
    hide *;
    sender := new MessageGateway(senderBig);
    receiver := new MessageGateway(receiverBig);
    link := new Link();
    delivered := [];
    NothingQueued(senderBig, script);
    for i := 0 to |script|
      invariant sender.ValidOutput() && receiver.ValidInput()
      invariant fresh(sender) && fresh(receiver) && fresh(link)
      invariant fresh(receiver.curInput) && forall j :: 0 <= j < |sender.queue| ==> fresh(sender.queue[j])
      invariant sender.big == senderBig && receiver.big == receiverBig
      invariant receiver.Received() + (link.transit + sender.Pending()) == Frames(senderBig, Queued(script[..i]))
      invariant delivered == receiver.parsed
    {
      ghost var received, moving := receiver.Received(), link.transit + sender.Pending();
      QueuedStep(script, i);
      match script[i] {
        case Queue(msg) =>
          FramesAppend(senderBig, Queued(script[..i]), msg);
          sender.AddOutgoingMessage(msg);
          assert received + (moving + Frame(senderBig, msg)) == received + moving + Frame(senderBig, msg);
        case Output(maxBytes) =>
          assert Queued(script[..i]) + [] == Queued(script[..i]);
          SendSome(sender, link, maxBytes);
        case Input(maxBytes) =>
          assert Queued(script[..i]) + [] == Queued(script[..i]);
          var _, _, got, _, _ := receiver.ReceiveChunk(link, maxBytes);
          if got.Some? {
            delivered := delivered + [got.value];
          }
      }
    }
    assert script[..|script|] == script;
    QueuedSendable(script);
    DecodePrefix(senderBig, receiverBig, Queued(script), receiver.Received(), link.transit + sender.Pending());
    receiver.DecodedSoFar();
    NeverStuck(receiver);
  }

  /** A turn of the sender, if it has anything to send. */
  method SendSome(sender: MessageGateway, link: Link, maxBytes: nat)
    requires sender.ValidOutput()
    modifies sender`curOutput, sender`outputTail, sender`curOutputPos, sender`queue, link
    ensures sender.ValidOutput() && |sender.queue| <= |old(sender.queue)|
    ensures forall j :: 0 <= j < |sender.queue| ==> sender.queue[j] == old(sender.queue)[j + |old(sender.queue)| - |sender.queue|]
    ensures link.transit + sender.Pending() == old(link.transit + sender.Pending())
  {
    hide *;
    if sender.curOutput != null {
      sender.PendingHead();
      var _, _ := sender.SendChunk(link, maxBytes);
    }
  }

  lemma NeverStuck(receiver: MessageGateway)
    requires receiver.ValidInput() && !Decode(receiver.big, receiver.Received()).failed
    requires Decode(receiver.big, receiver.Received()) ==
      Decoded(receiver.parsed, receiver.Held(), receiver.curInputPos == receiver.maxInputPos)
    ensures receiver.curInputPos < receiver.maxInputPos
  {
    hide Decode;
  }

  lemma NothingQueued(big: bool, script: seq<Action>)
    ensures Frames(big, Queued(script[..0])) == []
  {
  }
}
