/** The replies a Modbus slave gives: each kind of them is as long as the reader
    expects, comes through whole, and is refused from the wrong slave. */
module ModbusReplies {
  import opened Prelude
  import opened ModbusCrc

  /** A reply's PDU: to a read its function code, a byte count and that many bytes;
      to a write its function code and four bytes; else an exception, with the high
      bit of the function code set and a code. */
  predicate IsReply(pdu: Bytes) {
    || (|pdu| >= 2 && 1 <= pdu[0] <= 4 && |pdu| == 2 + pdu[1] as int)
    || (|pdu| == 5 && pdu[0] in {5, 6, 15, 16})
    || (|pdu| == 2 && pdu[0] >= 0x80)
  }

  lemma FunctionBits(f: bv8)
    ensures f & 0x80 != 0 <==> f >= 0x80
    ensures f < 0x80 ==> f & 0x7F == f
  {
  }

  lemma FrameStarts(slave: bv8, pdu: Bytes)
    requires |pdu| >= 2
    ensures var frame := Framed([slave] + pdu);
      |frame| == |pdu| + 3 && frame[0] == slave && frame[1] == pdu[0] && frame[2] == pdu[1]
  {
  }

  /** Every reply of at most 253 bytes is as long as its header says. */
  lemma RepliesAreComplete(slave: bv8, pdu: Bytes)
    requires IsReply(pdu) && |pdu| <= 253
    ensures Complete(Framed([slave] + pdu))
  {
    FrameStarts(slave, pdu);
    FunctionBits(pdu[0]);
  }

  /** It comes through in however many pieces, and exactly from the slave asked. */
  lemma RepliesComeThrough(slave: bv8, asked: bv8, pdu: Bytes, pieces: seq<Bytes>)
    requires IsReply(pdu) && |pdu| <= 253 && Splits(pieces, Framed([slave] + pdu))
    ensures Checked(Gather([], pieces), asked) == if asked == slave then Response(pdu) else BadMessage
  {
    RepliesAreComplete(slave, pdu);
    var frame := Framed([slave] + pdu);
    ReplyComesThrough(slave, pdu, pieces);
    assert [] + Joined(pieces) == frame;
    GatherAnyPieces(frame, [], pieces);
    FrameStarts(slave, pdu);
  }

  /** Fewer than four bytes before the line falls silent count as no reply. */
  lemma SilenceTimesOut(pieces: seq<Bytes>, slave: bv8)
    requires |Joined(pieces)| < 4 && forall i | 0 <= i < |pieces| :: pieces[i] != []
    ensures Checked(Gather([], pieces), slave) == Timeout
  {
    assert [] + Joined(pieces) == Joined(pieces);
    GathersFront(Joined(pieces), [], pieces);
  }
}
