/** TCP segments. */
module Segments {
  import opened Bytes

  datatype TcpHeader = TcpHeader(
    sport: U16, dport: U16, seqno: U32, ackno: U32, doff: U8,
    urg: bool, ack: bool, psh: bool, rst: bool, syn: bool, fin: bool,
    win: U16, cksum: U16, uptr: U16)

  datatype TcpSegment = TcpSegment(header: TcpHeader, payload: seq<Byte>) {

    /** Sequence numbers the segment occupies: one for each byte, one for SYN, one for FIN. */
    function Length(): nat {
      |payload| + (if header.syn then 1 else 0) + (if header.fin then 1 else 0)
    }
  }

  const DEFAULT_HEADER: TcpHeader :=
    TcpHeader(0, 0, 0, 0, 5, false, false, false, false, false, false, 0, 0, 0)

  function DataSegment(seqno: U32, payload: seq<Byte>, fin: bool): TcpSegment {
    TcpSegment(DEFAULT_HEADER.(seqno := seqno, fin := fin), payload)
  }

  function SynSegment(seqno: U32): TcpSegment {
    TcpSegment(DEFAULT_HEADER.(seqno := seqno, syn := true), [])
  }
}
