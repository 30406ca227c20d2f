/** The packet assembler as the datagram engine sees it: a byte log that
    only grows, a length limit, and the encode primitives. */
module Packet {
  import opened Common
  import Varint

  /** The room a packet of contents `buf` has under `limit`: zero once the
      limit is reached. */
  function Room(buf: seq<byte>, limit: nat): nat
  {
    if |buf| <= limit then limit - |buf| else 0
  }

  class PacketBuilder {
    /** Everything written into the packet so far, headers included. */
    var buf: seq<byte>
    /** The length the packet must not exceed. */
    var limit: nat

    constructor (header: seq<byte>, limit: nat)
      ensures buf == header && this.limit == limit
    {
      buf := header;
      this.limit := limit;
    }

    function Len(): nat
      reads this
    {
      |buf|
    }

    /** Bytes that may still be written; zero once the limit is reached. */
    function Remaining(): (r: nat)
      reads this
      ensures |buf| <= limit ==> |buf| + r == limit
      ensures limit < |buf| ==> r == 0
    {
      Room(buf, limit)
    }

    method EncodeVarint(v: nat)
      requires v < Varint.MaxVarint
      modifies this`buf
      ensures buf == old(buf) + Varint.Encode(v)
    {
      buf := buf + Varint.Encode(v);
    }

    /** Appends `data` as it is. */
    method Encode(data: seq<byte>)
      modifies this`buf
      ensures buf == old(buf) + data
    {
      buf := buf + data;
    }

    /** Appends `data` after its length as a varint. */
    method EncodeVvec(data: seq<byte>)
      requires |data| < Varint.MaxVarint
      modifies this`buf
      ensures buf == old(buf) + Varint.Encode(|data|) + data
    {
      EncodeVarint(|data|);
      Encode(data);
    }

    /** Closes the packet to further frames. */
    method MarkFull()
      modifies this`limit
      ensures limit == |buf| && Remaining() == 0
    {
      limit := |buf|;
    }
  }
}
