/** The two DATAGRAM frame layouts of section 4 of RFC 9221, and a parser for
    a run of such frames. */
module DatagramFrames {
  import opened Common
  import Varint

  /** Frame type of a DATAGRAM frame whose data runs to the end of the packet. */
  const FrameTypeDatagram: nat := 0x30
  /** Frame type of a DATAGRAM frame that carries a Length field. */
  const FrameTypeDatagramWithLen: nat := 0x31

  datatype FrameForm = WithLength | ImplicitLength

  /** Both frame types encode as a single byte. */
  lemma FrameTypesAreOneByte()
    ensures Varint.Encode(FrameTypeDatagram) == [FrameTypeDatagram as byte]
    ensures Varint.Encode(FrameTypeDatagramWithLen) == [FrameTypeDatagramWithLen as byte]
  {
  }

  /** The size of a DATAGRAM frame of the given form carrying `len` bytes:
      the one-byte type, the Length field if any, the data. */
  function FrameLength(form: FrameForm, len: nat): nat
    requires len < Varint.MaxVarint
  {
    match form
    case WithLength => 1 + Varint.VarintLen(len) + len
    case ImplicitLength => 1 + len
  }

  /** The bytes of one DATAGRAM frame carrying `data` in the given form. */
  function FrameBytes(form: FrameForm, data: seq<byte>): (s: seq<byte>)
    requires |data| < Varint.MaxVarint
    ensures |s| == FrameLength(form, |data|)
    ensures s[0] == if form == WithLength then FrameTypeDatagramWithLen else FrameTypeDatagram
  {
    FrameTypesAreOneByte();
    match form
    case WithLength => Varint.Encode(FrameTypeDatagramWithLen) + Varint.Encode(|data|) + data
    case ImplicitLength => Varint.Encode(FrameTypeDatagram) + data
  }

  /** The payloads a receiver reads from `s`, a run of DATAGRAM frames, or
      None when `s` is not such a run. A frame without a Length field takes
      everything that follows it. */
  function Parse(s: seq<byte>): (r: Option<seq<seq<byte>>>)
    decreases |s|
  {
    if s == [] then Some([])
    else if s[0] == FrameTypeDatagram then Some([s[1..]])
    else if s[0] != FrameTypeDatagramWithLen then None
    else
      match Varint.Decode(s[1..])
      case None => None
      case Some((len, n)) =>
        if |s| < 1 + n + len then None
        else
          match Parse(s[1 + n + len..])
          case None => None
          case Some(tail) => Some([s[1 + n..1 + n + len]] + tail)
  }

  /** A frame with a Length field gives back its payload and leaves what
      follows it to be parsed on its own. */
  lemma ParseWithLength(data: seq<byte>, rest: seq<byte>)
    requires |data| < Varint.MaxVarint
    ensures Parse(rest).None? ==> Parse(FrameBytes(WithLength, data) + rest).None?
    ensures Parse(rest).Some? ==> Parse(FrameBytes(WithLength, data) + rest) == Some([data] + Parse(rest).value)
  {
    FrameTypesAreOneByte();
    var s := FrameBytes(WithLength, data) + rest;
    var len := Varint.Encode(|data|);
    assert s[1..] == len + (data + rest);
    Varint.DecodeEncode(|data|, data + rest);
    var n := |len|;
    assert s[1 + n..1 + n + |data|] == data;
    assert s[1 + n + |data|..] == rest;
  }

  /** A frame without a Length field, alone, gives back exactly its payload. */
  lemma ParseImplicit(data: seq<byte>)
    requires |data| < Varint.MaxVarint
    ensures Parse(FrameBytes(ImplicitLength, data)) == Some([data])
  {
    FrameTypesAreOneByte();
    assert FrameBytes(ImplicitLength, data)[1..] == data;
  }
}
