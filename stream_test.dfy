/** The in-memory stream used by the HTTP/3 tests: a send buffer that only
    grows, a receive buffer read from the front, and flags and error slots
    that the test harness sets. */
module StreamTest {
  import opened Common

  datatype Role = Client | Server

  datatype StreamType = BiDi | UniDi

  /** A stream's direction together with the role of the endpoint that opened it. */
  datatype StreamTypeWithRole = ClientBiDi | ServerBiDi | ClientUniDi | ServerUniDi

  function RoleOf(t: StreamTypeWithRole): Role
  {
    match t
    case ClientBiDi => Client
    case ClientUniDi => Client
    case ServerBiDi => Server
    case ServerUniDi => Server
  }

  function DirectionOf(t: StreamTypeWithRole): StreamType
  {
    match t
    case ClientBiDi => BiDi
    case ServerBiDi => BiDi
    case ClientUniDi => UniDi
    case ServerUniDi => UniDi
  }

  /** Classifies a stream by the opener's role and the stream's direction;
      the role and the direction can be read back from the result. */
  function GetStreamType(r: Role, st: StreamType): (t: StreamTypeWithRole)
    ensures RoleOf(t) == r && DirectionOf(t) == st
    ensures (t == ClientBiDi || t == ClientUniDi) <==> r == Client
    ensures (t == ClientUniDi || t == ServerUniDi) <==> st == UniDi
  {
    if r.Client? then
      if st.UniDi? then ClientUniDi else ClientBiDi
    else
      if st.UniDi? then ServerUniDi else ServerBiDi
  }

  /** Every classified stream type is reached, from its own role and direction. */
  lemma GetStreamTypeOnto(t: StreamTypeWithRole)
    ensures GetStreamType(RoleOf(t), DirectionOf(t)) == t
  {
    match t
    case ClientBiDi =>
    case ServerBiDi =>
    case ClientUniDi =>
    case ServerUniDi =>
  }

  class Stream {
    var sendSideClosed: bool
    var sendSideStopSending: bool
    var receiveSideClosed: bool
    var streamType: StreamTypeWithRole
    /** The buffer handed out by `send_buffer`; nothing here writes it. */
    var sendBufTmp: seq<byte>
    var sendBuf: seq<byte>
    var recvBuf: seq<byte>
    var stopSendingError: Option<Error>
    var error: Option<Error>

    constructor (st: StreamTypeWithRole)
      ensures !sendSideClosed && !sendSideStopSending && !receiveSideClosed
      ensures streamType == st
      ensures sendBufTmp == [] && sendBuf == [] && recvBuf == []
      ensures stopSendingError == None && error == None
    {
      sendSideClosed := false;
      sendSideStopSending := false;
      receiveSideClosed := false;
      streamType := st;
      sendBufTmp := [];
      sendBuf := [];
      recvBuf := [];
      stopSendingError := None;
      error := None;
    }

    /** Bytes waiting to be sent. */
    function SendDataReady(): (n: nat)
      reads this
      ensures n == |sendBuf|
    {
      |sendBuf|
    }

    /** Bytes waiting to be read. */
    function RecvDataReady(): (n: nat)
      reads this
      ensures n == |recvBuf|
    {
      |recvBuf|
    }

    /** Queues `buf` behind what is already waiting and accepts all of it. */
    method Send(buf: seq<byte>) returns (res: Result<nat>)
      modifies this`sendBuf
      ensures sendBuf == old(sendBuf) + buf
      ensures SendDataReady() == old(SendDataReady()) + |buf|
      ensures res == Ok(|buf|)
    {
      sendBuf := sendBuf + buf;
      return Ok(|buf|);
    }

    method Close()
      modifies this`sendSideClosed
      ensures sendSideClosed
    {
      sendSideClosed := true;
    }

    /** Moves up to `amount` bytes from the front of the receive buffer into
        the front of `buf`; the rest of `buf` is left alone. */
    method ReadWithAmount(buf: array<byte>, amount: nat) returns (res: Result<nat>)
      requires buf.Length >= amount
      modifies this`recvBuf, buf
      ensures res.Ok? && res.value == Min(|old(recvBuf)|, amount)
      ensures buf[..res.value] == old(recvBuf)[..res.value]
      ensures buf[res.value..] == old(buf[res.value..])
      ensures recvBuf == old(recvBuf)[res.value..]
      ensures RecvDataReady() == old(RecvDataReady()) - res.value
    {
      var retBytes := Min(|recvBuf|, amount);
      var remaining := recvBuf[retBytes..];
      forall i | 0 <= i < retBytes {
        buf[i] := recvBuf[i];
      }
      recvBuf := remaining;
      return Ok(retBytes);
    }

    /** A read that may fill all of `buf`. */
    method Read(buf: array<byte>) returns (res: Result<nat>)
      modifies this`recvBuf, buf
      ensures res.Ok? && res.value == Min(|old(recvBuf)|, buf.Length)
      ensures buf[..res.value] == old(recvBuf)[..res.value]
      ensures buf[res.value..] == old(buf[res.value..])
      ensures recvBuf == old(recvBuf)[res.value..]
    {
      res := ReadWithAmount(buf, buf.Length);
    }

    /** Copies what a read of `amount` would return, without consuming it. */
    method Peek(buf: array<byte>, amount: nat) returns (res: Result<nat>)
      requires buf.Length >= amount
      modifies buf
      ensures res.Ok? && res.value == Min(|recvBuf|, amount)
      ensures buf[..res.value] == recvBuf[..res.value]
      ensures buf[res.value..] == old(buf[res.value..])
    {
      var retBytes := Min(|recvBuf|, amount);
      forall i | 0 <= i < retBytes {
        buf[i] := recvBuf[i];
      }
      return Ok(retBytes);
    }

    /** Incoming STREAM frames are accepted and ignored. */
    method InboundStreamFrame(fin: bool, offset: u64, data: seq<byte>) returns (res: Result<()>)
      ensures res == Ok(())
    {
      return Ok(());
    }

    /** The fixture never asks for a flow-control update. */
    method NeedsFlowcUpdate() returns (r: Option<u64>)
      ensures r == None
    {
      return None;
    }

    method StopSending(err: Error)
      modifies this`stopSendingError
      ensures stopSendingError == Some(err)
    {
      stopSendingError := Some(err);
    }

    method ReceiveClose()
      modifies this`receiveSideClosed
      ensures receiveSideClosed
    {
      receiveSideClosed := true;
    }

    method Reset(err: Error)
      modifies this`error
      ensures error == Some(err)
    {
      error := Some(err);
    }
  }
}
