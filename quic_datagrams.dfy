/** The unreliable-datagram extension (RFC 9221): the negotiated remote size
    limit, the bounded outgoing queue, the writer that drains the queue into
    a packet, and the gate for incoming datagrams. */
module Datagrams {
  import opened Common
  import Varint
  import opened DatagramFrames
  import opened Packet
  import opened Events

  /** The largest datagram the remote limit can allow. */
  const MaxQuicDatagram: nat := 65535

  /** Datagram data that can be queued: never longer than any remote limit. */
  type Payload = s: seq<byte> | |s| <= MaxQuicDatagram

  /** A queued outgoing datagram and the caller's id for its outcome. */
  datatype QuicDatagram = QuicDatagram(data: Payload, id: Option<u64>)

  /** What a packet records about the frames it carries; the engine adds
      only `Datagram` tokens, the others come from other frame writers. */
  datatype RecoveryToken = Datagram(id: Option<u64>) | Other(kind: nat)

  function Payloads(ds: seq<QuicDatagram>): seq<seq<byte>>
  {
    if ds == [] then [] else [ds[0].data] + Payloads(ds[1..])
  }

  /** One recovery token per datagram, in order. */
  function DatagramTokens(ds: seq<QuicDatagram>): seq<RecoveryToken>
  {
    if ds == [] then [] else DatagramTokens(ds[..|ds| - 1]) + [Datagram(ds[|ds| - 1].id)]
  }

  function OptionSeq(d: Option<QuicDatagram>): seq<QuicDatagram>
  {
    if d.Some? then [d.value] else []
  }

  /** The outcome events posted for a datagram dropped by the writer. */
  function TooBigEvents(d: Option<QuicDatagram>): seq<OutcomeEvent>
  {
    if d.Some? then [OutcomeEvent(d.value.id, DroppedTooBig)] else []
  }

  /** The frames for `ws`, the i-th in form `fs[i]`, one after another. */
  function Wire(ws: seq<QuicDatagram>, fs: seq<FrameForm>): seq<byte>
    requires |ws| == |fs|
  {
    if ws == [] then [] else FrameBytes(fs[0], ws[0].data) + Wire(ws[1..], fs[1..])
  }

  lemma {:induction false} WireSnoc(ws: seq<QuicDatagram>, fs: seq<FrameForm>, d: QuicDatagram, f: FrameForm)
    requires |ws| == |fs|
    ensures Wire(ws + [d], fs + [f]) == Wire(ws, fs) + FrameBytes(f, d.data)
  {
    if ws == [] {
      assert ws + [d] == [d] && fs + [f] == [f];
    } else {
      assert (ws + [d])[1..] == ws[1..] + [d] && (fs + [f])[1..] == fs[1..] + [f];
      WireSnoc(ws[1..], fs[1..], d, f);
    }
  }

  /** Only the final frame may lack a Length field. */
  predicate ImplicitOnlyLast(fs: seq<FrameForm>)
  {
    forall i :: 0 <= i < |fs| - 1 ==> fs[i] == WithLength
  }

  /** The frame form the writer picks for `d` with `remaining` bytes of room,
      or None when not even the frame without a Length field fits. */
  function FrameFor(d: QuicDatagram, remaining: nat): (r: Option<FrameForm>)
    ensures r.Some? <==> |d.data| + 1 <= remaining
    ensures r == Some(WithLength) <==> 1 + Varint.VarintLen(|d.data|) + |d.data| < remaining
    ensures r.Some? ==> FrameLength(r.value, |d.data|) <= remaining
    ensures r == Some(WithLength) ==> FrameLength(WithLength, |d.data|) < remaining
  {
    if remaining >= |d.data| + 1 then
      if remaining > 1 + Varint.VarintLen(|d.data|) + |d.data| then Some(WithLength)
      else Some(ImplicitLength)
    else None
  }

  /** The effect of one `write_frames` call: the datagrams written and their
      frame forms, the queue left behind, the datagram dropped as too big,
      and the room left in the packet. */
  datatype Drained = Drained(
    written: seq<QuicDatagram>,
    forms: seq<FrameForm>,
    rest: seq<QuicDatagram>,
    dropped: Option<QuicDatagram>,
    left: nat)

  /** The room left after writing `form` for `d` into `remaining` bytes. */
  function RoomAfter(d: QuicDatagram, form: FrameForm, remaining: nat, markFull: bool): nat
    requires FrameLength(form, |d.data|) <= remaining
  {
    if markFull && form == ImplicitLength then 0 else remaining - FrameLength(form, |d.data|)
  }

  /** Draining queue `q` into a packet with `remaining` bytes of room, where
      `tokensEmpty` says whether the packet's token list was empty on entry.
      With `markFull`, the packet is closed after a frame without a Length
      field; without it, as the source is written, the loop goes on. */
  function Drain(q: seq<QuicDatagram>, remaining: nat, tokensEmpty: bool, markFull: bool): (r: Drained)
    ensures |r.forms| == |r.written| && |r.written| + |r.rest| <= |q|
    ensures r.left <= remaining
    decreases |q|
  {
    if q == [] then Drained([], [], [], None, remaining)
    else
      match FrameFor(q[0], remaining)
      case None =>
        if tokensEmpty then Drained([], [], q[1..], Some(q[0]), remaining)
        else Drained([], [], q, None, remaining)
      case Some(form) =>
        var r := Drain(q[1..], RoomAfter(q[0], form, remaining, markFull), false, markFull);
        Drained([q[0]] + r.written, [form] + r.forms, r.rest, r.dropped, r.left)
  }

  /** The datagrams written, the one dropped and the queue left behind make
      up the original queue, in order; a drop takes the head, only when the
      packet had no tokens and nothing was written. */
  lemma {:induction false} DrainSplitsQueue(q: seq<QuicDatagram>, remaining: nat, tokensEmpty: bool, markFull: bool)
    ensures var r := Drain(q, remaining, tokensEmpty, markFull);
      q == r.written + OptionSeq(r.dropped) + r.rest
      && |r.forms| == |r.written|
      && (r.dropped.Some? ==> tokensEmpty && r.written == [] && r.rest == q[1..])
    decreases |q|
  {
    if q == [] {
    } else if FrameFor(q[0], remaining).None? {
      assert q == [q[0]] + q[1..];
    } else {
      var form := FrameFor(q[0], remaining).value;
      var r := Drain(q[1..], RoomAfter(q[0], form, remaining, markFull), false, markFull);
      DrainSplitsQueue(q[1..], RoomAfter(q[0], form, remaining, markFull), false, markFull);
      assert q == [q[0]] + q[1..];
    }
  }

  /** What is left of the queue is a suffix of it, and what was written is a
      prefix of it: no datagram is written twice or reordered. */
  lemma RestIsSuffix(q: seq<QuicDatagram>, remaining: nat, tokensEmpty: bool, markFull: bool)
    ensures var r := Drain(q, remaining, tokensEmpty, markFull);
      |r.written| + |OptionSeq(r.dropped)| + |r.rest| == |q|
      && r.rest == q[|q| - |r.rest|..]
      && r.written == q[..|r.written|]
  {
    DrainSplitsQueue(q, remaining, tokensEmpty, markFull);
    var r := Drain(q, remaining, tokensEmpty, markFull);
    SliceThree(r.written, OptionSeq(r.dropped), r.rest);
  }

  lemma SliceThree<T>(a: seq<T>, b: seq<T>, c: seq<T>)
    ensures (a + b + c)[..|a|] == a && (a + b + c)[|a| + |b|..] == c
  {
    assert a + b + c == a + (b + c);
  }

  /** The frames written never take more than the room the packet had, each
      takes at least one byte, and the room left is what they did not take
      (or nothing, once the packet is closed). */
  lemma {:induction false} DrainWithinBudget(q: seq<QuicDatagram>, remaining: nat, tokensEmpty: bool, markFull: bool)
    ensures var r := Drain(q, remaining, tokensEmpty, markFull);
      |r.forms| == |r.written|
      && |r.written| <= |Wire(r.written, r.forms)| <= remaining
      && r.left <= remaining - |Wire(r.written, r.forms)|
      && (!markFull ==> r.left == remaining - |Wire(r.written, r.forms)|)
    decreases |q|
  {
    if q != [] && FrameFor(q[0], remaining).Some? {
      var form := FrameFor(q[0], remaining).value;
      var room := RoomAfter(q[0], form, remaining, markFull);
      DrainWithinBudget(q[1..], room, false, markFull);
      var r := Drain(q[1..], room, false, markFull);
      var w := [q[0]] + r.written;
      var fs := [form] + r.forms;
      assert w[1..] == r.written && fs[1..] == r.forms;
      assert Wire(w, fs) == FrameBytes(form, q[0].data) + Wire(r.written, r.forms);
    }
  }

  /** The writer stops only at a datagram that does not fit the room left:
      the one it drops, or else the head of the queue it leaves behind, which
      it keeps only when the packet already carried tokens. */
  lemma {:induction false} DrainStopsAtMisfit(q: seq<QuicDatagram>, remaining: nat, tokensEmpty: bool, markFull: bool)
    ensures var r := Drain(q, remaining, tokensEmpty, markFull);
      (r.dropped.Some? ==> |r.dropped.value.data| + 1 > r.left)
      && (r.dropped.None? && r.rest != [] ==> |r.rest[0].data| + 1 > r.left && (!tokensEmpty || r.written != []))
    decreases |q|
  {
    if q != [] && FrameFor(q[0], remaining).Some? {
      var form := FrameFor(q[0], remaining).value;
      DrainStopsAtMisfit(q[1..], RoomAfter(q[0], form, remaining, markFull), false, markFull);
    }
  }

  /** With the packet closed after a frame without a Length field, that
      frame is the last one written and no room is left behind it. */
  lemma {:induction false} DrainMarkFullClosesPacket(q: seq<QuicDatagram>, remaining: nat, tokensEmpty: bool)
    ensures var r := Drain(q, remaining, tokensEmpty, true);
      ImplicitOnlyLast(r.forms)
      && (ImplicitLength in r.forms ==> r.left == 0)
    decreases |q|
  {
    if q != [] && FrameFor(q[0], remaining).Some? {
      var form := FrameFor(q[0], remaining).value;
      var room := RoomAfter(q[0], form, remaining, true);
      DrainMarkFullClosesPacket(q[1..], room, false);
      var r := Drain(q[1..], room, false, true);
      if form == ImplicitLength {
        DrainWithinBudget(q[1..], room, false, true);
        assert r.forms == [];
      }
      assert ([form] + r.forms)[1..] == r.forms;
    }
  }

  /** A run of frames in which only the last may lack a Length field parses
      back to exactly the payloads, in order. */
  lemma {:induction false} WireParses(ws: seq<QuicDatagram>, fs: seq<FrameForm>)
    requires |ws| == |fs| && ImplicitOnlyLast(fs)
    ensures Parse(Wire(ws, fs)) == Some(Payloads(ws))
  {
    if ws != [] {
      if |ws| == 1 {
        assert Wire(ws, fs) == FrameBytes(fs[0], ws[0].data);
        assert Payloads(ws) == [ws[0].data];
        if fs[0] == WithLength {
          ParseWithLength(ws[0].data, []);
          assert FrameBytes(fs[0], ws[0].data) + [] == FrameBytes(fs[0], ws[0].data);
        } else {
          ParseImplicit(ws[0].data);
        }
      } else {
        WireParses(ws[1..], fs[1..]);
        ParseWithLength(ws[0].data, Wire(ws[1..], fs[1..]));
      }
    }
  }

  /** Corrected writer: when the packet is closed after a frame without a
      Length field, the frames written parse back to the datagrams written. */
  lemma DrainMarkFullParses(q: seq<QuicDatagram>, remaining: nat, tokensEmpty: bool)
    ensures var r := Drain(q, remaining, tokensEmpty, true);
      |r.forms| == |r.written| && Parse(Wire(r.written, r.forms)) == Some(Payloads(r.written))
  {
    var r := Drain(q, remaining, tokensEmpty, true);
    DrainSplitsQueue(q, remaining, tokensEmpty, true);
    DrainMarkFullClosesPacket(q, remaining, tokensEmpty);
    WireParses(r.written, r.forms);
  }

  /** As written: a 64-byte datagram takes the frame without a Length field
      in a 67-byte room, and a 1-byte datagram is then written behind it, so
      a receiver reads a single datagram made of the first one's data and the
      second frame's bytes. */
  lemma DrainAsWrittenMisparses()
    ensures var a := QuicDatagram(seq(64, _ => 0), None);
      var b := QuicDatagram([42], None);
      var r := Drain([a, b], 67, true, false);
      r.written == [a, b] && r.forms == [ImplicitLength, ImplicitLength]
      && Parse(Wire(r.written, r.forms)) == Some([a.data + [FrameTypeDatagram as byte, 42]])
      && Parse(Wire(r.written, r.forms)) != Some(Payloads(r.written))
  {
    var a := QuicDatagram(seq(64, _ => 0), None);
    var b := QuicDatagram([42], None);
    assert Varint.VarintLen(64) == 2;
    assert FrameFor(a, 67) == Some(ImplicitLength);
    assert RoomAfter(a, ImplicitLength, 67, false) == 2;
    assert FrameFor(b, 2) == Some(ImplicitLength);
    assert [a, b][1..] == [b] && [b][1..] == [];
    assert Drain([], 0, false, false) == Drained([], [], [], None, 0);
    assert Drain([b], 2, false, false) == Drained([b], [ImplicitLength], [], None, 0);
    var r := Drain([a, b], 67, true, false);
    assert r == Drained([a, b], [ImplicitLength, ImplicitLength], [], None, 0);
    FrameTypesAreOneByte();
    var fa := FrameBytes(ImplicitLength, a.data);
    var fb := FrameBytes(ImplicitLength, b.data);
    assert fb == [FrameTypeDatagram as byte, 42];
    assert Wire([b], [ImplicitLength]) == fb;
    var bytes := Wire(r.written, r.forms);
    assert bytes == fa + fb;
    assert bytes[1..] == a.data + fb;
    assert Payloads([b]) == [b.data];
    assert Payloads(r.written) == [a.data, b.data];
  }

  /** What `write_frames` builds up besides the queue: the packet's bytes
      and limit, the token list and the datagram counter. */
  datatype Output = Output(buf: seq<byte>, limit: nat, tokens: seq<RecoveryToken>, stats: nat)

  /** `now` is the output `e` after `written` went out in `forms`. */
  predicate Emitted(e: Output, markFull: bool, written: seq<QuicDatagram>, forms: seq<FrameForm>, now: Output)
  {
    |forms| == |written|
    && now.buf == e.buf + Wire(written, forms)
    && now.limit == (if markFull && ImplicitLength in forms then |now.buf| else e.limit)
    && now.tokens == e.tokens + DatagramTokens(written)
    && now.stats == e.stats + |written|
  }

  /** The invariant of the loop of `write_frames`, started on output `e`:
      what went out so far is `written`, and the effect `r0` of the whole
      call is that followed by the effect of draining the queue still left. */
  ghost predicate Progress(r0: Drained, e: Output, markFull: bool, written: seq<QuicDatagram>, forms: seq<FrameForm>,
                           queue: seq<QuicDatagram>, now: Output)
  {
    var r := Drain(queue, Room(now.buf, now.limit), now.tokens == [], markFull);
    Emitted(e, markFull, written, forms, now)
    && (written != [] ==> now.tokens != [])
    && r0.written == written + r.written
    && r0.forms == forms + r.forms
    && r0.rest == r.rest
    && r0.dropped == r.dropped
    && r0.left == r.left
  }

  lemma ProgressStart(e: Output, markFull: bool, queue: seq<QuicDatagram>)
    ensures Progress(Drain(queue, Room(e.buf, e.limit), e.tokens == [], markFull), e, markFull, [], [], queue, e)
  {
    assert e.buf + [] == e.buf && e.tokens + [] == e.tokens;
  }

  /** One more frame out: the packet grows by its bytes and the tokens and
      the counter by one. */
  lemma EmittedSnoc(e: Output, markFull: bool, written: seq<QuicDatagram>, forms: seq<FrameForm>, now: Output,
                    d: QuicDatagram, form: FrameForm, next: Output)
    requires Emitted(e, markFull, written, forms, now)
    requires !(markFull && ImplicitLength in forms)
    requires next.buf == now.buf + FrameBytes(form, d.data)
    requires next.limit == (if markFull && form == ImplicitLength then |next.buf| else now.limit)
    requires next.tokens == now.tokens + [Datagram(d.id)] && next.stats == now.stats + 1
    ensures Emitted(e, markFull, written + [d], forms + [form], next)
  {
    var written', forms' := written + [d], forms + [form];
    WireSnoc(written, forms, d, form);
    Associative(e.buf, Wire(written, forms), FrameBytes(form, d.data));
    DatagramTokensSnoc(written, d);
    Associative(e.tokens, DatagramTokens(written), [Datagram(d.id)]);
    assert ImplicitLength in forms' <==> ImplicitLength in forms || form == ImplicitLength;
  }

  lemma Associative<T>(a: seq<T>, b: seq<T>, c: seq<T>)
    ensures (a + b) + c == a + (b + c)
  {
  }

  lemma DatagramTokensSnoc(ws: seq<QuicDatagram>, d: QuicDatagram)
    ensures DatagramTokens(ws + [d]) == DatagramTokens(ws) + [Datagram(d.id)]
  {
    assert (ws + [d])[..|ws|] == ws;
  }

  /** One step of Drain when the head fits. */
  lemma DrainFits(queue: seq<QuicDatagram>, remaining: nat, tokensEmpty: bool, markFull: bool, form: FrameForm)
    requires queue != [] && FrameFor(queue[0], remaining) == Some(form)
    ensures var r := Drain(queue[1..], RoomAfter(queue[0], form, remaining, markFull), false, markFull);
      Drain(queue, remaining, tokensEmpty, markFull)
        == Drained([queue[0]] + r.written, [form] + r.forms, r.rest, r.dropped, r.left)
  {
  }

  /** Writing the head of the queue keeps the invariant. */
  lemma ProgressAfterWrite(r0: Drained, e: Output, markFull: bool, written: seq<QuicDatagram>, forms: seq<FrameForm>,
                           queue: seq<QuicDatagram>, now: Output, form: FrameForm, next: Output)
    requires Progress(r0, e, markFull, written, forms, queue, now)
    requires queue != [] && FrameFor(queue[0], Room(now.buf, now.limit)) == Some(form)
    requires next.buf == now.buf + FrameBytes(form, queue[0].data)
    requires next.limit == (if markFull && form == ImplicitLength then |next.buf| else now.limit)
    requires next.tokens == now.tokens + [Datagram(queue[0].id)] && next.stats == now.stats + 1
    ensures Progress(r0, e, markFull, written + [queue[0]], forms + [form], queue[1..], next)
  {
    var d := queue[0];
    var remaining := Room(now.buf, now.limit);
    EmittedSnoc(e, markFull, written, forms, now, d, form, next);
    assert Room(next.buf, next.limit) == RoomAfter(d, form, remaining, markFull);
    DrainFits(queue, remaining, now.tokens == [], markFull, form);
    var r := Drain(queue[1..], Room(next.buf, next.limit), false, markFull);
    Associative(written, [d], r.written);
    Associative(forms, [form], r.forms);
  }

  /** The postcondition of `write_frames` on values: the whole effect `r`
      has happened to the queue and to the output. */
  predicate Finished(r: Drained, e: Output, markFull: bool, queue: seq<QuicDatagram>, now: Output)
  {
    Emitted(e, markFull, r.written, r.forms, now)
    && queue == r.rest && Room(now.buf, now.limit) == r.left
  }

  /** A head that does not fit ends the loop: it is dropped when the packet
      carries no tokens and stays at the head of the queue otherwise. */
  lemma ProgressMisfit(r0: Drained, e: Output, markFull: bool, written: seq<QuicDatagram>, forms: seq<FrameForm>,
                       queue: seq<QuicDatagram>, now: Output)
    requires Progress(r0, e, markFull, written, forms, queue, now)
    requires queue != [] && FrameFor(queue[0], Room(now.buf, now.limit)).None?
    ensures Finished(r0, e, markFull, if now.tokens == [] then queue[1..] else queue, now)
    ensures r0.dropped == if now.tokens == [] then Some(queue[0]) else None
  {
    assert written + [] == written && forms + [] == forms;
  }

  /** An empty queue ends the loop with nothing dropped. */
  lemma ProgressDone(r0: Drained, e: Output, markFull: bool, written: seq<QuicDatagram>, forms: seq<FrameForm>,
                     now: Output)
    requires Progress(r0, e, markFull, written, forms, [], now)
    ensures Finished(r0, e, markFull, [], now) && r0.dropped.None?
  {
    assert written + [] == written && forms + [] == forms;
  }

  class QuicDatagrams {
    /** The largest datagram this endpoint accepts. */
    const localDatagramSize: u64
    /** The largest datagram the peer accepts. */
    var remoteDatagramSize: u64
    const maxQueuedOutgoingDatagrams: nat
    /** How many incoming datagrams the event sink may hold. */
    const maxQueuedIncomingDatagrams: nat
    /** Datagrams queued for sending, oldest first. */
    var datagrams: seq<QuicDatagram>
    const connEvents: ConnectionEvents

    ghost predicate Valid()
      reads this
    {
      remoteDatagramSize <= MaxQuicDatagram
      && |datagrams| <= maxQueuedOutgoingDatagrams
    }

    constructor (localDatagramSize: u64, maxQueuedOutgoingDatagrams: nat,
                 maxQueuedIncomingDatagrams: nat, connEvents: ConnectionEvents)
      ensures Valid()
      ensures this.localDatagramSize == localDatagramSize
      ensures this.maxQueuedOutgoingDatagrams == maxQueuedOutgoingDatagrams
      ensures this.maxQueuedIncomingDatagrams == maxQueuedIncomingDatagrams
      ensures this.connEvents == connEvents
      ensures remoteDatagramSize == 0 && datagrams == []
    {
      this.localDatagramSize := localDatagramSize;
      remoteDatagramSize := 0;
      this.maxQueuedOutgoingDatagrams := maxQueuedOutgoingDatagrams;
      this.maxQueuedIncomingDatagrams := maxQueuedIncomingDatagrams;
      datagrams := [];
      this.connEvents := connEvents;
    }

    function RemoteDatagramSize(): (r: u64)
      reads this
      requires Valid()
      ensures r <= MaxQuicDatagram
    {
      remoteDatagramSize
    }

    method SetRemoteDatagramSize(v: u64)
      requires Valid()
      modifies this`remoteDatagramSize
      ensures Valid()
      ensures remoteDatagramSize == Min(v, MaxQuicDatagram)
      ensures remoteDatagramSize <= v && remoteDatagramSize <= MaxQuicDatagram
    {
      remoteDatagramSize := Min(v, MaxQuicDatagram);
    }

    /** `write_frames` as the source has it. */
    method WriteFrames(builder: PacketBuilder, tokens: seq<RecoveryToken>, stats: nat)
      returns (tokensOut: seq<RecoveryToken>, statsOut: nat)
      requires Valid()
      modifies this`datagrams, connEvents`outcomes, builder
      ensures Valid()
      ensures var r := Drain(old(datagrams), old(builder.Remaining()), tokens == [], false);
        |r.forms| == |r.written|
        && datagrams == r.rest
        && builder.buf == old(builder.buf) + Wire(r.written, r.forms)
        && builder.limit == old(builder.limit)
        && builder.Remaining() == r.left
        && tokensOut == tokens + DatagramTokens(r.written)
        && statsOut == stats + |r.written|
        && connEvents.outcomes == old(connEvents.outcomes) + TooBigEvents(r.dropped)
    {
      tokensOut, statsOut := Write(builder, tokens, stats, false);
    }

    /** `write_frames` with the packet closed after a frame without a
        Length field, so that no frame can follow it. */
    method WriteFramesMarkFull(builder: PacketBuilder, tokens: seq<RecoveryToken>, stats: nat)
      returns (tokensOut: seq<RecoveryToken>, statsOut: nat)
      requires Valid()
      modifies this`datagrams, connEvents`outcomes, builder
      ensures Valid()
      ensures var r := Drain(old(datagrams), old(builder.Remaining()), tokens == [], true);
        |r.forms| == |r.written|
        && datagrams == r.rest
        && builder.buf == old(builder.buf) + Wire(r.written, r.forms)
        && builder.limit == (if ImplicitLength in r.forms then |builder.buf| else old(builder.limit))
        && builder.Remaining() == r.left
        && tokensOut == tokens + DatagramTokens(r.written)
        && statsOut == stats + |r.written|
        && connEvents.outcomes == old(connEvents.outcomes) + TooBigEvents(r.dropped)
    {
      tokensOut, statsOut := Write(builder, tokens, stats, true);
    }

    /** The loop of `write_frames`; `markFull` selects whether the packet is
        closed after a frame without a Length field. */
    method Write(builder: PacketBuilder, tokens: seq<RecoveryToken>, stats: nat, markFull: bool)
      returns (tokensOut: seq<RecoveryToken>, statsOut: nat)
      requires Valid()
      modifies this`datagrams, connEvents`outcomes, builder
      ensures Valid()
      ensures var r := Drain(old(datagrams), old(builder.Remaining()), tokens == [], markFull);
        |r.forms| == |r.written|
        && datagrams == r.rest
        && builder.buf == old(builder.buf) + Wire(r.written, r.forms)
        && builder.limit == (if markFull && ImplicitLength in r.forms then |builder.buf| else old(builder.limit))
        && builder.Remaining() == r.left
        && tokensOut == tokens + DatagramTokens(r.written)
        && statsOut == stats + |r.written|
        && connEvents.outcomes == old(connEvents.outcomes) + TooBigEvents(r.dropped)
    {
      ghost var e := Output(builder.buf, builder.limit, tokens, stats);
      ghost var r0 := Drain(datagrams, builder.Remaining(), tokens == [], markFull);
      ghost var written: seq<QuicDatagram> := [];
      ghost var forms: seq<FrameForm> := [];
      tokensOut, statsOut := tokens, stats;
      ProgressStart(e, markFull, datagrams);
      while datagrams != []
        invariant |datagrams| <= maxQueuedOutgoingDatagrams
        invariant Progress(r0, e, markFull, written, forms, datagrams,
                           Output(builder.buf, builder.limit, tokensOut, statsOut))
        invariant connEvents.outcomes == old(connEvents.outcomes)
        decreases |datagrams|
      {
        var dgram := datagrams[0];
        var len := |dgram.data|;
        if builder.Remaining() >= len + 1 {
          ghost var now := Output(builder.buf, builder.limit, tokensOut, statsOut);
          ghost var form := WriteFrame(builder, dgram, markFull);
          statsOut := statsOut + 1;
          tokensOut := tokensOut + [Datagram(dgram.id)];
          ProgressAfterWrite(r0, e, markFull, written, forms, datagrams, now, form,
                             Output(builder.buf, builder.limit, tokensOut, statsOut));
          datagrams := datagrams[1..];
          written, forms := written + [dgram], forms + [form];
        } else {
          // The datagram is taken off the queue and, unless it is dropped,
          // put back at its head, which leaves the queue as it was.
          ProgressMisfit(r0, e, markFull, written, forms, datagrams,
                         Output(builder.buf, builder.limit, tokensOut, statsOut));
          if tokensOut == [] {
            datagrams := datagrams[1..];
            connEvents.DatagramOutcome(dgram.id, DroppedTooBig);
          }
          return;
        }
      }
      ProgressDone(r0, e, markFull, written, forms, Output(builder.buf, builder.limit, tokensOut, statsOut));
    }

    /** The body of the loop of `write_frames` for a datagram that fits: one
        DATAGRAM frame, with a Length field when there is room to spare. */
    method WriteFrame(builder: PacketBuilder, dgram: QuicDatagram, markFull: bool) returns (ghost form: FrameForm)
      requires builder.Remaining() >= |dgram.data| + 1
      modifies builder
      ensures Some(form) == FrameFor(dgram, old(builder.Remaining()))
      ensures builder.buf == old(builder.buf) + FrameBytes(form, dgram.data)
      ensures builder.limit == (if markFull && form == ImplicitLength then |builder.buf| else old(builder.limit))
      ensures builder.Remaining() == RoomAfter(dgram, form, old(builder.Remaining()), markFull)
      ensures builder.Len() <= builder.limit
    {
      var len := |dgram.data|;
      var lengthLen := Varint.VarintLen(len);
      FrameTypesAreOneByte();
      if builder.Remaining() > 1 + lengthLen + len {
        builder.EncodeVarint(FrameTypeDatagramWithLen);
        builder.EncodeVvec(dgram.data);
        form := WithLength;
      } else {
        builder.EncodeVarint(FrameTypeDatagram);
        builder.Encode(dgram.data);
        if markFull {
          builder.MarkFull();
        }
        form := ImplicitLength;
      }
      assert builder.Len() <= builder.limit;
    }

    /** `add_datagram`: queues `buf` for sending, evicting the oldest queued
        datagram when the queue is full. The source panics on the eviction
        when the queue capacity is zero, hence the second requires. */
    method AddDatagram(buf: seq<byte>, id: Option<u64>) returns (res: Result<()>)
      requires Valid()
      requires |buf| <= remoteDatagramSize ==> maxQueuedOutgoingDatagrams >= 1
      modifies this`datagrams, connEvents`outcomes
      ensures Valid()
      ensures |buf| > remoteDatagramSize ==>
        res == Err(TooMuchData) && datagrams == old(datagrams)
        && connEvents.outcomes == old(connEvents.outcomes)
      ensures |buf| <= remoteDatagramSize ==>
        res == Ok(()) && |datagrams| > 0 && datagrams[|datagrams| - 1] == QuicDatagram(buf, id)
      ensures |buf| <= remoteDatagramSize && |old(datagrams)| == maxQueuedOutgoingDatagrams ==>
        datagrams == old(datagrams)[1..] + [QuicDatagram(buf, id)]
        && connEvents.outcomes == old(connEvents.outcomes) + [OutcomeEvent(old(datagrams)[0].id, DroppedQueueFull)]
      ensures |buf| <= remoteDatagramSize && |old(datagrams)| < maxQueuedOutgoingDatagrams ==>
        datagrams == old(datagrams) + [QuicDatagram(buf, id)]
        && connEvents.outcomes == old(connEvents.outcomes)
    {
      if |buf| > remoteDatagramSize {
        return Err(TooMuchData);
      }
      if |datagrams| == maxQueuedOutgoingDatagrams {
        var oldest := datagrams[0];
        datagrams := datagrams[1..];
        connEvents.DatagramOutcome(oldest.id, DroppedQueueFull);
      }
      datagrams := datagrams + [QuicDatagram(buf, id)];
      return Ok(());
    }

    /** `handle_datagram`: hands an incoming datagram to the event sink
        unless it exceeds the size this endpoint advertised. */
    method HandleDatagram(data: seq<byte>) returns (res: Result<()>)
      modifies connEvents`incoming
      ensures |data| > localDatagramSize ==>
        res == Err(ProtocolViolation) && connEvents.incoming == old(connEvents.incoming)
      ensures |data| <= localDatagramSize ==>
        res == Ok(())
        && connEvents.incoming == old(connEvents.incoming) + [IncomingDatagram(maxQueuedIncomingDatagrams, data)]
    {
      if localDatagramSize < |data| {
        return Err(ProtocolViolation);
      }
      connEvents.AddDatagram(maxQueuedIncomingDatagrams, data);
      return Ok(());
    }
  }
}
