/**
 * Chunked messages between rooms over a channel that may lose, repeat and reorder them: what a room does with a
 * message, and what that means for whole runs.
 */
module RpcRoom {

  import opened Options
  import opened RpcChunking

  type Peer = nat
  type StreamId = nat

  datatype Wire =
    | Raw(payload: Text)
    | Chunk(stream: StreamId, index: int, total: int, payload: Text)
    | ChunkAck(stream: StreamId, missing: seq<int>)

  datatype Packet = Packet(src: Peer, dst: Peer, wire: Wire)

  datatype Outgoing = Outgoing(peer: Peer, chunks: seq<Text>)

  // ----- one room -----

  datatype Room = Room(outgoing: map<StreamId, Outgoing>, incoming: map<StreamId, Buffer>)

  /** What handling a message does: the room afterwards, what is sent, and the payload handed on, if any. */
  datatype Handled = Handled(room: Room, sends: seq<(Peer, Wire)>, delivered: Option<Text>)

  /** The pieces of a stream that an acknowledgement asks for again. */
  function Resent(stream: StreamId, out: Outgoing, missing: seq<int>): seq<(Peer, Wire)> {
    if missing == [] then []
    else
      Resent(stream, out, missing[..|missing| - 1]) +
      var index := missing[|missing| - 1];
      if 0 <= index < |out.chunks| then [(out.peer, Chunk(stream, index, |out.chunks|, out.chunks[index]))] else []
  }

  function Receive(room: Room, message: Wire, from: Peer): Handled {
    match message
    case Raw(payload) => Handled(room, [], Some(payload))
    case Chunk(stream, index, total, payload) =>
      var state := (if stream in room.incoming then room.incoming[stream] else Buffer(total, map[])).Add(index, payload);
      if state.IsComplete() then
        Handled(room.(incoming := room.incoming - {stream}), [(from, ChunkAck(stream, []))], state.ToPayload())
      else
        Handled(room.(incoming := room.incoming[stream := state]), [], None)
    case ChunkAck(stream, missing) =>
      if stream !in room.outgoing then Handled(room, [], None)
      else if missing == [] then Handled(room.(outgoing := room.outgoing - {stream}), [], None)
      else Handled(room, Resent(stream, room.outgoing[stream], missing), None)
  }

  /** The timer of an incoming stream asks the sender for what is missing. */
  function MissingTimer(room: Room, stream: StreamId): Option<Wire> {
    if stream !in room.incoming || room.incoming[stream].IsComplete() then None
    else Some(ChunkAck(stream, room.incoming[stream].Missing()))
  }

  function Pieces(stream: StreamId, chunks: seq<Text>): seq<Wire> {
    seq(|chunks|, i requires 0 <= i < |chunks| => Chunk(stream, i, |chunks|, chunks[i]))
  }

  class RpcRoom {
    var outgoingChunkMap: map<StreamId, Outgoing>
    var incomingChunkMap: map<StreamId, Buffer>
    const maxWirePayloadBytes: int

    function View(): Room
      reads this
    {
      Room(outgoingChunkMap, incomingChunkMap)
    }

    /** `streamId` is a new id; it is only used if the envelope has to be split. */
    method SendEnvelope(peerId: Peer, serialized: Text, streamId: StreamId) returns (sends: seq<Wire>, ghost chunks: seq<Text>)
      modifies this
      ensures Concat(chunks) == serialized && chunks != []
      ensures EstimateBytes(serialized) <= maxWirePayloadBytes ==> sends == [Raw(serialized)] && View() == old(View())
      ensures EstimateBytes(serialized) > maxWirePayloadBytes ==>
        && sends == Pieces(streamId, chunks)
        && View() == old(View()).(outgoing := old(View()).outgoing[streamId := Outgoing(peerId, chunks)])
    {
      if EstimateBytes(serialized) <= maxWirePayloadBytes {
        chunks := [serialized];
        return [Raw(serialized)], chunks;
      }
      var pieces := SplitIntoChunks(serialized, maxWirePayloadBytes);
      outgoingChunkMap := outgoingChunkMap[streamId := Outgoing(peerId, pieces)];
      sends := [];
      for i := 0 to |pieces|
        invariant sends == Pieces(streamId, pieces)[..i]
      {
        sends := sends + [Chunk(streamId, i, |pieces|, pieces[i])];
      }
      return sends, pieces;
    }

    /** Missing indices may be out of range; those are passed over. */
    method Resend(stream: StreamId, state: Outgoing, missing: seq<int>) returns (sends: seq<(Peer, Wire)>)
      ensures sends == Resent(stream, state, missing)
    {
      sends := [];
      for i := 0 to |missing|
        invariant sends == Resent(stream, state, missing[..i])
      {
        assert missing[..i + 1][..i] == missing[..i];
        var index := missing[i];
        if 0 <= index < |state.chunks| {
          sends := sends + [(state.peer, Chunk(stream, index, |state.chunks|, state.chunks[index]))];
        }
      }
      assert missing[..|missing|] == missing;
    }

    method OnWireMessage(message: Wire, peerId: Peer) returns (sends: seq<(Peer, Wire)>, delivered: Option<Text>)
      modifies this
      ensures Handled(View(), sends, delivered) == Receive(old(View()), message, peerId)
    {
      sends, delivered := [], None;
      match message {
        case Raw(payload) =>
          delivered := Some(payload);
        case Chunk(stream, index, total, payload) =>
          var state := if stream in incomingChunkMap then incomingChunkMap[stream] else Buffer(total, map[]);
          state := state.Add(index, payload);
          incomingChunkMap := incomingChunkMap[stream := state];
          if state.IsComplete() {
            incomingChunkMap := incomingChunkMap - {stream};
            assert incomingChunkMap == old(incomingChunkMap) - {stream};
            sends := [(peerId, ChunkAck(stream, []))];
            delivered := state.ToPayload();
          }
        case ChunkAck(stream, missing) =>
          if stream in outgoingChunkMap {
            if missing == [] {
              outgoingChunkMap := outgoingChunkMap - {stream};
            } else {
              sends := Resend(stream, outgoingChunkMap[stream], missing);
            }
          }
      }
    }
  }

  // ----- rooms and the channel -----

  /** What was sent under a stream id, from whom and to whom. */
  datatype Stream = Stream(src: Peer, dst: Peer, chunks: seq<Text>)

  /** The channel keeps every packet it was ever given: it may deliver it never, or any number of times, in any order. */
  datatype System = System(
    rooms: map<Peer, Room>,
    channel: set<Packet>,
    streams: map<StreamId, Stream>,
    raws: set<(Peer, Peer, Text)>,
    delivered: set<(Peer, Peer, Text)>)

  ghost predicate SendsRaw(s: System, s': System, src: Peer, dst: Peer, payload: Text) {
    s' == s.(channel := s.channel + {Packet(src, dst, Raw(payload))}, raws := s.raws + {(src, dst, payload)})
  }

  ghost predicate SendsStream(s: System, s': System, src: Peer, dst: Peer, id: StreamId, chunks: seq<Text>) {
    && src in s.rooms && id !in s.streams && chunks != []
    && s' == s.(rooms := s.rooms[src := s.rooms[src].(outgoing := s.rooms[src].outgoing[id := Outgoing(dst, chunks)])],
                channel := s.channel + set w | w in Pieces(id, chunks) :: Packet(src, dst, w),
                streams := s.streams[id := Stream(src, dst, chunks)])
  }

  ghost predicate Delivers(s: System, s': System, p: Packet) {
    && p in s.channel && p.dst in s.rooms
    && var h := Receive(s.rooms[p.dst], p.wire, p.src);
       s' == s.(rooms := s.rooms[p.dst := h.room],
                channel := s.channel + set e | e in h.sends :: Packet(p.dst, e.0, e.1),
                delivered := if h.delivered.Some? then s.delivered + {(p.src, p.dst, h.delivered.value)} else s.delivered)
  }

  ghost predicate TimerFires(s: System, s': System, at: Peer, id: StreamId, towards: Peer) {
    && at in s.rooms && MissingTimer(s.rooms[at], id).Some?
    && s' == s.(channel := s.channel + {Packet(at, towards, MissingTimer(s.rooms[at], id).value)})
  }

  datatype Act =
    | SendRaw(src: Peer, dst: Peer, payload: Text)
    | SendStream(src: Peer, dst: Peer, id: StreamId, chunks: seq<Text>)
    | Deliver(packet: Packet)
    | Timer(at: Peer, id: StreamId, towards: Peer)

  ghost predicate Next(s: System, s': System, act: Act) {
    match act
    case SendRaw(src, dst, payload) => SendsRaw(s, s', src, dst, payload)
    case SendStream(src, dst, id, chunks) => SendsStream(s, s', src, dst, id, chunks)
    case Deliver(packet) => Delivers(s, s', packet)
    case Timer(at, id, towards) => TimerFires(s, s', at, id, towards)
  }

  predicate Initial(s: System) {
    && s.channel == {} && s.streams == map[] && s.raws == {} && s.delivered == {}
    && forall p | p in s.rooms :: s.rooms[p] == Room(map[], map[])
  }

  // ----- what every step keeps -----

  predicate StreamDelivered(s: System, id: StreamId)
    requires id in s.streams
  {
    var st := s.streams[id];
    (st.src, st.dst, Concat(st.chunks)) in s.delivered
  }

  predicate PacketIsGenuine(s: System, p: Packet) {
    match p.wire
    case Raw(payload) => (p.src, p.dst, payload) in s.raws
    case Chunk(id, index, total, payload) =>
      && id in s.streams
      && var st := s.streams[id];
         p.src == st.src && p.dst == st.dst && total == |st.chunks| && 0 <= index < total && payload == st.chunks[index]
    case ChunkAck(id, missing) =>
      missing == [] ==> id in s.streams && StreamDelivered(s, id)
  }

  predicate IncomingIsGenuine(s: System, at: Peer, id: StreamId, b: Buffer) {
    id in s.streams && s.streams[id].dst == at && BufferOf(b, s.streams[id].chunks) && !b.IsComplete()
  }

  predicate OutgoingIsGenuine(s: System, at: Peer, id: StreamId, out: Outgoing) {
    id in s.streams && s.streams[id] == Stream(at, out.peer, out.chunks)
  }

  /** A payload that was handed on was sent, as a whole, by the peer it is taken to come from. */
  predicate IsGenuine(s: System, d: (Peer, Peer, Text)) {
    d in s.raws || exists id :: id in s.streams && d == (s.streams[id].src, s.streams[id].dst, Concat(s.streams[id].chunks))
  }

  ghost predicate Inv(s: System) {
    && (forall p | p in s.channel :: PacketIsGenuine(s, p))
    && (forall at, id | at in s.rooms && id in s.rooms[at].incoming :: IncomingIsGenuine(s, at, id, s.rooms[at].incoming[id]))
    && (forall at, id | at in s.rooms && id in s.rooms[at].outgoing :: OutgoingIsGenuine(s, at, id, s.rooms[at].outgoing[id]))
    && (forall id | id in s.streams :: s.streams[id].chunks != [])
    && (forall d | d in s.delivered :: IsGenuine(s, d))
    && (forall id | id in s.streams ::
          s.streams[id].src in s.rooms && (id in s.rooms[s.streams[id].src].outgoing || StreamDelivered(s, id)))
  }

  lemma InitialIsInv(s: System)
    requires Initial(s)
    ensures Inv(s)
  {
  }

  lemma ResentIsGenuine(s: System, at: Peer, id: StreamId, out: Outgoing, missing: seq<int>)
    requires OutgoingIsGenuine(s, at, id, out)
    ensures forall e | e in Resent(id, out, missing) :: PacketIsGenuine(s, Packet(at, e.0, e.1))
  {
    if missing != [] {
      ResentIsGenuine(s, at, id, out, missing[..|missing| - 1]);
    }
  }

  /** More streams, deliveries and raw messages take nothing away. */
  ghost predicate Grows(s: System, s': System) {
    && s.raws <= s'.raws && s.delivered <= s'.delivered
    && forall id | id in s.streams :: id in s'.streams && s'.streams[id] == s.streams[id]
  }

  lemma GenuineStays(s: System, s': System)
    requires Grows(s, s')
    ensures forall p | PacketIsGenuine(s, p) :: PacketIsGenuine(s', p)
    ensures forall d | IsGenuine(s, d) :: IsGenuine(s', d)
  {
    forall d | IsGenuine(s, d)
      ensures IsGenuine(s', d)
    {
      if d !in s.raws {
        var id :| id in s.streams && d == (s.streams[id].src, s.streams[id].dst, Concat(s.streams[id].chunks));
        assert id in s'.streams;
      }
    }
  }

  lemma EndsStay(s: System, s': System)
    requires Grows(s, s')
    ensures forall at, id, b | IncomingIsGenuine(s, at, id, b) :: IncomingIsGenuine(s', at, id, b)
    ensures forall at, id, out | OutgoingIsGenuine(s, at, id, out) :: OutgoingIsGenuine(s', at, id, out)
  {
  }

  lemma SendingKeepsInv(s: System, s': System, act: Act)
    requires Inv(s) && Next(s, s', act) && (act.SendRaw? || act.SendStream?)
    ensures Inv(s')
  {
    GenuineStays(s, s');
  }

  lemma TimerKeepsInv(s: System, s': System, act: Act)
    requires Inv(s) && Next(s, s', act) && act.Timer?
    ensures Inv(s')
  {
    GenuineStays(s, s');
    var b := s.rooms[act.at].incoming[act.id];
    assert IncomingIsGenuine(s, act.at, act.id, b);
    CompleteIffNothingMissing(b);
  }

  /** The buffer a delivered chunk goes to still belongs to its stream afterwards. */
  lemma ChunkGoesToItsStream(s: System, p: Packet)
    requires Inv(s) && p in s.channel && p.wire.Chunk? && p.dst in s.rooms
    ensures var room := s.rooms[p.dst];
            var b := if p.wire.stream in room.incoming then room.incoming[p.wire.stream] else Buffer(p.wire.total, map[]);
            p.wire.stream in s.streams && BufferOf(b.Add(p.wire.index, p.wire.payload), s.streams[p.wire.stream].chunks)
    ensures s.streams[p.wire.stream].src == p.src && s.streams[p.wire.stream].dst == p.dst
  {
    assert PacketIsGenuine(s, p);
    var room := s.rooms[p.dst];
    if p.wire.stream in room.incoming {
      assert IncomingIsGenuine(s, p.dst, p.wire.stream, room.incoming[p.wire.stream]);
    }
  }

  /** The buffer of a stream with one more chunk. */
  function Buffered(room: Room, p: Packet): Buffer
    requires p.wire.Chunk?
  {
    (if p.wire.stream in room.incoming then room.incoming[p.wire.stream] else Buffer(p.wire.total, map[])).Add(p.wire.index, p.wire.payload)
  }

  lemma ChunkIsDelivered(s: System, s': System, p: Packet)
    requires Delivers(s, s', p)
    ensures p.wire.Chunk? ==>
            var id, room, b := p.wire.stream, s.rooms[p.dst], Buffered(s.rooms[p.dst], p);
            if b.IsComplete() && b.ToPayload().Some? then
              s' == s.(rooms := s.rooms[p.dst := room.(incoming := room.incoming - {id})],
                       channel := s.channel + {Packet(p.dst, p.src, ChunkAck(id, []))},
                       delivered := s.delivered + {(p.src, p.dst, b.ToPayload().value)})
            else !b.IsComplete() ==> s' == s.(rooms := s.rooms[p.dst := room.(incoming := room.incoming[id := b])])
  {
    if p.wire.Chunk? {
      var ack := (p.src, ChunkAck(p.wire.stream, []));
      assert (set e | e in [ack] :: Packet(p.dst, e.0, e.1)) == {Packet(p.dst, p.src, ChunkAck(p.wire.stream, []))};
      var none: seq<(Peer, Wire)> := [];
      assert (set e | e in none :: Packet(p.dst, e.0, e.1)) == {};
    }
  }

  lemma ChunkKeepsInv(s: System, s': System, p: Packet)
    requires Inv(s) && Delivers(s, s', p)
    ensures p.wire.Chunk? ==> Inv(s')
  {
    hide Inv, Receive, Buffer.IsComplete, Buffer.ToPayload, Buffer.Add, BufferOf;
    if p.wire.Chunk? {
      ChunkGoesToItsStream(s, p);
      ChunkIsDelivered(s, s', p);
      var id, b := p.wire.stream, Buffered(s.rooms[p.dst], p);
      if b.IsComplete() {
        CompleteStreamIsPayload(b, s.streams[id].chunks);
        LastChunkKeepsInv(s, s', p.dst, id, Packet(p.dst, p.src, ChunkAck(id, [])));
      } else {
        EarlyChunkKeepsInv(s, s', p.dst, id, b);
      }
    }
  }

  lemma EarlyChunkKeepsInv(s: System, s': System, at: Peer, id: StreamId, b: Buffer)
    requires Inv(s) && at in s.rooms && IncomingIsGenuine(s, at, id, b)
    requires s' == s.(rooms := s.rooms[at := s.rooms[at].(incoming := s.rooms[at].incoming[id := b])])
    ensures Inv(s')
  {
    hide IsGenuine, PacketIsGenuine, IncomingIsGenuine, OutgoingIsGenuine, StreamDelivered;
    GenuineStays(s, s');
    EndsStay(s, s');
    RoomsKeepStreams(s, s', at);
  }

  lemma LastChunkKeepsInv(s: System, s': System, at: Peer, id: StreamId, ack: Packet)
    requires Inv(s) && at in s.rooms && id in s.streams && s.streams[id].dst == at
    requires ack.wire == ChunkAck(id, [])
    requires s' == s.(rooms := s.rooms[at := s.rooms[at].(incoming := s.rooms[at].incoming - {id})],
                      channel := s.channel + {ack},
                      delivered := s.delivered + {(s.streams[id].src, at, Concat(s.streams[id].chunks))})
    ensures Inv(s')
  {
    GenuineStays(s, s');
    RoomsKeepStreams(s, s', at);
    assert StreamDelivered(s', id);
    assert PacketIsGenuine(s', ack);
    forall d | d in s'.delivered
      ensures IsGenuine(s', d)
    {
      if d !in s.delivered {
        assert id in s'.streams && d == (s'.streams[id].src, s'.streams[id].dst, Concat(s'.streams[id].chunks));
      }
    }
  }

  lemma AckKeepsInv(s: System, s': System, p: Packet)
    requires Inv(s) && Delivers(s, s', p) && p.wire.ChunkAck?
    ensures Inv(s')
  {
    assert PacketIsGenuine(s, p);
    GenuineStays(s, s');
    var id, room := p.wire.stream, s.rooms[p.dst];
    if id in room.outgoing && p.wire.missing != [] {
      ResentIsGenuine(s, p.dst, id, room.outgoing[id], p.wire.missing);
    }
  }

  /** If a room forgets no outgoing stream, the streams keep their senders. */
  lemma RoomsKeepStreams(s: System, s': System, at: Peer)
    requires Inv(s) && at in s.rooms && at in s'.rooms && Grows(s, s') && s'.streams == s.streams
    requires s'.rooms == s.rooms[at := s'.rooms[at]] && s'.rooms[at].outgoing == s.rooms[at].outgoing
    ensures forall id | id in s'.streams ::
              s'.streams[id].src in s'.rooms && (id in s'.rooms[s'.streams[id].src].outgoing || StreamDelivered(s', id))
  {
  }

  lemma DeliveryKeepsInv(s: System, s': System, p: Packet)
    requires Inv(s) && Delivers(s, s', p)
    ensures Inv(s')
  {
    match p.wire {
      case Raw(payload) =>
        assert PacketIsGenuine(s, p);
        GenuineStays(s, s');
      case Chunk(_, _, _, _) => ChunkKeepsInv(s, s', p);
      case ChunkAck(_, _) => AckKeepsInv(s, s', p);
    }
  }

  lemma StepKeepsInv(s: System, s': System, act: Act)
    requires Inv(s) && Next(s, s', act)
    ensures Inv(s')
  {
    match act {
      case Deliver(packet) => DeliveryKeepsInv(s, s', packet);
      case Timer(_, _, _) => TimerKeepsInv(s, s', act);
      case _ => SendingKeepsInv(s, s', act);
    }
  }

  ghost predicate IsRun(run: seq<System>, acts: seq<Act>) {
    && |run| == |acts| + 1
    && Initial(run[0])
    && forall i | 0 <= i < |acts| :: Next(run[i], run[i + 1], acts[i])
  }

  /**
   * In every run, whatever is lost, repeated or reordered: a payload is handed on only if exactly this payload was
   * sent by that peer to this one; and a sender forgets a stream only after its payload has been handed on.
   */
  lemma {:induction false} RunsKeepIntegrity(run: seq<System>, acts: seq<Act>, n: nat)
    requires IsRun(run, acts) && n < |run|
    ensures Inv(run[n])
    ensures forall d | d in run[n].delivered :: IsGenuine(run[n], d)
    ensures forall id | id in run[n].streams ::
              id in run[n].rooms[run[n].streams[id].src].outgoing || StreamDelivered(run[n], id)
  {
    if n == 0 {
      InitialIsInv(run[0]);
    } else {
      RunsKeepIntegrity(run, acts, n - 1);
      StepKeepsInv(run[n - 1], run[n], acts[n - 1]);
    }
  }

  // ----- what arrives -----

  /** The receiver of a stream holds one of its pieces. */
  predicate HasPiece(s: System, id: StreamId, i: int)
    requires id in s.streams
  {
    var at := s.streams[id].dst;
    at in s.rooms && id in s.rooms[at].incoming && i in s.rooms[at].incoming[id].parts
  }

  /** With a chunk its piece is held, besides the others; or it was the last one: the payload is handed on, the stream acknowledged. */
  lemma PieceArrives(s: System, s': System, p: Packet, i: int)
    requires Inv(s) && Delivers(s, s', p) && p.wire.Chunk? && p.wire.stream in s.streams
    requires i == p.wire.index || HasPiece(s, p.wire.stream, i)
    ensures p.wire.stream in s'.streams
    ensures HasPiece(s', p.wire.stream, i)
              || (StreamDelivered(s', p.wire.stream) && Packet(p.dst, p.src, ChunkAck(p.wire.stream, [])) in s'.channel)
  {
    hide Receive, Buffer.IsComplete, Buffer.ToPayload, Delivers, Inv;
    ChunkComes(s, s', p);
    ChunkGoesToItsStream(s, p);
    ChunkIsDelivered(s, s', p);
    var b := Buffered(s.rooms[p.dst], p);
    if b.IsComplete() {
      CompleteStreamIsPayload(b, s.streams[p.wire.stream].chunks);
    }
  }

  lemma ChunkComes(s: System, s': System, p: Packet)
    requires Inv(s) && Delivers(s, s', p) && p.wire.Chunk?
    ensures p in s.channel && p.dst in s.rooms && PacketIsGenuine(s, p)
  {
  }

  function Incoming(s: System, at: Peer, id: StreamId): Option<Buffer> {
    if at in s.rooms && id in s.rooms[at].incoming then Some(s.rooms[at].incoming[id]) else None
  }

  /** Only a chunk of a stream changes what its receiver holds of it. */
  lemma OnlyChunksChangeBuffers(s: System, s': System, act: Act, at: Peer, id: StreamId)
    requires Next(s, s', act)
    requires act.Deliver? && act.packet.wire.Chunk? ==> act.packet.wire.stream != id
    ensures Incoming(s', at, id) == Incoming(s, at, id)
  {
  }

  lemma NothingIsTakenBack(s: System, s': System, act: Act)
    requires Next(s, s', act)
    ensures s.delivered <= s'.delivered && forall id | id in s.streams :: id in s'.streams && s'.streams[id] == s.streams[id]
  {
  }

  /** A piece that is held stays so until its stream is complete. */
  lemma PieceStays(s: System, s': System, act: Act, id: StreamId, i: int)
    requires Inv(s) && Next(s, s', act) && id in s.streams && (HasPiece(s, id, i) || StreamDelivered(s, id))
    ensures id in s'.streams && (HasPiece(s', id, i) || StreamDelivered(s', id))
  {
    hide Inv, SendsRaw, SendsStream, Delivers, TimerFires;
    NothingIsTakenBack(s, s', act);
    if act.Deliver? && act.packet.wire.Chunk? && act.packet.wire.stream == id {
      if HasPiece(s, id, i) {
        PieceArrives(s, s', act.packet, i);
      }
    } else {
      OnlyChunksChangeBuffers(s, s', act, s.streams[id].dst, id);
    }
  }

  predicate IsArrival(act: Act, id: StreamId, i: int) {
    act.Deliver? && act.packet.wire.Chunk? && act.packet.wire.stream == id && act.packet.wire.index == i
  }

  /** Among the first `n` acts a piece of a stream has been delivered. */
  ghost predicate HasArrived(acts: seq<Act>, n: nat, id: StreamId, i: int) {
    exists k :: 0 <= k < n && k < |acts| && IsArrival(acts[k], id, i)
  }

  lemma {:induction false} ArrivedIsHeld(run: seq<System>, acts: seq<Act>, n: nat, id: StreamId, i: int)
    requires IsRun(run, acts) && n < |run| && HasArrived(acts, n, id, i)
    ensures id in run[n].streams && (HasPiece(run[n], id, i) || StreamDelivered(run[n], id))
  {
    hide Inv, HasPiece, StreamDelivered, Next;
    RunsKeepIntegrity(run, acts, n - 1);
    if IsArrival(acts[n - 1], id, i) {
      FirstHold(run[n - 1], run[n], acts[n - 1], id, i);
    } else {
      ArrivedIsHeld(run, acts, n - 1, id, i);
      PieceStays(run[n - 1], run[n], acts[n - 1], id, i);
    }
  }

  lemma FirstHold(s: System, s': System, act: Act, id: StreamId, i: int)
    requires Inv(s) && Next(s, s', act) && IsArrival(act, id, i)
    ensures id in s'.streams && (HasPiece(s', id, i) || StreamDelivered(s', id))
  {
    hide Inv, Delivers;
    ChunkComes(s, s', act.packet);
    PieceArrives(s, s', act.packet, i);
  }

  /** A stream of which every piece has arrived, in any order and any number of times, has been handed on. */
  lemma ArrivedStreamIsDelivered(run: seq<System>, acts: seq<Act>, n: nat, id: StreamId)
    requires IsRun(run, acts) && n < |run| && id in run[n].streams
    requires forall i | 0 <= i < |run[n].streams[id].chunks| :: HasArrived(acts, n, id, i)
    ensures StreamDelivered(run[n], id)
  {
    var s, chunks := run[n], run[n].streams[id].chunks;
    RunsKeepIntegrity(run, acts, n);
    forall i | 0 <= i < |chunks|
      ensures HasPiece(s, id, i) || StreamDelivered(s, id)
    {
      ArrivedIsHeld(run, acts, n, id, i);
    }
    if !StreamDelivered(s, id) {
      assert HasPiece(s, id, 0);
      var b := s.rooms[s.streams[id].dst].incoming[id];
      assert IncomingIsGenuine(s, s.streams[id].dst, id, b);
      assert forall i | 0 <= i < |chunks| :: HasPiece(s, id, i) && i in b.parts;
      CompleteIffNothingMissing(b);
      SomethingInside(b.Missing());
    }
  }

  /** A raw message that has been delivered once has been handed on. */
  lemma {:induction false} RawIsDelivered(run: seq<System>, acts: seq<Act>, n: nat, k: nat)
    requires IsRun(run, acts) && k < n < |run| && acts[k].Deliver? && acts[k].packet.wire.Raw?
    ensures (acts[k].packet.src, acts[k].packet.dst, acts[k].packet.wire.payload) in run[n].delivered
  {
    assert Next(run[n - 1], run[n], acts[n - 1]);
    if k < n - 1 {
      RawIsDelivered(run, acts, n - 1, k);
    }
  }

  lemma {:induction false} ResentHasPiece(stream: StreamId, out: Outgoing, missing: seq<int>, i: int)
    requires i in missing && 0 <= i < |out.chunks|
    ensures (out.peer, Chunk(stream, i, |out.chunks|, out.chunks[i])) in Resent(stream, out, missing)
  {
    if missing[|missing| - 1] != i {
      ResentHasPiece(stream, out, missing[..|missing| - 1], i);
    }
  }

  /** The timer of a stream that has begun to arrive asks for exactly the pieces that its receiver does not hold. */
  lemma TimerAsksForMissing(s: System, id: StreamId)
    requires Inv(s) && id in s.streams && Incoming(s, s.streams[id].dst, id).Some?
    ensures var ack := MissingTimer(s.rooms[s.streams[id].dst], id);
            && ack.Some? && ack.value.ChunkAck? && ack.value.stream == id && ack.value.missing != []
            && forall i :: i in ack.value.missing <==> 0 <= i < |s.streams[id].chunks| && !HasPiece(s, id, i)
  {
    var b := s.rooms[s.streams[id].dst].incoming[id];
    assert IncomingIsGenuine(s, s.streams[id].dst, id, b);
    CompleteIffNothingMissing(b);
  }

  /**
   * The timer of an incomplete stream asks its sender for what is missing; once that has arrived, every missing piece
   * is on its way again, or the payload has been handed on.
   */
  lemma TimerBringsMissing(s: System, s1: System, s2: System, id: StreamId, i: int)
    requires Inv(s) && id in s.streams && TimerFires(s, s1, s.streams[id].dst, id, s.streams[id].src)
    requires 0 <= i < |s.streams[id].chunks| && !HasPiece(s, id, i)
    requires Delivers(s1, s2, Packet(s.streams[id].dst, s.streams[id].src, MissingTimer(s.rooms[s.streams[id].dst], id).value))
    ensures var st := s.streams[id];
            Packet(st.src, st.dst, Chunk(id, i, |st.chunks|, st.chunks[i])) in s2.channel
              || (st.src, st.dst, Concat(st.chunks)) in s2.delivered
  {
    var st, room := s.streams[id], s.rooms[s.streams[id].src];
    var b := s.rooms[st.dst].incoming[id];
    assert IncomingIsGenuine(s, st.dst, id, b);
    assert i in b.Missing();
    if id in room.outgoing {
      assert OutgoingIsGenuine(s, st.src, id, room.outgoing[id]);
      ResentHasPiece(id, room.outgoing[id], b.Missing(), i);
    } else {
      assert StreamDelivered(s, id);
    }
  }

  /** The sender of a stream forgets it when it is acknowledged. */
  lemma AcknowledgedIsForgotten(s: System, s': System, p: Packet)
    requires Delivers(s, s', p) && p.wire.ChunkAck? && p.wire.missing == []
    ensures p.dst in s'.rooms && p.wire.stream !in s'.rooms[p.dst].outgoing
  {
  }
}
