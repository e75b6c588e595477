/**
  The outbound half of the realtime relay: the `data` handler each speaker's
  audio stream gets in src/realtime/Websocket.ts. Every chunk is decoded from
  Opus to PCM and base64-encoded, and an `input_audio_buffer.append` message
  carrying it is sent only if the socket is open at that moment.
*/
module SendGate {
  import opened Base

  /** `WebSocket.readyState`. */
  datatype ReadyState = Connecting | Open | Closing | Closed

  /** `{ type: 'input_audio_buffer.append', audio }`, the one message the client sends. */
  datatype ClientMessage = InputAudioBufferAppend(audio: string)

  /** One Opus chunk and the socket state when its `data` event fires. */
  datatype Arrival = Arrival(chunk: Bytes, socket: ReadyState)

  /** The Opus decoder at 24 kHz mono, left uninterpreted. */
  type OpusDecoder = Bytes -> Bytes

  /** Node's base64 encoding (`Buffer.toString('base64')`), left uninterpreted. */
  type Base64Encoder = Bytes -> string

  /** What one `data` event does: send a message, or log that the socket is not open. */
  datatype DataOutcome = Send(message: ClientMessage) | LoggedNotOpen

  /** One `data` event. */
  function OnData(a: Arrival, decode: OpusDecoder, encode: Base64Encoder): DataOutcome {
    var audio := encode(decode(a.chunk));
    if a.socket == Open then Send(InputAudioBufferAppend(audio)) else LoggedNotOpen
  }

  /** The messages sent for a run of chunks, in arrival order. */
  function Sent(arrivals: seq<Arrival>, decode: OpusDecoder, encode: Base64Encoder): seq<ClientMessage>
    decreases |arrivals|
  {
    if |arrivals| == 0 then []
    else
      var prior := Sent(arrivals[..|arrivals| - 1], decode, encode);
      match OnData(arrivals[|arrivals| - 1], decode, encode)
      case Send(m) => prior + [m]
      case LoggedNotOpen => prior
  }

  /** The chunks that arrived while the socket was open, in arrival order. */
  function OpenChunks(arrivals: seq<Arrival>): seq<Bytes>
    decreases |arrivals|
  {
    if |arrivals| == 0 then []
    else
      var prior := OpenChunks(arrivals[..|arrivals| - 1]);
      var last := arrivals[|arrivals| - 1];
      if last.socket == Open then prior + [last.chunk] else prior
  }

  /** The `k`-th message sent carries the encoding of the decoding of the `k`-th chunk that arrived while open. */
  lemma {:induction false} SentMatchesOpenChunks(arrivals: seq<Arrival>, decode: OpusDecoder, encode: Base64Encoder)
    ensures var sent := Sent(arrivals, decode, encode);
      && |sent| == |OpenChunks(arrivals)|
      && forall k :: 0 <= k < |sent| ==> sent[k] == InputAudioBufferAppend(encode(decode(OpenChunks(arrivals)[k])))
    decreases |arrivals|
  {
    if |arrivals| > 0 {
      SentMatchesOpenChunks(arrivals[..|arrivals| - 1], decode, encode);
    }
  }

  /** Sending is a fold: the messages for two runs back to back are the first run's followed by the second's. */
  lemma {:induction false} SentConcat(xs: seq<Arrival>, ys: seq<Arrival>, decode: OpusDecoder, encode: Base64Encoder)
    ensures Sent(xs + ys, decode, encode) == Sent(xs, decode, encode) + Sent(ys, decode, encode)
    decreases |ys|
  {
    if |ys| == 0 {
      assert xs + ys == xs;
    } else {
      var ys' := ys[..|ys| - 1];
      assert (xs + ys)[..|xs + ys| - 1] == xs + ys';
      SentConcat(xs, ys', decode, encode);
    }
  }

  /** Chunks that arrive while the socket is not open send nothing, whatever came before. */
  lemma {:induction false} NothingSentUnlessOpen(xs: seq<Arrival>, ys: seq<Arrival>, decode: OpusDecoder, encode: Base64Encoder)
    requires forall k :: 0 <= k < |ys| ==> ys[k].socket != Open
    ensures Sent(xs + ys, decode, encode) == Sent(xs, decode, encode)
    decreases |ys|
  {
    if |ys| == 0 {
      assert xs + ys == xs;
    } else {
      var ys' := ys[..|ys| - 1];
      assert (xs + ys)[..|xs + ys| - 1] == xs + ys';
      NothingSentUnlessOpen(xs, ys', decode, encode);
    }
  }

  /** The handler driven over the chunks as they arrive, collecting what goes out on the socket. */
  method Relay(arrivals: seq<Arrival>, decode: OpusDecoder, encode: Base64Encoder) returns (sent: seq<ClientMessage>)
    ensures sent == Sent(arrivals, decode, encode)
    ensures |sent| == |OpenChunks(arrivals)|
    ensures forall k :: 0 <= k < |sent| ==> sent[k] == InputAudioBufferAppend(encode(decode(OpenChunks(arrivals)[k])))
  {
    sent := [];
    var i := 0;
    while i < |arrivals|
      invariant 0 <= i <= |arrivals|
      invariant sent == Sent(arrivals[..i], decode, encode)
      invariant |sent| == |OpenChunks(arrivals[..i])|
      invariant forall k :: 0 <= k < |sent| ==> sent[k] == InputAudioBufferAppend(encode(decode(OpenChunks(arrivals[..i])[k])))
    {
      assert arrivals[..i + 1][..i] == arrivals[..i];
      var m := OnData(arrivals[i], decode, encode);
      if m.Send? {
        sent := sent + [m.message];
      }
      i := i + 1;
    }
    assert arrivals[..|arrivals|] == arrivals;
  }

  /** Three chunks on an open socket: exactly three messages, in order, one per chunk. */
  lemma ThreeChunkScenario(c0: Bytes, c1: Bytes, c2: Bytes, decode: OpusDecoder, encode: Base64Encoder)
    ensures var sent := Sent([Arrival(c0, Open), Arrival(c1, Open), Arrival(c2, Open)], decode, encode);
      sent == [InputAudioBufferAppend(encode(decode(c0))),
               InputAudioBufferAppend(encode(decode(c1))),
               InputAudioBufferAppend(encode(decode(c2)))]
  {
    var xs := [Arrival(c0, Open), Arrival(c1, Open), Arrival(c2, Open)];
    assert xs[..2] == [Arrival(c0, Open), Arrival(c1, Open)];
    assert xs[..2][..1] == [Arrival(c0, Open)];
    assert xs[..2][..1][..0] == [];
    assert xs[..3] == xs;
    assert Sent(xs[..2][..1], decode, encode) == [InputAudioBufferAppend(encode(decode(c0)))];
    assert Sent(xs[..2], decode, encode) == [InputAudioBufferAppend(encode(decode(c0))), InputAudioBufferAppend(encode(decode(c1)))];
  }
}
