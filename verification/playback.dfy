/**
  The inbound half of the realtime relay: the `handleMessage` switch of
  src/realtime/Websocket.ts and the module-level slot it updates
  (`currentPassThrough` / `currentResource`).

  Each parsed server event is one step of a pure state machine that returns
  the new slot and the effects the handler performs, in the order it performs
  them. The slot is global: one stream of events drives it, whichever voice
  session the events come from.
*/
module Playback {
  import opened Base

  /** The arms of the `switch (message.type)`, with `Unknown` for every type it has no case for. */
  datatype ServerEvent =
    | SessionCreated
    | SpeechStarted
    | SpeechStopped
    | Committed
    | AudioDelta(delta: string)
    | AudioDone
    | ErrorEvent(error: string)
    | Unknown(tag: string)

  /** The value of the `type` field that selects each arm. */
  function Tag(e: ServerEvent): string {
    match e
    case SessionCreated => "session.created"
    case SpeechStarted => "input_audio_buffer.speech_started"
    case SpeechStopped => "input_audio_buffer.speech_stopped"
    case Committed => "input_audio_buffer.committed"
    case AudioDelta(_) => "response.audio.delta"
    case AudioDone => "response.audio.done"
    case ErrorEvent(_) => "error"
    case Unknown(t) => t
  }

  /** The `type` values the switch has a case for. */
  const HandledTags: set<string> := {
    "session.created",
    "input_audio_buffer.speech_started",
    "input_audio_buffer.speech_stopped",
    "input_audio_buffer.committed",
    "response.audio.delta",
    "response.audio.done",
    "error"
  }

  /**
    The arm a parsed frame falls into, given its `type`, `delta` and `error`
    fields. The tag is recovered from the event, and the event is `Unknown`
    exactly when the switch has no case for the tag.
  */
  function Classify(tag: string, delta: string, error: string): (e: ServerEvent)
    ensures Tag(e) == tag
    ensures e.Unknown? <==> tag !in HandledTags
    ensures e.AudioDelta? ==> e.delta == delta
    ensures e.ErrorEvent? ==> e.error == error
  {
    if tag == "session.created" then SessionCreated
    else if tag == "input_audio_buffer.speech_started" then SpeechStarted
    else if tag == "input_audio_buffer.speech_stopped" then SpeechStopped
    else if tag == "input_audio_buffer.committed" then Committed
    else if tag == "response.audio.delta" then AudioDelta(delta)
    else if tag == "response.audio.done" then AudioDone
    else if tag == "error" then ErrorEvent(error)
    else Unknown(tag)
  }

  /** An event a frame can actually parse to: `Unknown` never carries a handled tag. */
  predicate Parsable(e: ServerEvent) {
    e.Unknown? ==> e.tag !in HandledTags
  }

  /** Every parsable event is what its own fields classify to. */
  lemma ClassifyTag(e: ServerEvent)
    requires Parsable(e)
    ensures Classify(Tag(e), if e.AudioDelta? then e.delta else "", if e.ErrorEvent? then e.error else "") == e
  {
  }

  /** The active output buffer (a `PassThrough`); `id` stands for its object identity. */
  datatype Stream = Stream(id: nat, written: Bytes, destroyed: bool)

  /**
    The module-level slot. `passThrough` is `currentPassThrough`; `resource`
    is `currentResource`, named by the id of the stream it was built from.
    `nextId` is the identity the next `new PassThrough()` receives.
  */
  datatype State = State(passThrough: Option<Stream>, resource: Option<nat>, nextId: nat)

  /** The slot at module load: both variables `null`. */
  const Initial: State := State(None, None, 0)

  /** Stream and resource are set and cleared together, and the stream's identity has been allocated. */
  predicate Valid(s: State) {
    && (s.passThrough.Some? <==> s.resource.Some?)
    && (s.passThrough.Some? ==> s.resource.value == s.passThrough.value.id && s.passThrough.value.id < s.nextId)
  }

  /** The two listeners registered on the audio player each time a stream is created. */
  datatype Listener = OnPlaying | OnStateChange

  /** What the handler does to the outside world, in order. */
  datatype Effect =
    | Logged(tag: string)          // a console line about an event of this type
    | NewStream(id: nat)           // new PassThrough()
    | Resample(id: nat)            // resampleAudio: ffmpeg 24 kHz -> 48 kHz on the stream
    | NewResource(id: nat)         // createAudioResource over the resampled stream
    | Play(id: nat)                // audioPlayer.play(resource)
    | AddListener(listener: Listener)
    | Write(id: nat, bytes: Bytes) // passThrough.write(buffer)
    | End(id: nat)                 // passThrough.end()
    | CloseSocket                  // ws.close()

  /** The buffer an effect acts on, if any. */
  function Subject(e: Effect): Option<nat> {
    match e
    case NewStream(i) => Some(i)
    case Resample(i) => Some(i)
    case NewResource(i) => Some(i)
    case Play(i) => Some(i)
    case Write(i, _) => Some(i)
    case End(i) => Some(i)
    case _ => None
  }

  /** The new slot and the effects of one step. */
  datatype Outcome = Outcome(state: State, effects: seq<Effect>)

  /** Node's base64 decoding (`Buffer.from(s, 'base64')`), left uninterpreted. */
  type Base64Decoder = string -> Bytes

  /** One call of `handleMessage` on an already parsed event. */
  function Step(s: State, e: ServerEvent, b64: Base64Decoder): Outcome {
    match e
    case SessionCreated => Outcome(s, [Logged(Tag(e))])
    case SpeechStarted => Outcome(s, [Logged(Tag(e))])
    case SpeechStopped => Outcome(s, [Logged(Tag(e))])
    case Committed => Outcome(s, [Logged(Tag(e))])
    case AudioDelta(d) =>
      var bytes := b64(d);
      if s.passThrough.None? then
        var id := s.nextId;
        Outcome(
          State(Some(Stream(id, bytes, false)), Some(id), id + 1),
          [NewStream(id), Resample(id), NewResource(id), Play(id),
           AddListener(OnPlaying), AddListener(OnStateChange), Write(id, bytes)])
      else
        var st := s.passThrough.value;
        Outcome(s.(passThrough := Some(st.(written := st.written + bytes))), [Write(st.id, bytes)])
    case AudioDone =>
      var ending :=
        if s.passThrough.Some? && !s.passThrough.value.destroyed then [End(s.passThrough.value.id)] else [];
      Outcome(s.(passThrough := None, resource := None), [Logged(Tag(e))] + ending)
    case ErrorEvent(_) => Outcome(s, [Logged(Tag(e)), CloseSocket])
    case Unknown(_) => Outcome(s, [])
  }

  /**
    What reaches the slot: a server message, or the active stream being
    destroyed by the stream machinery (which sets its `destroyed` flag outside
    the handler).
  */
  datatype Input = Message(event: ServerEvent) | StreamDestroyed

  function Apply(s: State, inp: Input, b64: Base64Decoder): Outcome {
    match inp
    case Message(e) => Step(s, e, b64)
    case StreamDestroyed =>
      match s.passThrough
      case None => Outcome(s, [])
      case Some(st) => Outcome(s.(passThrough := Some(st.(destroyed := true))), [])
  }

  /** The inputs applied in arrival order from `s`: the final slot and the whole effect trace. */
  function Run(s: State, inputs: seq<Input>, b64: Base64Decoder): Outcome
    decreases |inputs|
  {
    if |inputs| == 0 then Outcome(s, [])
    else
      var prev := Run(s, inputs[..|inputs| - 1], b64);
      var last := Apply(prev.state, inputs[|inputs| - 1], b64);
      Outcome(last.state, prev.effects + last.effects)
  }

  // ---------------------------------------------------------------------------
  // Single steps

  /** The first delta with no active stream creates one stream, plays its resource once, then writes the payload. */
  lemma FirstDelta(s: State, d: string, b64: Base64Decoder)
    requires Valid(s) && s.passThrough.None?
    ensures var o := Step(s, AudioDelta(d), b64);
      && o.state.passThrough == Some(Stream(s.nextId, b64(d), false))
      && o.state.resource == Some(s.nextId)
      && Valid(o.state)
      && o.effects[0] == NewStream(s.nextId)
      && (forall k :: 0 <= k < |o.effects| && o.effects[k].NewStream? ==> k == 0)
      && (forall k :: 0 <= k < |o.effects| && o.effects[k].Play? ==> o.effects[k] == Play(s.nextId) && k == 3)
      && Play(s.nextId) in o.effects
      && o.effects[|o.effects| - 1] == Write(s.nextId, b64(d))
  {
  }

  /** A delta with an active stream appends to it and does nothing else: no new stream, no second `play`. */
  lemma LaterDelta(s: State, d: string, b64: Base64Decoder)
    requires Valid(s) && s.passThrough.Some?
    ensures var o := Step(s, AudioDelta(d), b64);
      var st := s.passThrough.value;
      && o.state.passThrough == Some(st.(written := st.written + b64(d)))
      && o.state.resource == s.resource
      && o.state.nextId == s.nextId
      && o.effects == [Write(st.id, b64(d))]
  {
  }

  /** `done` ends the stream only if it exists and is not destroyed, then clears both variables regardless. */
  lemma DoneResets(s: State, b64: Base64Decoder)
    ensures var o := Step(s, AudioDone, b64);
      && o.state.passThrough.None? && o.state.resource.None?
      && o.state.nextId == s.nextId
      && (forall k :: 0 <= k < |o.effects| && o.effects[k].End? ==>
            s.passThrough.Some? && o.effects[k].id == s.passThrough.value.id)
      && ((exists k :: 0 <= k < |o.effects| && o.effects[k].End?) <==>
            (s.passThrough.Some? && !s.passThrough.value.destroyed))
  {
    var o := Step(s, AudioDone, b64);
    if s.passThrough.Some? && !s.passThrough.value.destroyed {
      assert o.effects[1].End?;
    }
  }

  /** After `done`, the next delta starts a fresh stream holding only its own payload. */
  lemma FreshAfterDone(s: State, d: string, b64: Base64Decoder)
    requires Valid(s)
    ensures var mid := Step(s, AudioDone, b64).state;
      var o := Step(mid, AudioDelta(d), b64);
      && o.state.passThrough == Some(Stream(s.nextId, b64(d), false))
      && (s.passThrough.Some? ==> o.state.passThrough.value.id != s.passThrough.value.id)
      && NewStream(s.nextId) in o.effects
  {
  }

  /** `error` closes the socket and leaves the slot exactly as it was: nothing is ended or reset. */
  lemma ErrorKeepsSlot(s: State, m: string, b64: Base64Decoder)
    ensures var o := Step(s, ErrorEvent(m), b64);
      && o.state == s
      && CloseSocket in o.effects
      && (forall k :: 0 <= k < |o.effects| ==> Subject(o.effects[k]).None?)
  {
  }

  /** The informational events and every unhandled type leave the slot alone and at most log. */
  lemma QuietEvents(s: State, e: ServerEvent, b64: Base64Decoder)
    requires e.SessionCreated? || e.SpeechStarted? || e.SpeechStopped? || e.Committed? || e.Unknown?
    ensures var o := Step(s, e, b64);
      && o.state == s
      && (forall k :: 0 <= k < |o.effects| ==> o.effects[k] == Logged(Tag(e)))
      && (e.Unknown? ==> o.effects == [])
  {
  }

  // ---------------------------------------------------------------------------
  // Whole runs: the slot against an independent account of the deltas

  /** Payloads of the deltas received since the last `done`, in arrival order. */
  function DeltasSinceDone(inputs: seq<Input>): seq<string>
    decreases |inputs|
  {
    if |inputs| == 0 then []
    else
      var prior := DeltasSinceDone(inputs[..|inputs| - 1]);
      match inputs[|inputs| - 1]
      case Message(AudioDelta(d)) => prior + [d]
      case Message(AudioDone) => []
      case _ => prior
  }

  /** The decoded payloads joined end to end. */
  function Joined(ds: seq<string>, b64: Base64Decoder): Bytes
    decreases |ds|
  {
    if |ds| == 0 then [] else Joined(ds[..|ds| - 1], b64) + b64(ds[|ds| - 1])
  }

  /**
    From module load, a stream is active exactly when a delta has arrived since
    the last `done`, and what has been written to it is the concatenation of the
    decoded payloads of those deltas, in arrival order.
  */
  lemma {:induction false} RunMatchesDeltas(inputs: seq<Input>, b64: Base64Decoder)
    ensures var s := Run(Initial, inputs, b64).state;
      && Valid(s)
      && (s.passThrough.Some? <==> |DeltasSinceDone(inputs)| > 0)
      && (s.passThrough.Some? ==> s.passThrough.value.written == Joined(DeltasSinceDone(inputs), b64))
    decreases |inputs|
  {
    if |inputs| > 0 {
      var prefix := inputs[..|inputs| - 1];
      RunMatchesDeltas(prefix, b64);
      var ds := DeltasSinceDone(prefix);
      match inputs[|inputs| - 1]
      case Message(AudioDelta(d)) =>
        assert (ds + [d])[..|ds|] == ds;
      case _ =>
    }
  }

  /** Two fragments then `done`: the stream receives the first payload, then the second, then one `end`. */
  lemma TwoFragmentScenario(b64: Base64Decoder)
    requires b64("AA==") == [0] && b64("AQ==") == [1]
    ensures var o := Run(Initial, [Message(AudioDelta("AA==")), Message(AudioDelta("AQ==")), Message(AudioDone)], b64);
      && o.state == State(None, None, 1)
      && o.effects == [NewStream(0), Resample(0), NewResource(0), Play(0),
                       AddListener(OnPlaying), AddListener(OnStateChange), Write(0, [0]),
                       Write(0, [1]),
                       Logged("response.audio.done"), End(0)]
  {
    var i := [Message(AudioDelta("AA==")), Message(AudioDelta("AQ==")), Message(AudioDone)];
    assert i[..2][..1] == i[..1] == [Message(AudioDelta("AA=="))];
    assert i[..1][..0] == [];
    assert i[..3] == i;
    var r0 := Run(Initial, i[..1][..0], b64);
    assert r0 == Outcome(Initial, []);
    var r1 := Run(Initial, i[..1], b64);
    assert r1 == Outcome(Apply(r0.state, i[0], b64).state, Apply(r0.state, i[0], b64).effects);
    assert r1.state == State(Some(Stream(0, [0], false)), Some(0), 1);
    var r2 := Run(Initial, i[..2], b64);
    var a2 := Apply(r1.state, i[1], b64);
    assert r2 == Outcome(a2.state, r1.effects + a2.effects);
    var both: Bytes := [0, 1];
    assert a2.state.passThrough.value.written == both;
    assert r2.effects == r1.effects + [Write(0, [1])];
  }
}
