/**
  The life of each output buffer as it shows in the effect trace of a run of
  the playback slot: buffers never overlap, a buffer is created before
  anything else happens to it, its resource is played once, and nothing
  happens to it after its `end`.
*/
module PlaybackTrace {
  import opened Base
  import opened Playback

  /** Once some other buffer has been acted on, an earlier buffer is never acted on again. */
  predicate Disjoint(t: seq<Effect>) {
    forall p, q, r :: 0 <= p < q < r < |t| && Subject(t[p]).Some? && Subject(t[q]).Some? && Subject(t[p]) != Subject(t[q])
      ==> Subject(t[r]) != Subject(t[p])
  }

  /** Nothing acts on a buffer before its creation. */
  predicate CreateFirst(t: seq<Effect>) {
    forall p, q :: 0 <= p < q < |t| && t[q].NewStream? ==> Subject(t[p]) != Some(t[q].id)
  }

  /** A buffer's resource is played at most once. */
  predicate PlayOnce(t: seq<Effect>) {
    forall p, q :: 0 <= p < q < |t| && t[p].Play? ==> t[q] != t[p]
  }

  /** Nothing acts on a buffer after its `end` (so it is ended at most once). */
  predicate EndLast(t: seq<Effect>) {
    forall p, q :: 0 <= p < q < |t| && t[p].End? ==> Subject(t[q]) != Some(t[p].id)
  }

  /** Every buffer acted on is created somewhere in the trace (before its other effects, by `CreateFirst`). */
  predicate Created(t: seq<Effect>) {
    forall q :: 0 <= q < |t| && Subject(t[q]).Some? ==> NewStream(Subject(t[q]).value) in t
  }

  /** The ordering facts about each buffer's effects. */
  predicate Ordered(t: seq<Effect>) {
    Disjoint(t) && CreateFirst(t) && PlayOnce(t) && EndLast(t)
  }

  predicate Lifecycle(t: seq<Effect>) {
    Ordered(t) && Created(t)
  }

  /** Every buffer named in the trace has an identity below `n`. */
  predicate Bounded(t: seq<Effect>, n: nat) {
    forall p :: 0 <= p < |t| && Subject(t[p]).Some? ==> Subject(t[p]).value < n
  }

  /** No effect of the trace acts on buffer `a`. */
  predicate Untouched(t: seq<Effect>, a: nat) {
    forall p :: 0 <= p < |t| ==> Subject(t[p]) != Some(a)
  }

  /** After the first effect on `a`, every effect on a buffer is on `a`, and `a` has not been ended. */
  predicate Current(t: seq<Effect>, a: nat) {
    && (forall p, q :: 0 <= p < q < |t| && Subject(t[p]) == Some(a) && Subject(t[q]).Some? ==> Subject(t[q]) == Some(a))
    && (forall p :: 0 <= p < |t| ==> t[p] != End(a))
  }

  /** What a run from module load keeps true of its slot and its trace. */
  predicate Inv(s: State, t: seq<Effect>) {
    && Valid(s)
    && Lifecycle(t)
    && Bounded(t, s.nextId)
    && (s.passThrough.Some? ==> Current(t, s.passThrough.value.id) && NewStream(s.passThrough.value.id) in t)
  }

  /** The effects of one step act on buffer `x` alone, and satisfy the lifecycle on their own. */
  predicate OnlyOn(e: seq<Effect>, x: nat) {
    && Ordered(e)
    && (forall q :: 0 <= q < |e| && Subject(e[q]).Some? ==> Subject(e[q]) == Some(x))
  }

  /** Appending one step's effects keeps every effect on a buffer after its creation. */
  lemma AppendKeepsCreated(t: seq<Effect>, e: seq<Effect>, x: nat)
    requires Created(t) && OnlyOn(e, x)
    requires Created(e) || NewStream(x) in t
    ensures Created(t + e)
  {
    var u := t + e;
    forall q | 0 <= q < |u| && Subject(u[q]).Some?
      ensures NewStream(Subject(u[q]).value) in u
    {
      if q >= |t| {
        assert u[q] == e[q - |t|];
      }
    }
  }

  /** Appending one step's effects keeps the ordering, for a fresh buffer or for the current one. */
  lemma AppendKeepsOrdered(t: seq<Effect>, e: seq<Effect>, x: nat)
    requires Ordered(t) && OnlyOn(e, x)
    requires Untouched(t, x) || (Current(t, x) && forall q :: 0 <= q < |e| ==> !e[q].NewStream? && !e[q].Play?)
    ensures Ordered(t + e)
  {
    var u := t + e;
    assert forall q :: |t| <= q < |u| ==> u[q] == e[q - |t|];
    forall p, q, r | 0 <= p < q < r < |u| && Subject(u[p]).Some? && Subject(u[q]).Some? && Subject(u[p]) != Subject(u[q])
      ensures Subject(u[r]) != Subject(u[p])
    {
    }
    forall p, q | 0 <= p < q < |u| && u[p].End?
      ensures Subject(u[q]) != Some(u[p].id)
    {
      if p < |t| && q >= |t| {
        assert Subject(u[p]) == Some(u[p].id);
      }
    }
    forall p, q | 0 <= p < q < |u| && u[q].NewStream?
      ensures Subject(u[p]) != Some(u[q].id)
    {
      if p < |t| && q >= |t| {
        assert Subject(u[q]) == Some(x);
      }
    }
    forall p, q | 0 <= p < q < |u| && u[p].Play?
      ensures u[q] != u[p]
    {
      if p < |t| && q >= |t| {
        assert Subject(u[p]) == Some(u[p].id);
      }
    }
  }

  /** The effects of creating a stream act on that stream alone and respect its lifecycle. */
  lemma OpeningOnlyOn(id: nat, bytes: Bytes)
    ensures OnlyOn([NewStream(id), Resample(id), NewResource(id), Play(id),
                    AddListener(OnPlaying), AddListener(OnStateChange), Write(id, bytes)], id)
    ensures Created([NewStream(id), Resample(id), NewResource(id), Play(id),
                     AddListener(OnPlaying), AddListener(OnStateChange), Write(id, bytes)])
  {
    var e := [NewStream(id), Resample(id), NewResource(id), Play(id),
              AddListener(OnPlaying), AddListener(OnStateChange), Write(id, bytes)];
    assert forall q :: 0 <= q < |e| && Subject(e[q]).Some? ==> Subject(e[q]) == Some(id);
    assert forall q :: 0 <= q < |e| && e[q].NewStream? ==> q == 0;
    assert forall q :: 0 <= q < |e| && e[q].Play? ==> q == 3;
    assert forall q :: 0 <= q < |e| ==> !e[q].End?;
    assert e[0] == NewStream(id);
  }

  /** A delta with no active stream: the new buffer is fresh and becomes current. */
  lemma CreateKeepsInv(s: State, t: seq<Effect>, d: string, b64: Base64Decoder)
    requires Inv(s, t) && s.passThrough.None?
    ensures var o := Step(s, AudioDelta(d), b64); Inv(o.state, t + o.effects)
  {
    var o := Step(s, AudioDelta(d), b64);
    var x := s.nextId;
    var u := t + o.effects;
    assert forall q :: |t| <= q < |u| ==> u[q] == o.effects[q - |t|];
    OpeningOnlyOn(x, b64(d));
    AppendKeepsOrdered(t, o.effects, x);
    AppendKeepsCreated(t, o.effects, x);
    assert forall q :: 0 <= q < |o.effects| ==> !o.effects[q].End?;
    assert u[|t|] == NewStream(x);
  }

  /** A delta while a stream is active writes to that stream alone. */
  lemma ActiveDeltaKeepsInv(s: State, t: seq<Effect>, d: string, b64: Base64Decoder)
    requires Inv(s, t) && s.passThrough.Some?
    ensures var o := Step(s, AudioDelta(d), b64); Inv(o.state, t + o.effects)
  {
    var o := Step(s, AudioDelta(d), b64);
    var x := s.passThrough.value.id;
    assert o.effects == [Write(x, b64(d))];
    assert OnlyOn(o.effects, x);
    AppendKeepsOrdered(t, o.effects, x);
    AppendKeepsCreated(t, o.effects, x);
    var u := t + o.effects;
    assert u[|t|] == Write(x, b64(d));
    assert t <= u;
  }

  /** `done` while a stream is active at most ends that stream, and empties the slot. */
  lemma ActiveDoneKeepsInv(s: State, t: seq<Effect>, b64: Base64Decoder)
    requires Inv(s, t) && s.passThrough.Some?
    ensures var o := Step(s, AudioDone, b64); Inv(o.state, t + o.effects)
  {
    var o := Step(s, AudioDone, b64);
    var x := s.passThrough.value.id;
    assert o.effects == [Logged(Tag(AudioDone))] || o.effects == [Logged(Tag(AudioDone)), End(x)];
    assert OnlyOn(o.effects, x);
    AppendKeepsOrdered(t, o.effects, x);
    AppendKeepsCreated(t, o.effects, x);
  }

  /** Any input other than a delta or `done` while a stream is active acts on no buffer and keeps the stream. */
  lemma ActiveQuietKeepsInv(s: State, t: seq<Effect>, inp: Input, b64: Base64Decoder)
    requires Inv(s, t) && s.passThrough.Some?
    requires !(inp.Message? && (inp.event.AudioDelta? || inp.event.AudioDone?))
    ensures var o := Apply(s, inp, b64); Inv(o.state, t + o.effects)
  {
    var o := Apply(s, inp, b64);
    var x := s.passThrough.value.id;
    assert o.state.passThrough.Some? && o.state.passThrough.value.id == x;
    assert o.state.resource == s.resource && o.state.nextId == s.nextId;
    assert forall q :: 0 <= q < |o.effects| ==> Subject(o.effects[q]).None?;
    assert OnlyOn(o.effects, x);
    AppendKeepsOrdered(t, o.effects, x);
    AppendKeepsCreated(t, o.effects, x);
    var u := t + o.effects;
    assert forall q :: |t| <= q < |u| ==> u[q] == o.effects[q - |t|];
    assert t <= u;
  }

  /** Any other input while no stream is active acts on no buffer. */
  lemma IdleKeepsInv(s: State, t: seq<Effect>, inp: Input, b64: Base64Decoder)
    requires Inv(s, t) && s.passThrough.None?
    requires !(inp.Message? && inp.event.AudioDelta?)
    ensures var o := Apply(s, inp, b64); Inv(o.state, t + o.effects)
  {
    var o := Apply(s, inp, b64);
    var u := t + o.effects;
    assert forall q :: |t| <= q < |u| ==> u[q] == o.effects[q - |t|];
    assert forall q :: 0 <= q < |o.effects| ==> Subject(o.effects[q]).None?;
    assert OnlyOn(o.effects, s.nextId) && Created(o.effects);
    AppendKeepsOrdered(t, o.effects, s.nextId);
    AppendKeepsCreated(t, o.effects, s.nextId);
  }

  /** One input preserves the invariant. */
  lemma ApplyKeepsInv(s: State, t: seq<Effect>, inp: Input, b64: Base64Decoder)
    requires Inv(s, t)
    ensures var o := Apply(s, inp, b64); Inv(o.state, t + o.effects)
  {
    if s.passThrough.Some? && inp.Message? && inp.event.AudioDelta? {
      ActiveDeltaKeepsInv(s, t, inp.event.delta, b64);
    } else if s.passThrough.Some? && inp.Message? && inp.event.AudioDone? {
      ActiveDoneKeepsInv(s, t, b64);
    } else if s.passThrough.Some? {
      ActiveQuietKeepsInv(s, t, inp, b64);
    } else if inp.Message? && inp.event.AudioDelta? {
      CreateKeepsInv(s, t, inp.event.delta, b64);
    } else {
      IdleKeepsInv(s, t, inp, b64);
    }
  }

  /** In a trace with this lifecycle, each effect on a buffer is preceded, or is, that buffer's creation. */
  lemma CreatedBeforeUse(t: seq<Effect>)
    requires Lifecycle(t)
    ensures forall q :: 0 <= q < |t| && Subject(t[q]).Some? ==> NewStream(Subject(t[q]).value) in t[..q + 1]
  {
    forall q | 0 <= q < |t| && Subject(t[q]).Some?
      ensures NewStream(Subject(t[q]).value) in t[..q + 1]
    {
      var v := Subject(t[q]).value;
      var j :| 0 <= j < |t| && t[j] == NewStream(v);
      assert j <= q;
      assert t[..q + 1][j] == NewStream(v);
    }
  }

  /**
    Every run from module load keeps the invariant, so its trace respects each
    buffer's lifecycle, and every effect on a buffer comes at or after that
    buffer's creation.
  */
  lemma {:induction false} RunLifecycle(inputs: seq<Input>, b64: Base64Decoder)
    ensures var o := Run(Initial, inputs, b64); Inv(o.state, o.effects)
    ensures var t := Run(Initial, inputs, b64).effects;
      forall q :: 0 <= q < |t| && Subject(t[q]).Some? ==> NewStream(Subject(t[q]).value) in t[..q + 1]
    decreases |inputs|
  {
    if |inputs| > 0 {
      var prefix := inputs[..|inputs| - 1];
      RunLifecycle(prefix, b64);
      var prev := Run(Initial, prefix, b64);
      ApplyKeepsInv(prev.state, prev.effects, inputs[|inputs| - 1], b64);
    }
    CreatedBeforeUse(Run(Initial, inputs, b64).effects);
  }

  // ---------------------------------------------------------------------------
  // The bytes handed to `write`, as they show in the trace

  /** The payloads of the trace's `write` calls on buffer `id`, joined in trace order. */
  function WrittenTo(t: seq<Effect>, id: nat): Bytes
    decreases |t|
  {
    if |t| == 0 then []
    else
      var last := t[|t| - 1];
      WrittenTo(t[..|t| - 1], id) + (if last.Write? && last.id == id then last.bytes else [])
  }

  lemma {:induction false} WrittenToAppend(t: seq<Effect>, e: seq<Effect>, id: nat)
    ensures WrittenTo(t + e, id) == WrittenTo(t, id) + WrittenTo(e, id)
    decreases |e|
  {
    if |e| == 0 {
      assert t + e == t;
    } else {
      var u := t + e;
      var e' := e[..|e| - 1];
      assert u[..|u| - 1] == t + e';
      assert u[|u| - 1] == e[|e| - 1];
      WrittenToAppend(t, e', id);
      var tail: Bytes := if e[|e| - 1].Write? && e[|e| - 1].id == id then e[|e| - 1].bytes else [];
      assert WrittenTo(u, id) == WrittenTo(t + e', id) + tail;
      assert WrittenTo(e, id) == WrittenTo(e', id) + tail;
    }
  }

  lemma {:induction false} NoWritesNothing(t: seq<Effect>, id: nat)
    requires forall p :: 0 <= p < |t| && t[p].Write? ==> t[p].id != id
    ensures WrittenTo(t, id) == []
    decreases |t|
  {
    if |t| > 0 {
      NoWritesNothing(t[..|t| - 1], id);
    }
  }

  /** A delta with no active stream: the new stream holds exactly the step's one write to it, and the trace had none. */
  lemma CreateWrites(s: State, t: seq<Effect>, d: string, b64: Base64Decoder)
    requires s.passThrough.None? && Bounded(t, s.nextId)
    ensures var o := Step(s, AudioDelta(d), b64);
      && o.state.passThrough.Some?
      && WrittenTo(t, o.state.passThrough.value.id) == []
      && o.state.passThrough.value.written == WrittenTo(o.effects, o.state.passThrough.value.id)
  {
    var o := Step(s, AudioDelta(d), b64);
    var x := s.nextId;
    var e := o.effects;
    assert e[..6] == [NewStream(x), Resample(x), NewResource(x), Play(x), AddListener(OnPlaying), AddListener(OnStateChange)];
    NoWritesNothing(e[..6], x);
    NoWritesNothing(t, x);
  }

  /** Any input while a stream is active that keeps it active: the stream grows by exactly the step's writes to it. */
  lemma ActiveWrites(s: State, inp: Input, b64: Base64Decoder)
    requires s.passThrough.Some?
    ensures var o := Apply(s, inp, b64);
      o.state.passThrough.Some? ==>
        && o.state.passThrough.value.id == s.passThrough.value.id
        && o.state.passThrough.value.written == s.passThrough.value.written + WrittenTo(o.effects, s.passThrough.value.id)
  {
    var o := Apply(s, inp, b64);
    var x := s.passThrough.value.id;
    if inp.Message? && inp.event.AudioDelta? {
      assert o.effects[..0] == [];
    } else if o.state.passThrough.Some? {
      NoWritesNothing(o.effects, x);
    }
  }

  /**
    The payloads of the `write` calls the trace makes on the active stream,
    joined in trace order, are exactly what the stream holds: the decoded
    deltas received since the last `done`, in arrival order.
  */
  lemma {:induction false} RunWrites(inputs: seq<Input>, b64: Base64Decoder)
    ensures var o := Run(Initial, inputs, b64);
      o.state.passThrough.Some? ==>
        && WrittenTo(o.effects, o.state.passThrough.value.id) == o.state.passThrough.value.written
        && WrittenTo(o.effects, o.state.passThrough.value.id) == Joined(DeltasSinceDone(inputs), b64)
    decreases |inputs|
  {
    RunMatchesDeltas(inputs, b64);
    if |inputs| > 0 {
      var prefix := inputs[..|inputs| - 1];
      RunWrites(prefix, b64);
      RunLifecycle(prefix, b64);
      var prev := Run(Initial, prefix, b64);
      var o := Apply(prev.state, inputs[|inputs| - 1], b64);
      if prev.state.passThrough.Some? {
        ActiveWrites(prev.state, inputs[|inputs| - 1], b64);
      } else if inputs[|inputs| - 1].Message? && inputs[|inputs| - 1].event.AudioDelta? {
        CreateWrites(prev.state, prev.effects, inputs[|inputs| - 1].event.delta, b64);
      }
      if o.state.passThrough.Some? {
        WrittenToAppend(prev.effects, o.effects, o.state.passThrough.value.id);
      }
    }
  }
}
