/**
  The speaking `start` listener of src/realtime/Websocket.ts: every signal
  subscribes to the speaker's audio again, with no check for a subscription
  that is already live, and attaches a fresh `data` and `end` listener to
  the stream that subscription returns.
*/
module Capture {

  /** The receiver calls the listener makes, in order. */
  datatype Call =
    | Subscribe(userId: string)    // receiver.subscribe(userId, { end: AfterInactivity 2000 ms })
    | ListenData(userId: string)   // userAudioStream.on('data', ...): the send gate
    | ListenEnd(userId: string)    // userAudioStream.on('end', ...): a log line

  /** One speaking `start` for `userId`. */
  function OnSpeakingStart(calls: seq<Call>, userId: string): seq<Call> {
    calls + [Subscribe(userId), ListenData(userId), ListenEnd(userId)]
  }

  /** The calls after a run of speaking `start` signals. */
  function AfterStarts(calls: seq<Call>, starts: seq<string>): seq<Call>
    decreases |starts|
  {
    if |starts| == 0 then calls
    else OnSpeakingStart(AfterStarts(calls, starts[..|starts| - 1]), starts[|starts| - 1])
  }

  /** How many times `x` occurs in `xs`. */
  function Count<T(==)>(xs: seq<T>, x: T): nat
    decreases |xs|
  {
    if |xs| == 0 then 0
    else Count(xs[..|xs| - 1], x) + (if xs[|xs| - 1] == x then 1 else 0)
  }

  lemma {:induction false} CountAppend<T>(xs: seq<T>, ys: seq<T>, x: T)
    ensures Count(xs + ys, x) == Count(xs, x) + Count(ys, x)
    decreases |ys|
  {
    if |ys| == 0 {
      assert xs + ys == xs;
    } else {
      assert (xs + ys)[..|xs + ys| - 1] == xs + ys[..|ys| - 1];
      CountAppend(xs, ys[..|ys| - 1], x);
    }
  }

  lemma {:induction false} CountPositive<T>(xs: seq<T>, x: T)
    requires x in xs
    ensures Count(xs, x) >= 1
    decreases |xs|
  {
    if xs[|xs| - 1] != x {
      var prefix := xs[..|xs| - 1];
      assert xs == prefix + [xs[|xs| - 1]];
      assert x in prefix;
      CountPositive(prefix, x);
    }
  }

  /**
    A start for a speaker already subscribed issues a second subscription and
    attaches a second `data` listener, rather than reusing the first.
  */
  lemma RepeatedStartSubscribesAgain(calls: seq<Call>, userId: string)
    ensures var after := OnSpeakingStart(calls, userId);
      && Count(after, Subscribe(userId)) == Count(calls, Subscribe(userId)) + 1
      && Count(after, ListenData(userId)) == Count(calls, ListenData(userId)) + 1
    ensures Subscribe(userId) in calls ==> Count(OnSpeakingStart(calls, userId), Subscribe(userId)) >= 2
  {
    var added := [Subscribe(userId), ListenData(userId), ListenEnd(userId)];
    CountAppend(calls, added, Subscribe(userId));
    CountAppend(calls, added, ListenData(userId));
    var one := [Subscribe(userId)];
    var two := [Subscribe(userId), ListenData(userId)];
    assert added[..2] == two && two[..1] == one && one[..0] == [];
    assert Count(one, Subscribe(userId)) == 1 && Count(one, ListenData(userId)) == 0;
    assert Count(two, Subscribe(userId)) == 1 && Count(two, ListenData(userId)) == 1;
    assert Count(added, Subscribe(userId)) == 1;
    assert Count(added, ListenData(userId)) == 1;
    if Subscribe(userId) in calls {
      CountPositive(calls, Subscribe(userId));
    }
  }

  /**
    From no calls, each `start` signal issues, in signal order, a subscription
    for its speaker followed by a `data` and an `end` listener on the stream it
    returned; so each speaker has one subscription and one `data` listener per
    `start` signal of theirs.
  */
  lemma {:induction false} OneSubscriptionPerStart(starts: seq<string>, userId: string)
    ensures var calls := AfterStarts([], starts);
      && |calls| == 3 * |starts|
      && (forall k :: 0 <= k < |starts| ==>
            calls[3 * k] == Subscribe(starts[k]) && calls[3 * k + 1] == ListenData(starts[k]) && calls[3 * k + 2] == ListenEnd(starts[k]))
      && Count(calls, Subscribe(userId)) == Count(starts, userId)
      && Count(calls, ListenData(userId)) == Count(starts, userId)
    decreases |starts|
  {
    if |starts| > 0 {
      var prefix := starts[..|starts| - 1];
      OneSubscriptionPerStart(prefix, userId);
      RepeatedStartSubscribesAgain(AfterStarts([], prefix), starts[|starts| - 1]);
      var before := AfterStarts([], prefix);
      var u := starts[|starts| - 1];
      var calls := AfterStarts([], starts);
      assert calls == before + [Subscribe(u), ListenData(u), ListenEnd(u)];
      forall k | 0 <= k < |starts|
        ensures calls[3 * k] == Subscribe(starts[k]) && calls[3 * k + 1] == ListenData(starts[k]) && calls[3 * k + 2] == ListenEnd(starts[k])
      {
        if k < |prefix| {
          assert starts[k] == prefix[k];
        }
      }
      if u != userId {
        assert Count(calls, Subscribe(userId)) == Count(before, Subscribe(userId)) by {
          CountAppend(before, [Subscribe(u), ListenData(u), ListenEnd(u)], Subscribe(userId));
          CountAbsent([Subscribe(u), ListenData(u), ListenEnd(u)], Subscribe(userId));
        }
        assert Count(calls, ListenData(userId)) == Count(before, ListenData(userId)) by {
          CountAppend(before, [Subscribe(u), ListenData(u), ListenEnd(u)], ListenData(userId));
          CountAbsent([Subscribe(u), ListenData(u), ListenEnd(u)], ListenData(userId));
        }
      }
    }
  }

  lemma {:induction false} CountAbsent<T>(xs: seq<T>, x: T)
    requires x !in xs
    ensures Count(xs, x) == 0
    decreases |xs|
  {
    if |xs| > 0 {
      CountAbsent(xs[..|xs| - 1], x);
    }
  }
}
