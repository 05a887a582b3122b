/** The Dashboard's live-meter feed (App.jsx:213-271): a reducer over the
    WebSocket's events that keeps the latest decoded reading, a rolling history
    of the last twenty `total_kw` points, and the "System Online" flag.

    The socket itself is not modelled: each of its callbacks is an event, and
    the text of a message is decoded by the abstract `decode` (`JSON.parse`). */
module LiveFeed {
  import opened Maybe
  import opened JsValue
  import Seqs

  /** How many history points the chart keeps (`slice(-20)`). */
  const Capacity: nat := 20

  /** One chart point `{time: timestamp, value: total_kw}`. */
  datatype HistoryPoint = HistoryPoint(time: Value, value: Value)

  /** The Dashboard's state: the last reading, the rolling history and the
      connection flag. */
  datatype FeedState = FeedState(data: Value, history: seq<HistoryPoint>, connected: bool)

  /** The socket callbacks: `onopen`, `onclose`, `onerror`, the `WebSocket`
      constructor throwing, and `onmessage` with the frame's text. */
  datatype FeedEvent =
    | Opened
    | Closed
    | Errored
    | ConnectThrew
    | Message(raw: string)

  /** The placeholder reading shown before the first message. */
  const InitialData: Value := Obj(map[
    "total_kw" := Num(0.0),
    "cost_per_hour" := Num(0.0),
    "temperature_c" := Num(25.0),
    "weather_condition" := Str("Loading..."),
    "active_devices_debug" := Arr([]),
    "alert" := Null])

  const Initial: FeedState := FeedState(InitialData, [], false)

  /** The last `min(n, |h|)` elements of `h`: `h.slice(-n)` for `n > 0`. */
  function KeepLast<T>(h: seq<T>, n: nat): (r: seq<T>)
    ensures |r| == if |h| < n then |h| else n
    ensures r == h[|h| - |r|..]
  {
    if |h| <= n then h else h[|h| - n..]
  }

  /** `[...prev, p].slice(-20)`: append the newest point, evict the oldest
      beyond the capacity. */
  function Push(h: seq<HistoryPoint>, p: HistoryPoint): (r: seq<HistoryPoint>)
    ensures |r| <= Capacity
    ensures |h| < Capacity ==> r == h + [p]
    ensures |h| >= Capacity ==> r == h[|h| + 1 - Capacity..] + [p]
    ensures r[|r| - 1] == p
  {
    KeepLast(h + [p], Capacity)
  }

  /** The history point a decoded, non-null reading contributes. */
  function PointOf(v: Value): HistoryPoint
    requires !Nullish(v)
  {
    HistoryPoint(Get(v, "timestamp"), Get(v, "total_kw"))
  }

  /** One event applied to the state. `None` when the Dashboard fails: a frame
      that decodes to `null` passes the handler's try (`setData(null)` does not
      throw), but the history updater then reads `null.timestamp` while React
      renders, outside any try. */
  function Step(s: FeedState, e: FeedEvent, decode: string -> Option<Value>): (r: Option<FeedState>)
    ensures e.Opened? ==> r == Some(s.(connected := true))
    ensures e.Closed? || e.Errored? || e.ConnectThrew? ==> r == Some(s.(connected := false))
    ensures e.Message? && decode(e.raw).None? ==> r == Some(s)
    ensures e.Message? && decode(e.raw) == Some(Null) ==> r.None?
    ensures WellFormed(e, decode) ==>
      r == Some(s.(data := ReadingOf(e, decode), history := Push(s.history, PointOf(ReadingOf(e, decode)))))
    ensures r.Some? ==> r.value.connected == s.connected || !e.Message?
  {
    match e
    case Opened => Some(s.(connected := true))
    case Closed => Some(s.(connected := false))
    case Errored => Some(s.(connected := false))
    case ConnectThrew => Some(s.(connected := false))
    case Message(raw) =>
      match decode(raw)
      case None => Some(s)
      case Some(v) =>
        if Nullish(v) then None
        else Some(s.(data := v, history := Push(s.history, PointOf(v))))
  }

  /** A sequence of events applied in arrival order; `None` once the
      Dashboard has failed. */
  function Run(s: FeedState, es: seq<FeedEvent>, decode: string -> Option<Value>): Option<FeedState>
    decreases |es|
  {
    if |es| == 0 then Some(s)
    else
      match Step(s, es[0], decode)
      case None => None
      case Some(s') => Run(s', es[1..], decode)
  }

  /** The reading carried by a frame that decodes to a non-null value. */
  predicate WellFormed(e: FeedEvent, decode: string -> Option<Value>) {
    e.Message? && decode(e.raw).Some? && !Nullish(decode(e.raw).value)
  }

  /** The reading a well-formed frame decodes to. */
  function ReadingOf(e: FeedEvent, decode: string -> Option<Value>): (v: Value)
    requires WellFormed(e, decode)
    ensures !Nullish(v)
  {
    decode(e.raw).value
  }

  /** The history points a run of well-formed frames contributes, in order. */
  function PointsOf(es: seq<FeedEvent>, decode: string -> Option<Value>): (ps: seq<HistoryPoint>)
    requires forall k :: 0 <= k < |es| ==> WellFormed(es[k], decode)
    ensures |ps| == |es|
    ensures forall k :: 0 <= k < |es| ==> ps[k] == PointOf(ReadingOf(es[k], decode))
  {
    if |es| == 0 then []
    else [PointOf(ReadingOf(es[0], decode))] + PointsOf(es[1..], decode)
  }

  /** The last `n` of a suffix that is at least `n` long (or is the whole
      sequence) are the last `n` of the sequence. */
  lemma KeepLastOfSuffix<T>(x: seq<T>, m: nat, n: nat)
    requires m <= |x|
    requires n <= m || m == |x|
    ensures KeepLast(x[|x| - m..], n) == KeepLast(x, n)
  {
    if m < |x| && n < m {
      assert x[|x| - m..][m - n..] == x[|x| - n..];
    }
  }

  /** Trimming before appending a whole batch does not change what the last `n` are. */
  lemma KeepLastConcat<T>(h: seq<T>, ps: seq<T>, n: nat)
    ensures KeepLast(KeepLast(h, n) + ps, n) == KeepLast(h + ps, n)
  {
    var t := KeepLast(h, n);
    var x := h + ps;
    var m := |t| + |ps|;
    assert t + ps == x[|x| - m..] by {
      assert forall k :: 0 <= k < m ==> (t + ps)[k] == x[|x| - m..][k] by {
        forall k | 0 <= k < m
          ensures (t + ps)[k] == x[|x| - m..][k]
        {
          if k < |t| {
            assert t[k] == h[|h| - |t| + k];
          }
        }
      }
    }
    KeepLastOfSuffix(x, m, n);
  }

  /** The rolling-history property: after any run of well-formed frames the
      history is the last `min(20, |h| + N)` points of `h` followed by the new
      points, in arrival order; the connection flag is untouched. */
  lemma {:induction false} HistoryIsLastTwenty(s: FeedState, es: seq<FeedEvent>, decode: string -> Option<Value>)
    requires |s.history| <= Capacity
    requires forall k :: 0 <= k < |es| ==> WellFormed(es[k], decode)
    ensures Run(s, es, decode).Some?
    ensures Run(s, es, decode).value.history == KeepLast(s.history + PointsOf(es, decode), Capacity)
    ensures Run(s, es, decode).value.connected == s.connected
    decreases |es|
  {
    if |es| == 0 {
      assert s.history + PointsOf(es, decode) == s.history;
    } else {
      var p := PointOf(ReadingOf(es[0], decode));
      var s' := s.(data := ReadingOf(es[0], decode), history := Push(s.history, p));
      assert Run(s, es, decode) == Run(s', es[1..], decode) by {
        assert Step(s, es[0], decode) == Some(s');
      }
      assert forall k :: 0 <= k < |es[1..]| ==> WellFormed(es[1..][k], decode) by {
        forall k | 0 <= k < |es[1..]|
          ensures WellFormed(es[1..][k], decode)
        {
          assert es[1..][k] == es[k + 1];
        }
      }
      HistoryIsLastTwenty(s', es[1..], decode);
      var rest := PointsOf(es[1..], decode);
      assert PointsOf(es, decode) == [p] + rest;
      calc {
        Run(s, es, decode).value.history;
        KeepLast(KeepLast(s.history + [p], Capacity) + rest, Capacity);
        { KeepLastConcat(s.history + [p], rest, Capacity); }
        KeepLast((s.history + [p]) + rest, Capacity);
        { Seqs.Assoc(s.history, [p], rest); }
        KeepLast(s.history + ([p] + rest), Capacity);
      }
    }
  }

  /** A frame that fails to decode changes nothing: reading, history and flag. */
  lemma UndecodableFrameIgnored(s: FeedState, raw: string, decode: string -> Option<Value>)
    requires decode(raw).None?
    ensures Run(s, [Message(raw)], decode) == Some(s)
  {
  }

  /** The connection flag after a run is set by the last open, close, error or
      constructor failure in it, and is the initial flag when there is none;
      messages never move it. */
  function LastStatus(es: seq<FeedEvent>, initial: bool): bool
    decreases |es|
  {
    if |es| == 0 then initial
    else
      var last := es[|es| - 1];
      if last.Opened? then true
      else if last.Closed? || last.Errored? || last.ConnectThrew? then false
      else LastStatus(es[..|es| - 1], initial)
  }

  /** Running `es` then `es'` is running `es + es'`. */
  lemma {:induction false} RunConcat(s: FeedState, es: seq<FeedEvent>, es': seq<FeedEvent>, decode: string -> Option<Value>)
    ensures Run(s, es + es', decode) ==
      match Run(s, es, decode)
      case None => None
      case Some(t) => Run(t, es', decode)
    decreases |es|
  {
    if |es| > 0 {
      assert (es + es')[0] == es[0];
      assert (es + es')[1..] == es[1..] + es';
      match Step(s, es[0], decode)
      case None =>
      case Some(s') => RunConcat(s', es[1..], es', decode);
    } else {
      assert es + es' == es';
    }
  }

  /** Whenever the Dashboard survives a run, its flag is the one the last
      status event set. */
  lemma {:induction false} ConnectedFollowsLastStatus(s: FeedState, es: seq<FeedEvent>, decode: string -> Option<Value>)
    requires Run(s, es, decode).Some?
    ensures Run(s, es, decode).value.connected == LastStatus(es, s.connected)
    decreases |es|
  {
    if |es| > 0 {
      var init := es[..|es| - 1];
      var last := es[|es| - 1];
      assert es == init + [last];
      RunConcat(s, init, [last], decode);
      var t := Run(s, init, decode);
      assert t.Some?;
      ConnectedFollowsLastStatus(s, init, decode);
    }
  }
}
