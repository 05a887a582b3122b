/** The Action Simulator page (App.jsx:523-615): a baseline forecast, a catalog
    of suggestions, and a single "applied" slot that a click on a suggestion
    fills (by asking the backend for a modified forecast) or empties (toggle
    off, or commit).

    Every network outcome is an input of the event that awaits it, and each
    request is answered before the next event, so the page is a deterministic
    machine over `SimEvent`s. Responses go through the tolerant parser of
    module `LlmJson`. The machine takes the way a simulate reply is applied
    as a parameter: `AsWritten` is the page's code, `AllOrNothing` the
    corrected handling. */
module Simulation {
  import opened Maybe
  import opened JsValue
  import LlmJson

  /** A chart point `{name: hour, val: load_kw}`. */
  datatype ChartPoint = ChartPoint(name: Value, val: Value)

  /** One entry of the simulate request's `baseline_forecast`,
      `{hour, load_kw, cost}`. `cost` is `load_kw * 8` when the load is a
      number; `None` stands for a non-numeric load, whose JavaScript
      coercion is not modelled. */
  datatype ForecastEntry = ForecastEntry(hour: Value, loadKw: Value, cost: Option<real>)

  /** The page's React state. `applied` is `appliedSuggestionId` (`null` when
      no suggestion is applied). */
  datatype SimState = SimState(
    baseline: seq<ChartPoint>,
    simulated: seq<ChartPoint>,
    savings: Value,
    applied: Value,
    suggestions: seq<Value>)

  const Initial: SimState := SimState([], [], Num(0.0), Null, [])

  /** The outcome of `await fetch(...)` then `await res.json()`: a rejection
      (network failure or a body that is not JSON) or the decoded body. */
  datatype Reply = ReplyFailed | Replied(body: Value)

  /** The outcome of the commit POST: `fetch` resolves for every HTTP status
      and rejects only on a network failure. */
  datatype Ack = CommitRejected | CommitResolved

  /** The request an event sends to the backend, if any. */
  datatype Request =
    | NoRequest
    | SimulateRequest(baselineForecast: seq<ForecastEntry>, suggestionId: Value, affectedAppliance: Value)
    | CommitRequest(actionTitle: Value, savingsInr: Value)

  /** The page's events: the two initial loads (`None`: the fetch chain
      rejected), a click on a suggestion card with the simulate reply, and a
      click on "Commit" with the commit outcome. */
  datatype SimEvent =
    | BaselineArrived(body: Option<Value>)
    | SuggestionsArrived(body: Option<Value>)
    | Select(suggestion: Value, reply: Reply)
    | CommitClicked(ack: Ack)

  datatype Transition = Transition(state: SimState, request: Request)

  /** How a simulate reply is applied: as the page's code does it
      (`ApplyReplyAsWritten`), or all or nothing (`ApplyReply`). */
  datatype ReplyHandling = AsWritten | AllOrNothing

  /** `data.map(d => ({name: d.hour, val: d.load_kw}))`; `None` when an
      element is `null`, whose property read throws. */
  function ToChart(vs: seq<Value>): (r: Option<seq<ChartPoint>>)
    ensures r.None? <==> exists k :: 0 <= k < |vs| && Nullish(vs[k])
    ensures r.Some? ==> |r.value| == |vs|
    ensures r.Some? ==> forall k :: 0 <= k < |vs| ==>
      !Nullish(vs[k]) && r.value[k] == ChartPoint(Get(vs[k], "hour"), Get(vs[k], "load_kw"))
  {
    if |vs| == 0 then Some([])
    else if Nullish(vs[0]) then None
    else
      match ToChart(vs[1..])
      case None => None
      case Some(rest) => Some([ChartPoint(Get(vs[0], "hour"), Get(vs[0], "load_kw"))] + rest)
  }

  /** `baselineData.map(d => ({hour: d.name, load_kw: d.val, cost: d.val * 8}))`. */
  function BaselinePayload(b: seq<ChartPoint>): (r: seq<ForecastEntry>)
    ensures |r| == |b|
    ensures forall k :: 0 <= k < |b| ==> r[k].hour == b[k].name && r[k].loadKw == b[k].val
    ensures forall k :: 0 <= k < |b| ==> (b[k].val.Num? <==> r[k].cost.Some?)
    ensures forall k :: 0 <= k < |b| && b[k].val.Num? ==> r[k].cost.value == 8.0 * b[k].val.n
  {
    seq(|b|, k requires 0 <= k < |b| =>
      ForecastEntry(b[k].name, b[k].val, if b[k].val.Num? then Some(b[k].val.n * 8.0) else None))
  }

  /** The baseline fetch (App.jsx:534-547): a parsed array of non-null points
      becomes both the baseline and the displayed series; anything else
      leaves the page as it was. */
  function LoadBaseline(s: SimState, body: Option<Value>, decode: string -> Option<Value>): (r: SimState)
    ensures r == s || (r == s.(baseline := r.baseline, simulated := r.baseline))
    ensures r != s ==> exists raw :: body == Some(raw) && LlmJson.ParseLlmJson(raw, decode).Arr?
    ensures body.None? || !LlmJson.ParseLlmJson(body.value, decode).Arr? ==> r == s
    ensures body.Some? && LlmJson.ParseLlmJson(body.value, decode).Arr? ==>
      var rows := LlmJson.ParseLlmJson(body.value, decode).elems;
      (ToChart(rows).Some? ==> r == s.(baseline := ToChart(rows).value, simulated := ToChart(rows).value)) &&
      (ToChart(rows).None? ==> r == s)
  {
    match body
    case None => s
    case Some(raw) =>
      var data := LlmJson.ParseLlmJson(raw, decode);
      if data.Arr? then
        match ToChart(data.elems)
        case None => s
        case Some(pts) => s.(baseline := pts, simulated := pts)
      else s
  }

  /** The suggestions fetch (App.jsx:550-558): a parsed array becomes the
      catalog; anything else leaves it as it was. */
  function LoadSuggestions(s: SimState, body: Option<Value>, decode: string -> Option<Value>): (r: SimState)
    ensures r == s || r == s.(suggestions := r.suggestions)
    ensures body.Some? && LlmJson.ParseLlmJson(body.value, decode).Arr? ==>
      r.suggestions == LlmJson.ParseLlmJson(body.value, decode).elems
    ensures body.None? || !LlmJson.ParseLlmJson(body.value, decode).Arr? ==> r == s
  {
    match body
    case None => s
    case Some(raw) =>
      var data := LlmJson.ParseLlmJson(raw, decode);
      if data.Arr? then s.(suggestions := data.elems) else s
  }

  /** The new series a simulate reply yields: `result.modified_forecast` is
      read (throwing on a `null` result), skipped when falsy, mapped when an
      array (throwing on a truthy non-array, which has no `map`, or on a `null`
      point). */
  function ModifiedSeries(result: Value): Option<seq<ChartPoint>> {
    if Nullish(result) then None
    else
      var mf := Get(result, "modified_forecast");
      if !Truthy(mf) || !mf.Arr? then None
      else ToChart(mf.elems)
  }

  /** `result.savings_summary.total_savings_amount`; `None` when the read throws. */
  function SavingsAmount(result: Value): Option<Value> {
    if Nullish(result) then None
    else
      var summary := Get(result, "savings_summary");
      if Nullish(summary) then None else Some(Get(summary, "total_savings_amount"))
  }

  /** The reply handling of `handleSimulate` as written (App.jsx:583-592): the
      series is stored before the savings are read, so a reply whose
      `savings_summary` is missing replaces the displayed series and then
      throws, leaving `savings` and `appliedSuggestionId` behind. */
  function ApplyReplyAsWritten(s: SimState, id: Value, reply: Reply): (r: SimState)
    ensures CompleteReply(reply) ==> r == ApplyReply(s, id, reply)
    ensures reply.ReplyFailed? || ModifiedSeries(reply.body).None? ==> r == s
    ensures reply.Replied? && ModifiedSeries(reply.body).Some? && SavingsAmount(reply.body).None? ==>
      r == s.(simulated := ModifiedSeries(reply.body).value)
  {
    match reply
    case ReplyFailed => s
    case Replied(result) =>
      match ModifiedSeries(result)
      case None => s
      case Some(series) =>
        match SavingsAmount(result)
        case None => s.(simulated := series)
        case Some(amount) => s.(simulated := series, savings := amount, applied := id)
  }

  /** The reply handling as intended: the series, the savings and the applied
      id change together, from a reply that carries all of them, or not at all. */
  function ApplyReply(s: SimState, id: Value, reply: Reply): (r: SimState)
    ensures r == s || r == s.(simulated := r.simulated, savings := r.savings, applied := id)
    ensures reply.Replied? && ModifiedSeries(reply.body).Some? && SavingsAmount(reply.body).Some? ==>
      r.simulated == ModifiedSeries(reply.body).value &&
      r.savings == SavingsAmount(reply.body).value &&
      r.applied == id
    ensures reply.ReplyFailed? || ModifiedSeries(reply.body).None? || SavingsAmount(reply.body).None? ==> r == s
  {
    match reply
    case ReplyFailed => s
    case Replied(result) =>
      match ModifiedSeries(result)
      case None => s
      case Some(series) =>
        match SavingsAmount(result)
        case None => s
        case Some(amount) => s.(simulated := series, savings := amount, applied := id)
  }

  /** The reply handling the machine was given. */
  function HandleReply(h: ReplyHandling, s: SimState, id: Value, reply: Reply): SimState {
    match h
    case AsWritten => ApplyReplyAsWritten(s, id, reply)
    case AllOrNothing => ApplyReply(s, id, reply)
  }

  /** A click on a suggestion card, `handleSimulate(suggestion)` (App.jsx:561-593).
      Clicking the applied suggestion toggles it off without a request;
      clicking another sends the baseline and applies the reply. A `null`
      card makes `suggestion.id` throw before anything happens. */
  function SelectSuggestion(s: SimState, suggestion: Value, reply: Reply, h: ReplyHandling): (t: Transition)
    ensures Nullish(suggestion) ==> t == Transition(s, NoRequest)
    ensures !Nullish(suggestion) && Get(suggestion, "id") == s.applied ==>
      t.request == NoRequest &&
      t.state == s.(applied := Null, simulated := s.baseline, savings := Num(0.0))
    ensures !Nullish(suggestion) && Get(suggestion, "id") != s.applied ==>
      t.request.SimulateRequest? &&
      t.request.baselineForecast == BaselinePayload(s.baseline) &&
      |t.request.baselineForecast| == |s.baseline| &&
      (forall k :: 0 <= k < |s.baseline| ==>
        t.request.baselineForecast[k].hour == s.baseline[k].name &&
        t.request.baselineForecast[k].loadKw == s.baseline[k].val) &&
      t.request.suggestionId == Get(suggestion, "id") &&
      t.request.affectedAppliance == Get(suggestion, "affected_appliance") &&
      t.state == HandleReply(h, s, Get(suggestion, "id"), reply)
    ensures t.state.baseline == s.baseline && t.state.suggestions == s.suggestions
  {
    if Nullish(suggestion) then Transition(s, NoRequest)
    else
      var id := Get(suggestion, "id");
      if s.applied == id then
        Transition(s.(applied := Null, simulated := s.baseline, savings := Num(0.0)), NoRequest)
      else
        Transition(HandleReply(h, s, id, reply),
                   SimulateRequest(BaselinePayload(s.baseline), id, Get(suggestion, "affected_appliance")))
  }

  /** The result of `suggestions.find(s => s.id === id)`. */
  datatype FindResult = Found(index: nat) | NotFound | FindThrew

  /** `xs.find(x => x.id === id)` from index `from`: the first element whose
      `id` matches, unless a `null` element comes first (its `id` read throws). */
  function FindById(xs: seq<Value>, id: Value, from: nat): (r: FindResult)
    requires from <= |xs|
    ensures r.Found? ==> from <= r.index < |xs| && !Nullish(xs[r.index]) && Get(xs[r.index], "id") == id
    ensures r.Found? || r.NotFound? ==>
      forall k :: from <= k < |xs| && (r.NotFound? || k < r.index) ==> !Nullish(xs[k]) && Get(xs[k], "id") != id
    ensures r.FindThrew? ==>
      exists k :: from <= k < |xs| && Nullish(xs[k]) &&
        (forall j :: from <= j < k ==> !Nullish(xs[j]) && Get(xs[j], "id") != id)
    decreases |xs| - from
  {
    if from == |xs| then NotFound
    else if Nullish(xs[from]) then FindThrew
    else if Get(xs[from], "id") == id then Found(from)
    else FindById(xs, id, from + 1)
  }

  /** A click on "Commit", `commitAction()` (App.jsx:595-615). Nothing happens
      without a truthy applied id. Otherwise the applied suggestion's title and
      the savings are posted; once the POST resolves the slot is emptied and
      the savings zeroed, while the displayed series stays as it is. A failed
      lookup (`sugg.title` of `undefined`) throws before the POST. */
  function Commit(s: SimState, ack: Ack): (t: Transition)
    ensures !Truthy(s.applied) ==> t == Transition(s, NoRequest)
    ensures t.request.NoRequest? ==> t.state == s
    ensures t.request.CommitRequest? ==>
      Truthy(s.applied) && t.request.savingsInr == s.savings &&
      exists k :: 0 <= k < |s.suggestions| && !Nullish(s.suggestions[k]) &&
        Get(s.suggestions[k], "id") == s.applied && t.request.actionTitle == Get(s.suggestions[k], "title")
    ensures Truthy(s.applied) && FindById(s.suggestions, s.applied, 0).Found? ==>
      t.request == CommitRequest(Get(s.suggestions[FindById(s.suggestions, s.applied, 0).index], "title"), s.savings)
    ensures Truthy(s.applied) && !FindById(s.suggestions, s.applied, 0).Found? ==> t == Transition(s, NoRequest)
    ensures t.request.CommitRequest? && ack == CommitResolved ==>
      t.state == s.(applied := Null, savings := Num(0.0))
    ensures ack == CommitRejected ==> t.state == s
  {
    if !Truthy(s.applied) then Transition(s, NoRequest)
    else
      match FindById(s.suggestions, s.applied, 0)
      case NotFound => Transition(s, NoRequest)
      case FindThrew => Transition(s, NoRequest)
      case Found(k) =>
        var request := CommitRequest(Get(s.suggestions[k], "title"), s.savings);
        match ack
        case CommitRejected => Transition(s, request)
        case CommitResolved => Transition(s.(applied := Null, savings := Num(0.0)), request)
  }

  /** One event of the page. The Commit button is disabled while the savings
      are exactly zero, so a click then does nothing. */
  function Step(s: SimState, e: SimEvent, decode: string -> Option<Value>, h: ReplyHandling): (t: Transition)
    ensures e.CommitClicked? && s.savings == Num(0.0) ==> t == Transition(s, NoRequest)
    ensures t.request.CommitRequest? ==> t.request.savingsInr == s.savings && s.savings != Num(0.0)
    ensures !e.BaselineArrived? ==> t.state.baseline == s.baseline
    ensures !e.SuggestionsArrived? ==> t.state.suggestions == s.suggestions
    ensures t.state.applied == s.applied || t.state.applied == Null ||
            (e.Select? && !Nullish(e.suggestion) && t.state.applied == Get(e.suggestion, "id"))
  {
    match e
    case BaselineArrived(body) => Transition(LoadBaseline(s, body, decode), NoRequest)
    case SuggestionsArrived(body) => Transition(LoadSuggestions(s, body, decode), NoRequest)
    case Select(suggestion, reply) => SelectSuggestion(s, suggestion, reply, h)
    case CommitClicked(ack) =>
      if s.savings == Num(0.0) then Transition(s, NoRequest) else Commit(s, ack)
  }

  /** A sequence of events in order: the final state and the requests sent. */
  function Run(s: SimState, es: seq<SimEvent>, decode: string -> Option<Value>, h: ReplyHandling): (SimState, seq<Request>)
    decreases |es|
  {
    if |es| == 0 then (s, [])
    else
      var t := Step(s, es[0], decode, h);
      var (final, sent) := Run(t.state, es[1..], decode, h);
      (final, if t.request.NoRequest? then sent else [t.request] + sent)
  }

  /** A reply that carries a forecast but no `savings_summary`. */
  const ReplyWithoutSummary: Reply :=
    Replied(Obj(map["modified_forecast" := Arr([Obj(map["hour" := Num(0.0), "load_kw" := Num(1.0)])])]))

  /** The series `ReplyWithoutSummary` carries. */
  const SeriesWithoutSummary: seq<ChartPoint> := [ChartPoint(Num(0.0), Num(1.0))]

  /** As written, that reply replaces the displayed series while the savings
      and the applied id stay: the chart shows a simulation no suggestion is
      marked as producing. */
  lemma AsWrittenPartialUpdate(s: SimState, id: Value)
    ensures ApplyReplyAsWritten(s, id, ReplyWithoutSummary) ==
      s.(simulated := SeriesWithoutSummary)
  {
    var result := ReplyWithoutSummary.body;
    var mf := Get(result, "modified_forecast");
    var point := Obj(map["hour" := Num(0.0), "load_kw" := Num(1.0)]);
    assert mf == Arr([point]);
    assert Get(point, "hour") == Num(0.0) && Get(point, "load_kw") == Num(1.0);
    assert mf.elems[1..] == [];
    assert ToChart(mf.elems[1..]) == Some([]);
    assert [ChartPoint(Num(0.0), Num(1.0))] + [] == SeriesWithoutSummary;
    assert SavingsAmount(result).None?;
  }

  /** With the intended handling that reply, like every reply lacking a
      readable series or savings summary, changes nothing. */
  lemma CorrectedIgnoresIncompleteReply(s: SimState, id: Value, reply: Reply)
    requires !CompleteReply(reply)
    ensures ApplyReply(s, id, reply) == s
  {
  }

  /** The two handlings disagree only on a reply that carries a readable series
      but no readable savings summary, and then the code shows the new series
      with the old savings and applied id. */
  lemma HandlingsDifferOnlyWithoutSummary(s: SimState, id: Value, reply: Reply)
    requires ApplyReplyAsWritten(s, id, reply) != ApplyReply(s, id, reply)
    ensures reply.Replied? && ModifiedSeries(reply.body).Some? && SavingsAmount(reply.body).None?
    ensures ApplyReply(s, id, reply) == s
    ensures ApplyReplyAsWritten(s, id, reply) == s.(simulated := ModifiedSeries(reply.body).value)
  {
  }

  /** Only the baseline load ever replaces the baseline: simulating, toggling,
      committing and loading suggestions never corrupt it. */
  lemma {:induction false} BaselineOnlyChangedByLoad(s: SimState, es: seq<SimEvent>, decode: string -> Option<Value>, h: ReplyHandling)
    requires forall k :: 0 <= k < |es| ==> !es[k].BaselineArrived?
    ensures Run(s, es, decode, h).0.baseline == s.baseline
    decreases |es|
  {
    if |es| > 0 {
      var t := Step(s, es[0], decode, h);
      assert forall k :: 0 <= k < |es[1..]| ==> !es[1..][k].BaselineArrived? by {
        forall k | 0 <= k < |es[1..]|
          ensures !es[1..][k].BaselineArrived?
        {
          assert es[1..][k] == es[k + 1];
        }
      }
      BaselineOnlyChangedByLoad(t.state, es[1..], decode, h);
    }
  }

  /** No run ever sends a commit carrying zero savings. */
  lemma {:induction false} NoZeroSavingsCommit(s: SimState, es: seq<SimEvent>, decode: string -> Option<Value>, h: ReplyHandling)
    ensures forall r :: r in Run(s, es, decode, h).1 && r.CommitRequest? ==> r.savingsInr != Num(0.0)
    decreases |es|
  {
    if |es| > 0 {
      var t := Step(s, es[0], decode, h);
      NoZeroSavingsCommit(t.state, es[1..], decode, h);
    }
  }

  /** Whatever happens, the applied slot only ever holds `null`, the id it held
      before, or the id of a suggestion that was clicked in the run. */
  lemma {:induction false} AppliedComesFromSelection(s: SimState, es: seq<SimEvent>, decode: string -> Option<Value>, h: ReplyHandling)
    ensures var a := Run(s, es, decode, h).0.applied;
      a == s.applied || a == Null ||
      exists k :: 0 <= k < |es| && es[k].Select? && !Nullish(es[k].suggestion) && a == Get(es[k].suggestion, "id")
    decreases |es|
  {
    if |es| > 0 {
      var t := Step(s, es[0], decode, h);
      AppliedComesFromSelection(t.state, es[1..], decode, h);
      var a := Run(s, es, decode, h).0.applied;
      assert a == Run(t.state, es[1..], decode, h).0.applied;
      if a != Null && a != t.state.applied {
        var k :| 0 <= k < |es[1..]| && es[1..][k].Select? && !Nullish(es[1..][k].suggestion) &&
          a == Get(es[1..][k].suggestion, "id");
        assert es[1..][k] == es[k + 1];
      }
    }
  }

  /** A reply carrying both a forecast and a savings summary. */
  predicate CompleteReply(reply: Reply) {
    reply.Replied? && ModifiedSeries(reply.body).Some? && SavingsAmount(reply.body).Some?
  }

  /** Toggle idempotence: clicking a suggestion that is not applied and
      receiving a complete reply, then clicking it again, returns to the
      baseline with zero savings and nothing applied, after exactly one request. */
  lemma ToggleReturnsToBaseline(s: SimState, suggestion: Value, reply: Reply, reply2: Reply, decode: string -> Option<Value>,
                                h: ReplyHandling)
    requires !Nullish(suggestion) && Get(suggestion, "id") != s.applied
    requires CompleteReply(reply)
    ensures var (final, sent) := Run(s, [Select(suggestion, reply), Select(suggestion, reply2)], decode, h);
      final == s.(applied := Null, simulated := s.baseline, savings := Num(0.0)) &&
      |sent| == 1 && sent[0].SimulateRequest?
  {
    var es := [Select(suggestion, reply), Select(suggestion, reply2)];
    var t1 := Step(s, es[0], decode, h);
    assert t1.state.applied == Get(suggestion, "id");
    assert t1.request.SimulateRequest?;
    var t2 := Step(t1.state, es[1], decode, h);
    assert t2 == Transition(s.(applied := Null, simulated := s.baseline, savings := Num(0.0)), NoRequest);
    assert es[1..] == [Select(suggestion, reply2)];
    assert es[1..][1..] == [];
    assert Run(t1.state, es[1..], decode, h) == (t2.state, []);
    assert es[0] == Select(suggestion, reply);
    assert [t1.request] + [] == [t1.request];
  }

  /** Commit resets: with a simulation applied from a catalog suggestion, a
      resolved commit posts that suggestion's title and the savings, and
      leaves nothing applied and zero savings. */
  lemma CommitResetsAppliedState(s: SimState, k: nat)
    requires Truthy(s.applied)
    requires k < |s.suggestions| && !Nullish(s.suggestions[k]) && Get(s.suggestions[k], "id") == s.applied
    requires forall j :: 0 <= j < k ==> !Nullish(s.suggestions[j]) && Get(s.suggestions[j], "id") != s.applied
    ensures Commit(s, CommitResolved) ==
      Transition(s.(applied := Null, savings := Num(0.0)),
                 CommitRequest(Get(s.suggestions[k], "title"), s.savings))
  {
    var r := FindById(s.suggestions, s.applied, 0);
    assert r.Found? && r.index == k;
  }
}
