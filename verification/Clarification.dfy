/**
  Clarification: when a question is asked, which answers are accepted and what an answer
  changes in the proposal.
*/
module Clarification {
  import opened Errors
  import opened Values
  import opened Expressions
  import opened Catalog
  import opened Plans
  import opened Binder

  datatype Choice = Choice(value: string, caption: string)

  datatype Question = Question(slot: string, options: seq<Choice>)

  datatype Answer = Answer(slot: string, value: string)

  /** A resume payload: a typed answer, a mapping that parses or not, free text, or anything else. */
  datatype Payload = Typed(answer: Answer) | Mapping(parsed: Option<Answer>) | Freeform(text: string) | Foreign

  const METRIC := "metric"
  const TIME_RANGE := "time_range"
  const TIME_GRAIN := "time_grain"
  const Slots: set<string> := {METRIC, TIME_RANGE, TIME_GRAIN}

  function ValuesOf(options: seq<Choice>): (vs: seq<string>)
    ensures |vs| == |options| && forall i :: 0 <= i < |options| ==> vs[i] == options[i].value
  {
    if options == [] then [] else [options[0].value] + ValuesOf(options[1..])
  }

  // -- validating an answer ------------------------------------------------------------------------

  predicate Blank(c: char) {
    c in " \t\r\n"
  }

  function TrimLeft(s: string): string {
    if s != [] && Blank(s[0]) then TrimLeft(s[1..]) else s
  }

  function Trim(s: string): string {
    var left := TrimLeft(s);
    TrimRight(left)
  }

  function TrimRight(s: string): string {
    if s != [] && Blank(s[|s| - 1]) then TrimRight(s[..|s| - 1]) else s
  }

  predicate Digits(s: string) {
    s != [] && forall c :: c in s ==> '0' <= c <= '9'
  }

  function NumberOf(s: string): nat
    requires forall c :: c in s ==> '0' <= c <= '9'
  {
    if s == [] then 0
    else
      var n := |s| - 1;
      assert s[n] in s && forall c :: c in s[..n] ==> c in s;
      10 * NumberOf(s[..n]) + (s[n] - '0') as nat
  }

  predicate IsNamedBy(needle: string, o: Choice) {
    needle == LowerCase(o.value) || needle == LowerCase(o.caption)
  }

  function FirstNamed(needle: string, options: seq<Choice>): Option<string> {
    if options == [] then None
    else if IsNamedBy(needle, options[0]) then Some(options[0].value)
    else FirstNamed(needle, options[1..])
  }

  /** A 1-based position, else the value or the label of an option. */
  function MatchFreeform(text: string, q: Question): Outcome<Answer> {
    var needle := LowerCase(Trim(text));
    if Digits(needle) && 1 <= NumberOf(needle) <= |q.options| then
      Ok(Answer(q.slot, q.options[NumberOf(needle) - 1].value))
    else
      match FirstNamed(needle, q.options)
      case Some(value) => Ok(Answer(q.slot, value))
      case None => Raise(MaterialAmbiguity)
  }

  function Read(payload: Payload, q: Question): Outcome<Answer> {
    match payload
    case Typed(answer) => Ok(answer)
    case Mapping(Some(answer)) => Ok(answer)
    case Mapping(None) => Raise(MaterialAmbiguity)
    case Freeform(text) => MatchFreeform(text, q)
    case Foreign => Raise(MaterialAmbiguity)
  }

  function ValidateAnswer(payload: Payload, q: Question): Outcome<Answer> {
    var answer :- Read(payload, q);
    if answer.slot != q.slot then Raise(MaterialAmbiguity)
    else if answer.value !in ValuesOf(q.options) then Raise(NotAuthorized)
    else Ok(answer)
  }

  lemma {:induction false} FirstNamedIsOffered(needle: string, options: seq<Choice>)
    ensures match FirstNamed(needle, options)
            case Some(v) => exists o :: o in options && IsNamedBy(needle, o) && o.value == v
            case None => forall o :: o in options ==> !IsNamedBy(needle, o)
  {
    if options != [] {
      FirstNamedIsOffered(needle, options[1..]);
      if IsNamedBy(needle, options[0]) {
        assert options[0] in options;
      } else if FirstNamed(needle, options).Some? {
        var o :| o in options[1..] && IsNamedBy(needle, o) && o.value == FirstNamed(needle, options).value;
        assert o in options;
      }
    }
  }

  /** Only an offered value for the asked slot is accepted; free text names it by position, value or label. */
  lemma OnlyOfferedAnswers(payload: Payload, q: Question)
    ensures ValidateAnswer(payload, q).Ok? ==>
              && ValidateAnswer(payload, q).value.slot == q.slot && ValidateAnswer(payload, q).value.value in ValuesOf(q.options)
    ensures payload.Typed? ==>
              (ValidateAnswer(payload, q).Ok? <==> payload.answer.slot == q.slot && payload.answer.value in ValuesOf(q.options))
    ensures payload.Freeform? ==>
              (ValidateAnswer(payload, q).Ok? <==>
                var needle := LowerCase(Trim(payload.text));
                (Digits(needle) && 1 <= NumberOf(needle) <= |q.options|) || exists o :: o in q.options && IsNamedBy(needle, o))
    ensures ValidateAnswer(payload, q).Raise? ==> ValidateAnswer(payload, q).code in {MaterialAmbiguity, NotAuthorized}
  {
    if payload.Freeform? {
      var needle := LowerCase(Trim(payload.text));
      FirstNamedIsOffered(needle, q.options);
      if Digits(needle) && 1 <= NumberOf(needle) <= |q.options| {
        assert ValuesOf(q.options)[NumberOf(needle) - 1] == q.options[NumberOf(needle) - 1].value;
      } else if FirstNamed(needle, q.options).Some? {
        var o :| o in q.options && IsNamedBy(needle, o) && o.value == FirstNamed(needle, q.options).value;
        var i :| 0 <= i < |q.options| && q.options[i] == o;
        assert ValuesOf(q.options)[i] == o.value;
      }
    }
  }

  // -- applying an answer ----------------------------------------------------------------------------

  function GrainNamed(name: string): Option<Grain> {
    if name == "day" then Some(Day)
    else if name == "week" then Some(Week)
    else if name == "month" then Some(Month)
    else if name == "quarter" then Some(Quarter)
    else if name == "year" then Some(Year)
    else None
  }

  lemma GrainsAreNamed(g: Grain)
    ensures GrainNamed(GrainName(g)) == Some(g)
  {
  }

  /** `period` reads a pair of ISO dates as a half-open period. */
  function ApplyAnswer(period: string -> TimeRange, request: Request, slot: string, value: string): Request {
    if slot == METRIC then request.(metricIds := [value])
    else if slot == TIME_GRAIN then request.(timeGrain := GrainNamed(value))
    else if slot == TIME_RANGE then request.(timeRange := Some(period(value)))
    else request
  }

  /** The slot of the request holds the value. */
  predicate Holding(period: string -> TimeRange, request: Request, slot: string, value: string) {
    if slot == METRIC then request.metricIds == [value]
    else if slot == TIME_GRAIN then request.timeGrain == GrainNamed(value)
    else slot == TIME_RANGE && request.timeRange == Some(period(value))
  }

  /** An answer settles its slot and no other slot, and leaves filters, dimensions and the rest alone. */
  lemma AnswerSettlesOneSlot(period: string -> TimeRange, request: Request, slot: string, value: string, other: string, kept: string)
    requires slot in Slots
    ensures var r := ApplyAnswer(period, request, slot, value);
            && Holding(period, r, slot, value)
            && (other != slot && Holding(period, request, other, kept) ==> Holding(period, r, other, kept))
            && r == request.(metricIds := r.metricIds, timeRange := r.timeRange, timeGrain := r.timeGrain)
  {
  }

  // -- detecting material ambiguity --------------------------------------------------------------------

  datatype Candidate = Candidate(kind: string, id: string)

  function MetricCandidates(cs: seq<Candidate>): seq<string> {
    if cs == [] then []
    else (if cs[0].kind == "metric" then [cs[0].id] else []) + MetricCandidates(cs[1..])
  }

  /** The distinct identifiers in order of first occurrence. */
  function Deduplicated(ids: seq<string>): (out: seq<string>)
    ensures forall id :: id in out <==> id in ids
    ensures forall i, j :: 0 <= i < j < |out| ==> out[i] != out[j]
  {
    if ids == [] then []
    else
      var n := |ids| - 1;
      var before := Deduplicated(ids[..n]);
      assert ids == ids[..n] + [ids[n]];
      if ids[n] in before then before else before + [ids[n]]
  }

  predicate Executable(scope: Scope, id: string) {
    (Discover, ObjectResource(id)) in scope.allowed && (ExecuteMetric, ObjectResource(id)) in scope.allowed
  }

  function ExecutableOf(scope: Scope, ids: seq<string>): (out: seq<string>)
    ensures forall id :: id in out <==> id in ids && Executable(scope, id)
  {
    if ids == [] then []
    else (if Executable(scope, ids[0]) then [ids[0]] else []) + ExecutableOf(scope, ids[1..])
  }

  method ExecutableMetrics(scope: Scope, ids: seq<string>) returns (out: seq<string>)
    ensures out == ExecutableOf(scope, ids)
  {
    hide Executable, ExecutableOf;
    out := [];
    assert ids[0..] == ids;
    assert [] + ExecutableOf(scope, ids) == ExecutableOf(scope, ids);
    for i := 0 to |ids|
      invariant ExecutableOf(scope, ids) == out + ExecutableOf(scope, ids[i..])
    {
      ExecutableStep(scope, out, ids, i);
      if Executable(scope, ids[i]) {
        out := out + [ids[i]];
      }
    }
    NoneExecutable(scope, ids);
    assert out + [] == out;
  }

  lemma NoneExecutable(scope: Scope, ids: seq<string>)
    ensures ExecutableOf(scope, ids[|ids|..]) == []
  {
  }

  lemma ExecutableStep(scope: Scope, done: seq<string>, ids: seq<string>, i: nat)
    requires i < |ids|
    ensures done + ExecutableOf(scope, ids[i..])
         == (if Executable(scope, ids[i]) then done + [ids[i]] else done) + ExecutableOf(scope, ids[i + 1..])
  {
    assert ids[i..][1..] == ids[i + 1..];
    var rest := ExecutableOf(scope, ids[i + 1..]);
    assert done + ([ids[i]] + rest) == (done + [ids[i]]) + rest && [] + rest == rest;
  }

  function MetricOptions(bundle: Bundle, ids: seq<string>): (options: seq<Choice>)
    ensures |options| == |ids| && forall i :: 0 <= i < |ids| ==> options[i].value == ids[i]
  {
    if ids == [] then []
    else
      var caption := if ids[0] in bundle.metrics then MetricLabel(bundle.metrics[ids[0]]) else ids[0];
      [Choice(ids[0], caption)] + MetricOptions(bundle, ids[1..])
  }

  function MetricLabel(m: Metric): string {
    m.name + if m.unit.Some? && m.unit.value != "" then " (" + m.unit.value + ")" else ""
  }

  function AmbiguousMeasure(bundle: Bundle, scope: Scope, candidates: seq<Candidate>, exact: seq<string>): Option<Question> {
    if exact != [] then None
    else
      var runnable := ExecutableOf(scope, Deduplicated(MetricCandidates(candidates)));
      if |runnable| < 2 then None
      else Some(Question(METRIC, MetricOptions(bundle, if |runnable| > 4 then runnable[..4] else runnable)))
  }

  const PERIODS: seq<Choice> :=
    [Choice("2026-04-01/2026-07-01", "Q2 2026"), Choice("2026-01-01/2027-01-01", "Calendar year 2026"),
     Choice("2026-01-01/2026-04-01", "Q1 2026")]

  function MissingTimeRange(request: Request): Option<Question> {
    if request.timeRange.Some? || request.metricIds == [] then None else Some(Question(TIME_RANGE, PERIODS))
  }

  function GrainOptions(gs: seq<Grain>): (options: seq<Choice>)
    ensures |options| == |gs| && forall i :: 0 <= i < |gs| ==> options[i].value == GrainName(gs[i])
  {
    if gs == [] then [] else [Choice(GrainName(gs[0]), "By " + GrainName(gs[0]))] + GrainOptions(gs[1..])
  }

  function UnsupportedGrain(bundle: Bundle, request: Request): Option<Question> {
    if request.timeGrain.None? || request.metricIds == [] || request.metricIds[0] !in bundle.metrics then None
    else
      var grains := bundle.metrics[request.metricIds[0]].grains;
      if request.timeGrain.value in grains || |grains| < 2 then None
      else Some(Question(TIME_GRAIN, GrainOptions(grains)))
  }

  /** The first unresolved ambiguity that has not been asked about, if all metrics may be executed. */
  function Detect(bundle: Bundle, scope: Scope, request: Request, candidates: seq<Candidate>, exact: seq<string>, asked: set<string>)
    : Option<Question>
  {
    if exists id :: id in request.metricIds && (ExecuteMetric, ObjectResource(id)) !in scope.allowed then None
    else
      var measure := AmbiguousMeasure(bundle, scope, candidates, exact);
      var range, grain := MissingTimeRange(request), UnsupportedGrain(bundle, request);
      if METRIC !in asked && measure.Some? then measure
      else if TIME_RANGE !in asked && range.Some? then range
      else if TIME_GRAIN !in asked then grain
      else None
  }

  predicate Askable(q: Question, asked: set<string>) {
    q.slot in Slots && q.slot !in asked && |q.options| >= 2
  }

  /** A question is about a slot not asked before and has at least two options; metric options may be executed. */
  lemma QuestionsAreAskable(bundle: Bundle, scope: Scope, request: Request, candidates: seq<Candidate>, exact: seq<string>, asked: set<string>)
    ensures var q := Detect(bundle, scope, request, candidates, exact, asked);
            q.Some? ==> Askable(q.value, asked)
    ensures var q := Detect(bundle, scope, request, candidates, exact, asked);
            q.Some? && q.value.slot == METRIC ==> forall v :: v in ValuesOf(q.value.options) ==> Executable(scope, v)
  {
    var q := Detect(bundle, scope, request, candidates, exact, asked);
    if q.Some? && q.value.slot == METRIC {
      var runnable := ExecutableOf(scope, Deduplicated(MetricCandidates(candidates)));
      forall v | v in ValuesOf(q.value.options)
        ensures Executable(scope, v)
      {
        var i :| 0 <= i < |ValuesOf(q.value.options)| && ValuesOf(q.value.options)[i] == v;
        assert q.value.options[i].value == runnable[i];
        assert runnable[i] in runnable;
      }
    }
  }

  /** An accepted grain or period answer removes the ambiguity that was asked about. */
  lemma AnswersResolve(period: string -> TimeRange, bundle: Bundle, request: Request, q: Question, value: string)
    requires value in ValuesOf(q.options)
    ensures UnsupportedGrain(bundle, request) == Some(q) ==>
              UnsupportedGrain(bundle, ApplyAnswer(period, request, q.slot, value)) == None
    ensures MissingTimeRange(request) == Some(q) ==> MissingTimeRange(ApplyAnswer(period, request, q.slot, value)) == None
  {
    if UnsupportedGrain(bundle, request) == Some(q) {
      var grains := bundle.metrics[request.metricIds[0]].grains;
      var i :| 0 <= i < |ValuesOf(q.options)| && ValuesOf(q.options)[i] == value;
      assert GrainOptions(grains)[i].value == GrainName(grains[i]);
      GrainsAreNamed(grains[i]);
      assert grains[i] in grains;
    }
  }
}
