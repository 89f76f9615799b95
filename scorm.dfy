/**
 * The mobile SCORM block's run-time data handlers: `set_value`, which stores a
 * data-model element and maps the status, score and progress elements of the
 * SCORM 1.2 run-time data model and of section 4.2 of the SCORM 2004 Run-Time
 * Environment book onto the block's fields; `publish_grade`; the batch
 * handler `scorm_set_values`, gated by a last-updated timestamp; and the
 * storage path and URL of the uploaded package.
 *
 * Number parsing, grade computation and the clock are collaborators: they are
 * parameters, and publishing and completion are recorded as events.
 */
module Scorm {
  import opened Common

  const LastUpdatedKey := VStr("last_updated_time")
  const IsUpdatedKey := VStr("is_updated")

  const LessonStatusName := VStr("cmi.core.lesson_status")
  const SuccessStatusName := VStr("cmi.success_status")
  const CompletionStatusName := VStr("cmi.completion_status")
  const ProgressMeasureName := VStr("cmi.progress_measure")

  predicate IsScoreName(name: Value) {
    name == VStr("cmi.core.score.raw") || name == VStr("cmi.score.raw")
  }

  /** The block's collaborators: whether it is graded, its weight, the parser
      of positive floats and the grade it computes from its score and
      statuses. */
  datatype Runtime = Runtime(
    hasScore: bool,
    weight: real,
    parse: Value -> real,
    grade: (real, Value, Value) -> real)

  datatype Event = GradePublished(value: real, maxValue: real) | CompletionEmitted(percent: real)

  /** The block's user-scoped state and the events published so far. */
  datatype BlockState = BlockState(
    scormData: map<Value, Value>,
    lessonScore: real,
    lessonStatus: Value,
    successStatus: Value,
    events: seq<Event>)

  /** One element a SCORM package sets: the `name` and `value` keys of its
      dictionary, `VNull` when missing. */
  datatype Datum = Datum(name: Value, value: Value)

  type Context = map<string, Value>

  function GradeOf(st: BlockState, rt: Runtime): real {
    rt.grade(st.lessonScore, st.lessonStatus, st.successStatus)
  }

  /** `publish_grade`: stamp the clock into `scorm_data` when asked, then
      publish the current grade out of the weight. */
  function PublishGradeSpec(st: BlockState, rt: Runtime, setTime: bool, now: int): (r: BlockState)
    ensures setTime ==> r.scormData == st.scormData[LastUpdatedKey := VNum(now as real)]
    ensures !setTime ==> r.scormData == st.scormData
    ensures r.events == st.events + [GradePublished(GradeOf(st, rt), rt.weight)]
    ensures r.lessonScore == st.lessonScore && r.lessonStatus == st.lessonStatus && r.successStatus == st.successStatus
  {
    var data := if setTime then st.scormData[LastUpdatedKey := VNum(now as real)] else st.scormData;
    st.(scormData := data, events := st.events + [GradePublished(GradeOf(st, rt), rt.weight)])
  }

  /** What the `if`/`elif` chain of `set_value` extracts from one element:
      `VNull` and `None` stand for the locals left at `None`. */
  datatype Updates = Updates(
    successStatus: Value,
    completionStatus: Value,
    lessonScore: Option<real>,
    completionPercent: Option<real>)

  function Classify(d: Datum, rt: Runtime): (u: Updates)
    // a lesson status is split into a success or a completion status
    ensures d.name == LessonStatusName ==>
      && (d.value in {VStr("passed"), VStr("failed")} ==> u == Updates(d.value, VNull, None, None))
      && (d.value in {VStr("completed"), VStr("incomplete")} ==> u == Updates(VNull, d.value, None, None))
      && (d.value !in {VStr("passed"), VStr("failed"), VStr("completed"), VStr("incomplete")} ==> u == Updates(VNull, VNull, None, None))
    ensures d.name == SuccessStatusName ==> u == Updates(d.value, VNull, None, None)
    ensures d.name == CompletionStatusName ==> u == Updates(VNull, d.value, None, None)
    // a raw score counts only on a graded block, as a fraction of 100
    ensures IsScoreName(d.name) ==> u == Updates(VNull, VNull, if rt.hasScore then Some(rt.parse(d.value) / 100.0) else None, None)
    ensures d.name == ProgressMeasureName ==> u == Updates(VNull, VNull, None, Some(rt.parse(d.value)))
    ensures u.lessonScore.Some? ==> rt.hasScore && IsScoreName(d.name)
    ensures u.completionPercent.Some? ==> d.name == ProgressMeasureName
  {
    if d.name == LessonStatusName then
      if d.value in {VStr("passed"), VStr("failed")} then Updates(d.value, VNull, None, None)
      else if d.value in {VStr("completed"), VStr("incomplete")} then Updates(VNull, d.value, None, None)
      else Updates(VNull, VNull, None, None)
    else if d.name == SuccessStatusName then Updates(d.value, VNull, None, None)
    else if d.name == CompletionStatusName then Updates(VNull, d.value, None, None)
    else if IsScoreName(d.name) && rt.hasScore then Updates(VNull, VNull, Some(rt.parse(d.value) / 100.0), None)
    else if d.name == ProgressMeasureName then Updates(VNull, VNull, None, Some(rt.parse(d.value)))
    else Updates(VNull, VNull, None, None)
  }

  datatype SetOutcome = SetOutcome(state: BlockState, context: Context)

  /** Lines 76-80: a new score is recorded, reported in the context and, on a
      graded block, published. */
  function ApplyScore(st: BlockState, ctx: Context, u: Updates, rt: Runtime, setTime: bool, now: int): SetOutcome {
    if u.lessonScore.Some? then
      var s := st.(lessonScore := u.lessonScore.value);
      var c := ctx["grade" := VNum(GradeOf(s, rt))];
      SetOutcome(if rt.hasScore then PublishGradeSpec(s, rt, setTime, now) else s, c)
    else SetOutcome(st, ctx)
  }

  /** Lines 81-92: progress, the two statuses, completion and the final grade
      publication. */
  function ApplyStatuses(o: SetOutcome, u: Updates, rt: Runtime, setTime: bool, now: int): SetOutcome {
    var s1 := o.state;
    var s2 := if u.completionPercent.Some? then s1.(events := s1.events + [CompletionEmitted(u.completionPercent.value)]) else s1;
    var s3 := if Truthy(u.completionStatus) then s2.(lessonStatus := u.completionStatus) else s2;
    var ctx := if Truthy(u.completionStatus) then o.context["completion_status" := u.completionStatus] else o.context;
    var s4 := if Truthy(u.successStatus) then s3.(successStatus := u.successStatus) else s3;
    var s5 := if u.completionStatus == VStr("completed") then s4.(events := s4.events + [CompletionEmitted(1.0)]) else s4;
    var s6 := if (Truthy(u.successStatus) || u.completionStatus == VStr("completed")) && rt.hasScore
              then PublishGradeSpec(s5, rt, setTime, now) else s5;
    SetOutcome(s6, ctx)
  }

  /** `set_value`, on the block's state. */
  function SetValueSpec(st: BlockState, rt: Runtime, d: Datum, setTime: bool, now: int): SetOutcome {
    var u := Classify(d, rt);
    var s0 := st.(scormData := st.scormData[d.name := d.value]);
    ApplyStatuses(ApplyScore(s0, map["result" := VStr("success")], u, rt, setTime, now), u, rt, setTime, now)
  }

  /** Every element is stored raw under its name (the clock stamp of a
      publication may overwrite `last_updated_time` itself), nothing but that
      name and the stamp is written, earlier events stay, and the context always
      reports success. */
  lemma SetValueStoresRaw(st: BlockState, rt: Runtime, d: Datum, setTime: bool, now: int)
    ensures var o := SetValueSpec(st, rt, d, setTime, now);
      && "result" in o.context && o.context["result"] == VStr("success")
      && o.context.Keys <= {"result", "grade", "completion_status"}
      && d.name in o.state.scormData
      && (d.name != LastUpdatedKey || !setTime ==> o.state.scormData[d.name] == d.value)
      && o.state.scormData.Keys <= st.scormData.Keys + {d.name, LastUpdatedKey}
      && (forall k :: k in st.scormData && k != d.name && k != LastUpdatedKey ==> o.state.scormData[k] == st.scormData[k])
      && (!setTime ==> o.state.scormData == st.scormData[d.name := d.value])
      && |o.state.events| >= |st.events| && o.state.events[..|st.events|] == st.events
  {
    var o := SetValueSpec(st, rt, d, setTime, now);
    assert o.state.events[..|st.events|] == st.events;
  }

  /** The SCORM 1.2 lesson status: `passed`/`failed` become the success status
      and publish the grade on a graded block; `completed`/`incomplete` become
      the lesson status (reported in the context), and `completed` also emits
      completion 1 before that publication; any other value is only stored. */
  lemma LessonStatusRouting(st: BlockState, rt: Runtime, v: Value, setTime: bool, now: int)
    ensures var o := SetValueSpec(st, rt, Datum(LessonStatusName, v), setTime, now);
      && o.state.lessonScore == st.lessonScore
      && (v in {VStr("passed"), VStr("failed")} ==>
            && o.state.successStatus == v && o.state.lessonStatus == st.lessonStatus && "completion_status" !in o.context
            && o.state.events == st.events
                 + (if rt.hasScore then [GradePublished(rt.grade(st.lessonScore, st.lessonStatus, v), rt.weight)] else []))
      && (v in {VStr("completed"), VStr("incomplete")} ==>
            o.state.lessonStatus == v && o.state.successStatus == st.successStatus
            && "completion_status" in o.context && o.context["completion_status"] == v)
      && (v == VStr("completed") ==>
            o.state.events == st.events + [CompletionEmitted(1.0)]
              + (if rt.hasScore then [GradePublished(rt.grade(st.lessonScore, v, st.successStatus), rt.weight)] else []))
      && (v == VStr("incomplete") ==> o.state.events == st.events)
      && (v !in {VStr("passed"), VStr("failed"), VStr("completed"), VStr("incomplete")} ==>
            o.state.lessonStatus == st.lessonStatus && o.state.successStatus == st.successStatus
            && o.state.events == st.events && o.context == map["result" := VStr("success")])
  {
  }

  /** A raw score is processed only on a graded block: the score becomes the
      parsed value over 100, its grade goes into the context and is published.
      On an ungraded block it is only stored. */
  lemma ScoreRouting(st: BlockState, rt: Runtime, d: Datum, setTime: bool, now: int)
    requires IsScoreName(d.name)
    ensures var o := SetValueSpec(st, rt, d, setTime, now);
      var score := rt.parse(d.value) / 100.0;
      var g := rt.grade(score, st.lessonStatus, st.successStatus);
      && (rt.hasScore ==>
            && o.state.lessonScore == score
            && "grade" in o.context && o.context["grade"] == VNum(g)
            && o.state.events == st.events + [GradePublished(g, rt.weight)])
      && (!rt.hasScore ==>
            && o.state.lessonScore == st.lessonScore && o.state.events == st.events
            && o.context == map["result" := VStr("success")])
      && o.state.lessonStatus == st.lessonStatus && o.state.successStatus == st.successStatus
  {
  }

  /** Completion: a progress measure emits its parsed value, and a `completed`
      completion status emits 1 and is followed by a grade publication exactly
      when the block is graded. */
  lemma CompletionEvents(st: BlockState, rt: Runtime, d: Datum, setTime: bool, now: int)
    ensures var o := SetValueSpec(st, rt, d, setTime, now);
      && (d.name == ProgressMeasureName ==>
            o.state.events == st.events + [CompletionEmitted(rt.parse(d.value))])
      && (d.name == CompletionStatusName && d.value == VStr("completed") ==>
            var s := st.(lessonStatus := d.value);
            o.state.events == st.events + [CompletionEmitted(1.0)]
              + (if rt.hasScore then [GradePublished(GradeOf(s, rt), rt.weight)] else []))
  {
  }

  /** A grade is published only by a graded block: an ungraded one emits
      completion events at most. */
  lemma UngradedNeverPublishes(st: BlockState, rt: Runtime, d: Datum, setTime: bool, now: int)
    requires !rt.hasScore
    ensures var o := SetValueSpec(st, rt, d, setTime, now);
      && o.state.events[..|st.events|] == st.events
      && forall i :: |st.events| <= i < |o.state.events| ==> o.state.events[i].CompletionEmitted?
  {
    var o := SetValueSpec(st, rt, d, setTime, now);
    SetValueStoresRaw(st, rt, d, setTime, now);
    var u := Classify(d, rt);
    var tail := o.state.events[|st.events|..];
    assert o.state.events == st.events + tail;
    assert tail == (if u.completionPercent.Some? then [CompletionEmitted(u.completionPercent.value)] else [])
                 + (if u.completionStatus == VStr("completed") then [CompletionEmitted(1.0)] else []);
  }

  /** A success status that is set publishes the grade it leads to, on a
      graded block. */
  lemma SuccessStatusPublishes(st: BlockState, rt: Runtime, v: Value, setTime: bool, now: int)
    requires Truthy(v) && rt.hasScore
    ensures var o := SetValueSpec(st, rt, Datum(SuccessStatusName, v), setTime, now);
      && o.state.successStatus == v
      && o.state.events == st.events + [GradePublished(rt.grade(st.lessonScore, st.lessonStatus, v), rt.weight)]
  {
  }

  /** Without the clock stamp, `set_value` does not depend on the time. */
  lemma SetValueIgnoresClock(st: BlockState, rt: Runtime, d: Datum, now1: int, now2: int)
    ensures SetValueSpec(st, rt, d, false, now1) == SetValueSpec(st, rt, d, false, now2)
  {
  }

  datatype Applied = Applied(state: BlockState, contexts: seq<Context>)

  /** The elements of a batch applied in order. */
  function ApplyAll(st: BlockState, rt: Runtime, items: seq<Datum>, setTime: bool, now: int): (r: Applied)
    ensures |r.contexts| == |items|
    decreases |items|
  {
    if items == [] then Applied(st, [])
    else
      var prev := ApplyAll(st, rt, items[..|items| - 1], setTime, now);
      var o := SetValueSpec(prev.state, rt, items[|items| - 1], setTime, now);
      Applied(o.state, prev.contexts + [o.context])
  }

  /** Every context of a batch reports success, and the events only grow. */
  lemma {:induction false} ApplyAllContexts(st: BlockState, rt: Runtime, items: seq<Datum>, setTime: bool, now: int)
    ensures var r := ApplyAll(st, rt, items, setTime, now);
      && (forall i :: 0 <= i < |items| ==> "result" in r.contexts[i] && r.contexts[i]["result"] == VStr("success"))
      && |r.state.events| >= |st.events| && r.state.events[..|st.events|] == st.events
    decreases |items|
  {
    if items != [] {
      var prev := ApplyAll(st, rt, items[..|items| - 1], setTime, now);
      ApplyAllContexts(st, rt, items[..|items| - 1], setTime, now);
      SetValueStoresRaw(prev.state, rt, items[|items| - 1], setTime, now);
    }
  }

  /** Without the clock stamp, a batch does not depend on the time. */
  lemma {:induction false} ApplyAllIgnoresClock(st: BlockState, rt: Runtime, items: seq<Datum>, now1: int, now2: int)
    ensures ApplyAll(st, rt, items, false, now1) == ApplyAll(st, rt, items, false, now2)
    decreases |items|
  {
    if items != [] {
      ApplyAllIgnoresClock(st, rt, items[..|items| - 1], now1, now2);
      SetValueIgnoresClock(ApplyAll(st, rt, items[..|items| - 1], false, now1).state, rt, items[|items| - 1], now1, now2);
    }
  }

  /** What `scorm_set_values` receives: a dictionary with an optional
      `last_updated_time` and an optional `data` list, or a plain list. */
  datatype Batch = DictBatch(lastUpdatedTime: Option<Value>, items: Option<seq<Datum>>) | ListBatch(list: seq<Datum>)

  /** The handler's JSON answer; a `TypeError` raised by the time comparison or
      by iterating a missing `data` list is an error answer. */
  datatype Response = DictResponse(data: map<Value, Value>) | ListResponse(contexts: seq<Context>) | RaisedTypeError

  datatype SyncOutcome = SyncOutcome(state: BlockState, response: Response)

  /** A value Python can order against a number: numbers and booleans. */
  function PyNumber(v: Value): Option<real> {
    match v
    case VNum(n) => Some(n)
    case VBool(b) => Some(if b then 1.0 else 0.0)
    case _ => None
  }

  /** `a < b` for two numeric values; None where Python raises `TypeError`. */
  function PyLess(a: Value, b: Value): (r: Option<bool>)
    ensures r.Some? <==> PyNumber(a).Some? && PyNumber(b).Some?
    ensures r.Some? ==> (r.value <==> PyNumber(a).value < PyNumber(b).value)
  {
    if PyNumber(a).Some? && PyNumber(b).Some? then Some(PyNumber(a).value < PyNumber(b).value) else None
  }

  /** Python's `int()` of a number: truncation toward zero. */
  function Trunc(r: real): (n: int)
    ensures r >= 0.0 ==> n as real <= r < n as real + 1.0
    ensures r < 0.0 ==> n as real - 1.0 < r <= n as real
  {
    if r >= 0.0 then r.Floor else -((-r).Floor)
  }

  function StoredTime(st: BlockState): Value {
    if LastUpdatedKey in st.scormData then st.scormData[LastUpdatedKey] else VNum(0.0)
  }

  /** `scorm_set_values`, on the block's state. */
  function SetValuesSpec(st: BlockState, rt: Runtime, b: Batch, now: int): SyncOutcome {
    match b
    case ListBatch(items) =>
      var r := ApplyAll(st, rt, items, true, now);
      SyncOutcome(r.state, ListResponse(r.contexts))
    case DictBatch(time, items) =>
      var incoming := time.GetOr(VNum(0.0));
      match PyLess(StoredTime(st), incoming)
      case None => SyncOutcome(st, RaisedTypeError)
      case Some(false) =>
        var data := st.scormData[IsUpdatedKey := VBool(false)];
        SyncOutcome(st.(scormData := data), DictResponse(data))
      case Some(true) =>
        if items.None? then SyncOutcome(st, RaisedTypeError)
        else
          var r := ApplyAll(st, rt, items.value, false, now).state;
          var data := r.scormData[LastUpdatedKey := VNum(Trunc(PyNumber(incoming).value) as real)][IsUpdatedKey := VBool(true)];
          SyncOutcome(r.(scormData := data), DictResponse(data))
  }

  /** A dictionary batch that is not newer than the stored time changes nothing
      but the `is_updated` entry, which lands in `scorm_data` itself because the
      answer is that dictionary. */
  lemma StaleBatchOnlyMarks(st: BlockState, rt: Runtime, time: Option<Value>, items: Option<seq<Datum>>, now: int)
    requires PyLess(StoredTime(st), time.GetOr(VNum(0.0))) == Some(false)
    ensures var o := SetValuesSpec(st, rt, DictBatch(time, items), now);
      && o.state == st.(scormData := st.scormData[IsUpdatedKey := VBool(false)])
      && o.response == DictResponse(o.state.scormData)
  {
  }

  /** A newer dictionary batch applies its elements in order without the clock,
      then stores the truncated incoming time and `is_updated` true; the answer
      is the updated `scorm_data`. */
  lemma FreshBatchApplies(st: BlockState, rt: Runtime, time: Option<Value>, items: seq<Datum>, now: int)
    requires PyLess(StoredTime(st), time.GetOr(VNum(0.0))) == Some(true)
    ensures var o := SetValuesSpec(st, rt, DictBatch(time, Some(items)), now);
      var r := ApplyAll(st, rt, items, false, now).state;
      && o.state.scormData[LastUpdatedKey] == VNum(Trunc(PyNumber(time.GetOr(VNum(0.0))).value) as real)
      && o.state.scormData[IsUpdatedKey] == VBool(true)
      && o.state.scormData == r.scormData[LastUpdatedKey := o.state.scormData[LastUpdatedKey]][IsUpdatedKey := VBool(true)]
      && o.state.scormData.Keys == r.scormData.Keys + {LastUpdatedKey, IsUpdatedKey}
      && (forall k :: k in r.scormData && k != LastUpdatedKey && k != IsUpdatedKey ==> o.state.scormData[k] == r.scormData[k])
      && o.state.events == r.events && o.state.lessonScore == r.lessonScore
      && o.state.lessonStatus == r.lessonStatus && o.state.successStatus == r.successStatus
      && o.response == DictResponse(o.state.scormData)
  {
  }

  /** The stored time only moves forward on a fresh batch: the time was smaller
      than the incoming one, which the stored value truncates. */
  lemma FreshBatchTimeOrder(st: BlockState, rt: Runtime, time: Option<Value>, items: seq<Datum>, now: int)
    requires PyLess(StoredTime(st), time.GetOr(VNum(0.0))) == Some(true)
    requires PyNumber(time.GetOr(VNum(0.0))).value >= 0.0
    ensures var o := SetValuesSpec(st, rt, DictBatch(time, Some(items)), now);
      PyNumber(StoredTime(o.state)).Some?
      && PyNumber(StoredTime(o.state)).value <= PyNumber(time.GetOr(VNum(0.0))).value
  {
  }

  /** A dictionary batch does not depend on the clock. */
  lemma DictBatchIgnoresClock(st: BlockState, rt: Runtime, time: Option<Value>, items: Option<seq<Datum>>, now1: int, now2: int)
    ensures SetValuesSpec(st, rt, DictBatch(time, items), now1) == SetValuesSpec(st, rt, DictBatch(time, items), now2)
  {
    if items.Some? {
      ApplyAllIgnoresClock(st, rt, items.value, now1, now2);
    }
  }

  /** A list batch answers one successful context per element. */
  lemma ListBatchContexts(st: BlockState, rt: Runtime, items: seq<Datum>, now: int)
    ensures var o := SetValuesSpec(st, rt, ListBatch(items), now);
      && o.response.ListResponse? && |o.response.contexts| == |items|
      && forall i :: 0 <= i < |items| ==> "result" in o.response.contexts[i] && o.response.contexts[i]["result"] == VStr("success")
  {
    ApplyAllContexts(st, rt, items, true, now);
  }

  /** The mobile SCORM block's user state. */
  class MobileScormBlock {
    var scormData: map<Value, Value>
    var lessonScore: real
    var lessonStatus: Value
    var successStatus: Value
    var events: seq<Event>
    const runtime: Runtime

    function State(): BlockState
      reads this
    {
      BlockState(scormData, lessonScore, lessonStatus, successStatus, events)
    }

    constructor (rt: Runtime, init: BlockState)
      ensures State() == init && runtime == rt
    {
      runtime := rt;
      scormData := init.scormData;
      lessonScore := init.lessonScore;
      lessonStatus := init.lessonStatus;
      successStatus := init.successStatus;
      events := init.events;
    }

    /** `publish_grade`. */
    method PublishGrade(setTime: bool, now: int)
      modifies this
      ensures State() == PublishGradeSpec(old(State()), runtime, setTime, now)
    {
      if setTime {
        scormData := scormData[LastUpdatedKey := VNum(now as real)];
      }
      events := events + [GradePublished(runtime.grade(lessonScore, lessonStatus, successStatus), runtime.weight)];
    }

    /** `set_value`. */
    method SetValue(d: Datum, setTime: bool, now: int) returns (context: Context)
      modifies this
      ensures SetOutcome(State(), context) == SetValueSpec(old(State()), runtime, d, setTime, now)
    {
      var name, value := d.name, d.value;
      var completionPercent: Option<real> := None;
      var successStatus': Value := VNull;
      var completionStatus: Value := VNull;
      var lessonScore': Option<real> := None;

      scormData := scormData[name := value];
      if name == LessonStatusName {
        var status := value;
        if status in {VStr("passed"), VStr("failed")} {
          successStatus' := status;
        } else if status in {VStr("completed"), VStr("incomplete")} {
          completionStatus := status;
        }
      } else if name == SuccessStatusName {
        successStatus' := value;
      } else if name == CompletionStatusName {
        completionStatus := value;
      } else if IsScoreName(name) && runtime.hasScore {
        lessonScore' := Some(runtime.parse(value) / 100.0);
      } else if name == ProgressMeasureName {
        completionPercent := Some(runtime.parse(value));
      }
      assert Updates(successStatus', completionStatus, lessonScore', completionPercent) == Classify(d, runtime);

      context := map["result" := VStr("success")];
      if lessonScore'.Some? {
        lessonScore := lessonScore'.value;
        context := context["grade" := VNum(runtime.grade(lessonScore, lessonStatus, successStatus))];
        if runtime.hasScore {
          PublishGrade(setTime, now);
        }
      }
      if completionPercent.Some? {
        events := events + [CompletionEmitted(completionPercent.value)];
      }
      if Truthy(completionStatus) {
        lessonStatus := completionStatus;
        context := context["completion_status" := completionStatus];
      }
      if Truthy(successStatus') {
        successStatus := successStatus';
      }
      if completionStatus == VStr("completed") {
        events := events + [CompletionEmitted(1.0)];
      }
      if Truthy(successStatus') || completionStatus == VStr("completed") {
        if runtime.hasScore {
          PublishGrade(setTime, now);
        }
      }
    }

    /** The elements of a batch applied in order by `set_value`. */
    method ApplyItems(items: seq<Datum>, setTime: bool, now: int) returns (contexts: seq<Context>)
      modifies this
      ensures Applied(State(), contexts) == ApplyAll(old(State()), runtime, items, setTime, now)
    {
      ghost var start := State();
      contexts := [];
      for i := 0 to |items|
        invariant Applied(State(), contexts) == ApplyAll(start, runtime, items[..i], setTime, now)
      {
        assert items[..i + 1][..i] == items[..i];
        var context := SetValue(items[i], setTime, now);
        contexts := contexts + [context];
      }
      assert items[..|items|] == items;
    }

    /** `scorm_set_values`. */
    method ScormSetValues(b: Batch, now: int) returns (response: Response)
      modifies this
      ensures SyncOutcome(State(), response) == SetValuesSpec(old(State()), runtime, b, now)
    {
      match b {
        case ListBatch(items) =>
          var contexts := ApplyItems(items, true, now);
          response := ListResponse(contexts);
        case DictBatch(time, items) =>
          var isUpdated := false;
          var stored := if LastUpdatedKey in scormData then scormData[LastUpdatedKey] else VNum(0.0);
          var incoming := time.GetOr(VNum(0.0));
          var less := PyLess(stored, incoming);
          if less.None? {
            response := RaisedTypeError;
            return;
          }
          if less.value {
            if items.None? {
              response := RaisedTypeError;
              return;
            }
            var contexts := ApplyItems(items.value, false, now);
            scormData := scormData[LastUpdatedKey := VNum(Trunc(PyNumber(incoming).value) as real)];
            isUpdated := true;
          }
          scormData := scormData[IsUpdatedKey := VBool(isUpdated)];
          response := DictResponse(scormData);
      }
    }
  }

  // ---------------------------------------------------------------------------
  // Package path and URL

  /** The last index of `c` in `s`, or -1. */
  function RFind(s: string, c: char): (r: int)
    ensures -1 <= r < |s|
    ensures r >= 0 ==> s[r] == c
    ensures forall j :: r < j < |s| ==> s[j] != c
  {
    if s == [] then -1
    else if s[|s| - 1] == c then |s| - 1
    else RFind(s[..|s| - 1], c)
  }

  /** POSIX `os.path.splitext`: the extension starts at the last dot of the last
      path component, unless only dots precede it there. */
  function SplitExt(p: string): (r: (string, string)) {
    var sep := RFind(p, '/');
    var dot := RFind(p, '.');
    if dot > sep && exists k :: sep + 1 <= k < dot && p[k] != '.' then (p[..dot], p[dot..])
    else (p, "")
  }

  /** The split loses nothing, and an extension is a single dotted suffix of the
      last component: it starts with its only `.` and holds no `/`. */
  lemma SplitExtShape(p: string)
    ensures var (root, ext) := SplitExt(p);
      && root + ext == p
      && (ext != "" ==> ext[0] == '.' && '.' !in ext[1..] && '/' !in ext)
      && (ext != "" ==> root != "" && root[|root| - 1] != '/')
  {
    var sep := RFind(p, '/');
    var dot := RFind(p, '.');
    var (root, ext) := SplitExt(p);
    if ext != "" {
      assert p[..dot] + p[dot..] == p;
      assert ext[1..] == p[dot + 1..];
      var k :| sep + 1 <= k < dot && p[k] != '.';
      assert p[dot - 1] != '/';
    } else {
      assert root == p;
    }
  }

  /** `_file_storage_path`: the package is stored under the block's directory
      as its SHA-1 followed by the extension of the uploaded file's name. */
  function FileStoragePath(loc: Location, sha1: string, name: string): (path: string)
    ensures StartsWith(path, BaseStoragePath(loc) + sha1)
  {
    var ext := SplitExt(name).1;
    var path := BaseStoragePath(loc) + sha1 + ext;
    assert path[..|BaseStoragePath(loc) + sha1|] == BaseStoragePath(loc) + sha1;
    path
  }

  /** The part of the storage path after the SHA-1 is a suffix of the uploaded
      name: its extension, or nothing. */
  lemma FileStoragePathExtension(loc: Location, sha1: string, name: string)
    ensures var path := FileStoragePath(loc, sha1, name);
      var rest := path[|BaseStoragePath(loc) + sha1|..];
      && |rest| <= |name| && name[|name| - |rest|..] == rest
      && (rest != "" ==> rest[0] == '.' && '/' !in rest)
  {
    SplitExtShape(name);
    var (root, ext) := SplitExt(name);
    var path := FileStoragePath(loc, sha1, name);
    assert path == (BaseStoragePath(loc) + sha1) + ext;
    assert path[|BaseStoragePath(loc) + sha1|..] == ext;
    assert name[|name| - |ext|..] == ext by {
      assert name == root + ext;
    }
  }

  /** The answer of `student_view_data` when the package has an index page. */
  datatype PackageInfo = PackageInfo(lastModified: Value, size: Value, indexPage: Value, scormData: string)

  /** `student_view_data`: nothing without an index page URL; otherwise the
      package's metadata (`""` and `0` when absent), its index page and its
      absolute storage URL. `storageUrl` is the storage backend's URL of the
      package path. */
  function StudentViewData(indexPageUrl: string, packageMeta: map<string, Value>, indexPagePath: Value,
                           storageUrl: string, lmsRootUrl: string): (r: Option<PackageInfo>)
    ensures r.None? <==> indexPageUrl == ""
    ensures r.Some? ==>
      && r.value.scormData == AbsoluteUrl(storageUrl, lmsRootUrl)
      && r.value.lastModified == (if "last_updated" in packageMeta then packageMeta["last_updated"] else VStr(""))
      && r.value.size == (if "size" in packageMeta then packageMeta["size"] else VNum(0.0))
      && r.value.indexPage == indexPagePath
  {
    if indexPageUrl == "" then None
    else
      Some(PackageInfo(
        if "last_updated" in packageMeta then packageMeta["last_updated"] else VStr(""),
        if "size" in packageMeta then packageMeta["size"] else VNum(0.0),
        indexPagePath,
        AbsoluteUrl(storageUrl, lmsRootUrl)))
  }
}
