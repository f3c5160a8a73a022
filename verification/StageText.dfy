/** The persisted interrupt stage as text: written by service.py `_interrupt_sequence`, read back by
    `_interrupted_action_index` after a restart. */
module StageText {
  import opened Decimals
  import opened Wrappers
  import opened TaskModel
  import opened Lifecycle

  // ---------------------------------------------------------------- stages

  function TypeName(a: StopAction): string {
    match a
    case Signal(_) => "signal"
    case Input(_) => "input"
    case Exec(_) => "exec"
  }

  /** Every type of action has its own name. */
  lemma TypeNameTells(a: StopAction)
    ensures TypeName(a) == "signal" <==> a.Signal?
    ensures TypeName(a) == "input" <==> a.Input?
    ensures TypeName(a) == "exec" <==> a.Exec?
  {
    assert |"signal"| == 6 && |"input"| == 5 && |"exec"| == 4;
  }

  /** The text of a stage; `actions` is the list that a `StopAt` index points into. */
  function StageString(stage: Stage, actions: seq<StopAction>): string
    requires stage.StopAt? ==> stage.index < |actions|
  {
    match stage
    case QueuedStage => "queued"
    case Requested => "requested"
    case Sigkill => "sigkill"
    case StopAt(i) => "stop:" + Decimal(i) + ":" + TypeName(actions[i])
  }

  /** The part of `s` before its first colon: the second field of `stage.split(":", 2)`. */
  function Field(s: string): string {
    if s == "" || s[0] == ':' then "" else [s[0]] + Field(s[1..])
  }

  function InterruptedActionIndex(stage: Option<string>): nat {
    if stage.None? || !("stop:" <= stage.value) then 0 else
    match ParseInt(Field(stage.value[5..]))
    case Some(n) => if n > 0 then n else 0
    case None => 0
  }

  lemma {:induction false} FieldStops(s: string, rest: string)
    requires ':' !in s
    ensures Field(s + ":" + rest) == s
  {
    var all := s + ":" + rest;
    if s == "" {
      assert all[0] == ':';
    } else {
      assert all[0] == s[0] && all[1..] == s[1..] + ":" + rest;
      FieldStops(s[1..], rest);
    }
  }

  /** What a restart reads back from any stage that the controller writes is where the sequence was. */
  lemma StageRoundTrip(stage: Option<Stage>, actions: seq<StopAction>)
    requires stage.Some? && stage.value.StopAt? ==> stage.value.index < |actions|
    ensures InterruptedActionIndex(if stage.Some? then Some(StageString(stage.value, actions)) else None)
        == StartIndex(stage)
  {
    if stage.Some? && stage.value.StopAt? {
      var i := stage.value.index;
      var text := StageString(stage.value, actions);
      assert text == "stop:" + (Decimal(i) + ":" + TypeName(actions[i]));
      assert text[5..] == Decimal(i) + ":" + TypeName(actions[i]);
      FieldStops(Decimal(i), TypeName(actions[i]));
      DecimalParses(i);
    } else if stage.Some? {
      assert StageString(stage.value, actions)[1] != "stop:"[1];
    }
  }

  /** Different stages of one stop have different texts. */
  lemma StagesDiffer(a: Stage, b: Stage, actions: seq<StopAction>)
    requires (a.StopAt? ==> a.index < |actions|) && (b.StopAt? ==> b.index < |actions|)
    requires StageString(a, actions) == StageString(b, actions)
    ensures a == b
  {
    StageRoundTrip(Some(a), actions);
    StageRoundTrip(Some(b), actions);
    assert StageString(a, actions)[..2] == StageString(b, actions)[..2];
  }
}
