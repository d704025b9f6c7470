/**
 * The per-poll state machine of the bot's main loop. Its memory is the
 * current state, the "check the start button's colour" flag, the click and
 * dish counters and the frame number. Each poll detects a state, lets a
 * colour verdict override it (except during the quicktime cue), and runs the
 * handler for the resulting state, which emits clicks or ends the run.
 *
 * `Poll` and `Run` state the behaviour on values; the class `Bot` performs it
 * by updating its fields, and its methods are proved to agree with them.
 */
module Dispatch {

  import opened Wrappers
  import opened Matching
  import opened Detection
  import opened ButtonColor
  import opened Calibration

  /** Whether the quicktime cue is clicked with a double click. */
  const DoubleClickSpatula: bool := true
  /** The fixed confirm point clicked after choosing a menu. */
  const MenuConfirmX: int := 220
  const MenuConfirmY: int := 260

  /** One mouse action: move to (x, y) and click, or double-click. */
  datatype Click = Click(x: int, y: int, double: bool)

  /** Why a poll ended the run, or that it did not. */
  datatype Outcome = Continue | UserStop | OutOfIngredients | CaptureFailure | MissingSpatula

  /** The loop's memory between polls. */
  datatype BotState = BotState(
    current: Option<GameState>, checkBtn: bool, clickCount: nat, doneCount: nat, frameId: nat)

  const Initial := BotState(None, false, 0, 0, 0)

  /**
   * What the environment supplies to one poll: whether the stop key was
   * pressed, the main capture (None when capturing raised), the button area
   * (None when anything before the pixel read raised: its capture or an icon
   * match) and the screen's pixel colours (None when reading a pixel raised).
   */
  datatype PollInput = PollInput(
    stop: bool, frame: Option<Frame>, button: Option<ButtonFrame>, pixelAt: Point -> Option<Rgb>)

  /** The memory after a poll (or several), the clicks emitted, and whether to go on. */
  datatype StepResult = StepResult(next: BotState, emitted: seq<Click>, outcome: Outcome)

  /** Between polls the current state is only ever nothing or the quicktime cue. */
  predicate BetweenPolls(m: BotState)
  {
    m.current == None || m.current == Some(QuicktimeEvent)
  }

  /** A verdict replaces the detected state unless the quicktime cue was detected. */
  predicate Overrides(d: Detection, verdict: Option<GameState>)
  {
    verdict.Some? && d.state != Some(QuicktimeEvent)
  }

  /** The detection a verdict puts in place: the verdict at the button's centre, score 1. */
  function OverrideDetection(verdict: GameState): Detection
  {
    Detection(Some(verdict), BtnCenterX, BtnCenterY, 1.0)
  }

  /** The state handlers. */
  function Handle(m: BotState, d: Detection): StepResult
  {
    match d.state
    case Some(QuicktimeEvent) =>
      StepResult(m.(current := Some(QuicktimeEvent), clickCount := m.clickCount + 1),
                 [Click(d.x, d.y, DoubleClickSpatula)], Continue)
    case Some(CookingDone) =>
      if m.current != Some(CookingDone) then
        StepResult(m.(current := None, clickCount := m.clickCount + 1, doneCount := m.doneCount + 1),
                   [Click(d.x, d.y, true)], Continue)
      else StepResult(m, [], Continue)
    case Some(CanCook) =>
      if m.current != Some(CanCook) then
        StepResult(m.(current := None, clickCount := m.clickCount + 1), [Click(d.x, d.y, true)], Continue)
      else StepResult(m, [], Continue)
    case Some(CannotCook) =>
      StepResult(m, [], OutOfIngredients)
    case Some(WaitingMenu) =>
      if m.current != Some(WaitingMenu) then
        StepResult(m.(current := None, clickCount := m.clickCount + 2, checkBtn := true),
                   [Click(d.x, d.y, true), Click(MenuConfirmX, MenuConfirmY, true)], Continue)
      else StepResult(m, [], Continue)
    case None =>
      StepResult(m.(current := None), [], Continue)
  }

  /** The colour verdict of this poll: the button check when the flag is armed, nothing otherwise. */
  function Verdict(m: BotState, ts: Templates, input: PollInput): Option<GameState>
  {
    if m.checkBtn then ButtonCheck(ts, input.button, input.pixelAt) else None
  }

  /** One iteration of the main loop, starting with the stop check. */
  function Poll(m: BotState, ts: Templates, ox: int, oy: int, input: PollInput): StepResult
  {
    if input.stop then StepResult(m, [], UserStop)
    else
      var m1 := m.(frameId := m.frameId + 1);
      if input.frame.None? then StepResult(m1, [], CaptureFailure)
      else
        var d := DetectState(ts, input.frame.value, ox, oy);
        var verdict := Verdict(m, ts, input);
        if Overrides(d, verdict) then Handle(m1.(checkBtn := false), OverrideDetection(verdict.value))
        else Handle(m1, d)
  }

  /** The main loop over a finite sequence of poll inputs: it stops at the first poll that ends the run. */
  function Run(m: BotState, ts: Templates, ox: int, oy: int, inputs: seq<PollInput>): StepResult
    decreases |inputs|
  {
    if |inputs| == 0 then StepResult(m, [], Continue)
    else
      var s := Poll(m, ts, ox, oy, inputs[0]);
      if s.outcome != Continue then s
      else
        var t := Run(s.next, ts, ox, oy, inputs[1..]);
        StepResult(t.next, s.emitted + t.emitted, t.outcome)
  }

  // ---------------------------------------------------------------- handlers

  /** Quicktime: every poll emits one click at the detected position and counts it. */
  lemma QuicktimeClicksEveryPoll(m: BotState, d: Detection)
    requires d.state == Some(QuicktimeEvent)
    ensures var s := Handle(m, d);
      && s.emitted == [Click(d.x, d.y, DoubleClickSpatula)]
      && s.next == m.(current := Some(QuicktimeEvent), clickCount := m.clickCount + 1)
      && s.outcome == Continue
  {
  }

  /** Cooking done: one double click, both counters up by one, memory back to nothing. */
  lemma DoneClicksOnce(m: BotState, d: Detection)
    requires BetweenPolls(m) && d.state == Some(CookingDone)
    ensures var s := Handle(m, d);
      && s.emitted == [Click(d.x, d.y, true)]
      && s.next == m.(current := None, clickCount := m.clickCount + 1, doneCount := m.doneCount + 1)
      && s.outcome == Continue
  {
  }

  /** Can cook: one double click, one more click counted, memory back to nothing. */
  lemma CanCookClicksOnce(m: BotState, d: Detection)
    requires BetweenPolls(m) && d.state == Some(CanCook)
    ensures var s := Handle(m, d);
      && s.emitted == [Click(d.x, d.y, true)]
      && s.next == m.(current := None, clickCount := m.clickCount + 1)
      && s.outcome == Continue
  {
  }

  /** Cannot cook: the run ends, nothing is clicked and the memory is untouched. */
  lemma CannotCookStops(m: BotState, d: Detection)
    requires d.state == Some(CannotCook)
    ensures Handle(m, d) == StepResult(m, [], OutOfIngredients)
  {
  }

  /** Menu: a double click at the menu, another at the confirm point, two clicks counted, flag armed. */
  lemma MenuClicksTwiceAndArms(m: BotState, d: Detection)
    requires BetweenPolls(m) && d.state == Some(WaitingMenu)
    ensures var s := Handle(m, d);
      && s.emitted == [Click(d.x, d.y, true), Click(220, 260, true)]
      && s.next == m.(current := None, clickCount := m.clickCount + 2, checkBtn := true)
      && s.outcome == Continue
  {
  }

  /** Nothing detected: no click, counters and flag unchanged, memory back to nothing. */
  lemma NothingDetectedIdles(m: BotState, d: Detection)
    requires d.state.None?
    ensures Handle(m, d) == StepResult(m.(current := None), [], Continue)
  {
  }

  // ---------------------------------------------------------------- one poll

  /**
   * The loop invariant of the source: between polls the current state is
   * nothing or the quicktime cue, every emitted click is counted, and dishes
   * are never counted without a click.
   */
  lemma PollKeepsInvariant(m: BotState, ts: Templates, ox: int, oy: int, input: PollInput)
    requires BetweenPolls(m)
    ensures var s := Poll(m, ts, ox, oy, input);
      && BetweenPolls(s.next)
      && s.next.clickCount == m.clickCount + |s.emitted|
      && s.next.doneCount - m.doneCount <= s.next.clickCount - m.clickCount
      && (s.outcome != Continue ==> s.emitted == [])
  {
    forall m', d | BetweenPolls(m')
      ensures var s := Handle(m', d);
        && BetweenPolls(s.next)
        && s.next.clickCount == m'.clickCount + |s.emitted|
        && s.next.doneCount - m'.doneCount <= s.next.clickCount - m'.clickCount
        && (s.outcome != Continue ==> s.emitted == [])
    {
      HandleKeepsInvariant(m', d);
    }
  }

  /** Every handler leaves the current state nothing or quicktime, and counts each click it emits. */
  lemma HandleKeepsInvariant(m: BotState, d: Detection)
    requires BetweenPolls(m)
    ensures var s := Handle(m, d);
      && BetweenPolls(s.next)
      && s.next.clickCount == m.clickCount + |s.emitted|
      && s.next.doneCount - m.doneCount <= s.next.clickCount - m.clickCount
      && s.next.frameId == m.frameId
      && (s.outcome != Continue ==> s.emitted == [] && s.next == m)
  {
  }

  /** A stop request ends the run before anything is captured, clicked or counted. */
  lemma StopEndsBeforeCapture(m: BotState, ts: Templates, ox: int, oy: int, input: PollInput)
    requires input.stop
    ensures Poll(m, ts, ox, oy, input) == StepResult(m, [], UserStop)
  {
  }

  /**
   * Override: an applied verdict is handled at the button's centre with score 1
   * and disarms the flag; during the quicktime cue the detected state is kept.
   */
  lemma VerdictOverridesDetection(m: BotState, ts: Templates, ox: int, oy: int, input: PollInput)
    requires !input.stop && input.frame.Some?
    ensures var d := DetectState(ts, input.frame.value, ox, oy);
      var v := Verdict(m, ts, input);
      var m1 := m.(frameId := m.frameId + 1);
      && (v.Some? && d.state != Some(QuicktimeEvent) ==>
            Poll(m, ts, ox, oy, input) == Handle(m1.(checkBtn := false), Detection(v, 1404, 980, 1.0)))
      && (d.state == Some(QuicktimeEvent) ==> Poll(m, ts, ox, oy, input) == Handle(m1, d))
      && (v.None? ==> Poll(m, ts, ox, oy, input) == Handle(m1, d))
  {
    ButtonCentre();
  }

  /**
   * The flag: while disarmed the button capture and the pixels are ignored;
   * while armed, a poll without a verdict keeps it armed, and only an applied
   * override clears it.
   */
  lemma ButtonFlagDiscipline(m: BotState, ts: Templates, ox: int, oy: int, input: PollInput,
                             button: Option<ButtonFrame>, pixelAt: Point -> Option<Rgb>)
    ensures !m.checkBtn ==>
      Poll(m, ts, ox, oy, input) == Poll(m, ts, ox, oy, input.(button := button, pixelAt := pixelAt))
    ensures m.checkBtn && ButtonCheck(ts, input.button, input.pixelAt).None? ==>
      Poll(m, ts, ox, oy, input).next.checkBtn
    ensures m.checkBtn && !Poll(m, ts, ox, oy, input).next.checkBtn ==>
      && !input.stop && input.frame.Some?
      && Overrides(DetectState(ts, input.frame.value, ox, oy), ButtonCheck(ts, input.button, input.pixelAt))
  {
  }

  // ---------------------------------------------------------------- many polls

  /** `Run` keeps the invariant and the click accounting of `Poll` across any number of polls. */
  lemma {:induction false} RunKeepsInvariant(m: BotState, ts: Templates, ox: int, oy: int, inputs: seq<PollInput>)
    requires BetweenPolls(m)
    ensures var t := Run(m, ts, ox, oy, inputs);
      && BetweenPolls(t.next)
      && t.next.clickCount == m.clickCount + |t.emitted|
      && t.next.doneCount - m.doneCount <= t.next.clickCount - m.clickCount
    decreases |inputs|
  {
    if |inputs| > 0 {
      PollKeepsInvariant(m, ts, ox, oy, inputs[0]);
      var s := Poll(m, ts, ox, oy, inputs[0]);
      if s.outcome == Continue {
        RunKeepsInvariant(s.next, ts, ox, oy, inputs[1..]);
      }
    }
  }

  /** The classifier's answer for the frame of input `i` (nothing when the capture failed). */
  function Detected(ts: Templates, ox: int, oy: int, i: PollInput): Detection
  {
    if i.frame.Some? then DetectState(ts, i.frame.value, ox, oy) else NoDetection
  }

  /** Whether input `i` is a poll that runs and detects the quicktime cue. */
  predicate SpatulaPoll(ts: Templates, ox: int, oy: int, i: PollInput)
  {
    !i.stop && i.frame.Some? && Detected(ts, ox, oy, i).state == Some(QuicktimeEvent)
  }

  /** N consecutive quicktime polls emit exactly N clicks, one per poll at that poll's position. */
  lemma {:induction false} SpatulaPollsClickEachTime(m: BotState, ts: Templates, ox: int, oy: int, inputs: seq<PollInput>)
    requires forall k :: 0 <= k < |inputs| ==> SpatulaPoll(ts, ox, oy, inputs[k])
    ensures var t := Run(m, ts, ox, oy, inputs);
      && t.outcome == Continue
      && |t.emitted| == |inputs|
      && t.next.clickCount == m.clickCount + |inputs|
      && t.next.doneCount == m.doneCount
      && (|inputs| > 0 ==> t.next.current == Some(QuicktimeEvent))
      && forall k :: 0 <= k < |inputs| ==>
           t.emitted[k] == Click(Detected(ts, ox, oy, inputs[k]).x, Detected(ts, ox, oy, inputs[k]).y, DoubleClickSpatula)
    decreases |inputs|
  {
    if |inputs| > 0 {
      var s := Poll(m, ts, ox, oy, inputs[0]);
      var d0 := Detected(ts, ox, oy, inputs[0]);
      assert s.emitted == [Click(d0.x, d0.y, DoubleClickSpatula)];
      assert forall k :: 0 <= k < |inputs[1..]| ==> SpatulaPoll(ts, ox, oy, inputs[1..][k]) by {
        forall k | 0 <= k < |inputs[1..]| ensures SpatulaPoll(ts, ox, oy, inputs[1..][k]) {
          assert inputs[1..][k] == inputs[k + 1];
        }
      }
      SpatulaPollsClickEachTime(s.next, ts, ox, oy, inputs[1..]);
      var t := Run(m, ts, ox, oy, inputs);
      forall k | 0 <= k < |inputs|
        ensures t.emitted[k] == Click(Detected(ts, ox, oy, inputs[k]).x, Detected(ts, ox, oy, inputs[k]).y, DoubleClickSpatula)
      {
        if k > 0 { assert inputs[1..][k - 1] == inputs[k]; }
      }
    }
  }

  /**
   * A cooking-done cue still visible on the next poll is clicked again: the
   * memory is cleared right after the first click, so the second poll acts too.
   */
  lemma DoneCueReclicks(m: BotState, ts: Templates, ox: int, oy: int, i1: PollInput, i2: PollInput)
    requires BetweenPolls(m) && !m.checkBtn
    requires !i1.stop && i1.frame.Some? && DetectState(ts, i1.frame.value, ox, oy).state == Some(CookingDone)
    requires !i2.stop && i2.frame.Some? && DetectState(ts, i2.frame.value, ox, oy).state == Some(CookingDone)
    ensures var t := Run(m, ts, ox, oy, [i1, i2]);
      && |t.emitted| == 2
      && t.next.doneCount == m.doneCount + 2
      && t.next.current == None
  {
    var s := Poll(m, ts, ox, oy, i1);
    DoneClicksOnce(m.(frameId := m.frameId + 1), DetectState(ts, i1.frame.value, ox, oy));
    assert s.next.current == None && !s.next.checkBtn && s.outcome == Continue && |s.emitted| == 1;
    var s2 := Poll(s.next, ts, ox, oy, i2);
    DoneClicksOnce(s.next.(frameId := s.next.frameId + 1), DetectState(ts, i2.frame.value, ox, oy));
    assert s2.next.current == None && s2.outcome == Continue && |s2.emitted| == 1;
    assert s2.next.doneCount == m.doneCount + 2;
    assert [i1, i2][0] == i1 && [i1, i2][1..] == [i2];
    assert [i2][0] == i2 && [i2][1..] == [];
    RunUnfold(m, ts, ox, oy, [i1, i2]);
    RunUnfold(s.next, ts, ox, oy, [i2]);
  }

  // ---------------------------------------------------------------- the loop

  /** The bot's loop variables and the log of mouse actions it has issued. */
  class Bot {
    const templates: Templates
    const ox: int
    const oy: int
    var currentState: Option<GameState>
    var shouldCheckBtnColor: bool
    var clickCount: nat
    var doneCount: nat
    var frameId: nat
    var actions: seq<Click>

    function State(): BotState
      reads this
    {
      BotState(currentState, shouldCheckBtnColor, clickCount, doneCount, frameId)
    }

    ghost predicate Valid()
      reads this
    {
      BetweenPolls(State())
    }

    /** Start of the loop: templates loaded, offset from the loaded region, counters at zero. */
    constructor (templates: Templates, region: Option<Region>)
      ensures Valid()
      ensures this.templates == templates && (ox, oy) == Offset(region)
      ensures State() == Initial && actions == []
    {
      this.templates := templates;
      var o := Offset(region);
      ox, oy := o.0, o.1;
      currentState := None;
      shouldCheckBtnColor := false;
      clickCount, doneCount, frameId := 0, 0, 0;
      actions := [];
    }

    /** Issue one mouse action. */
    method ClickAt(x: int, y: int, double: bool)
      modifies this`actions
      ensures actions == old(actions) + [Click(x, y, double)]
    {
      actions := actions + [Click(x, y, double)];
    }

    /** One iteration of the main loop. */
    method Step(input: PollInput) returns (outcome: Outcome)
      requires Valid()
      modifies this
      ensures Valid()
      ensures var s := Poll(old(State()), templates, ox, oy, input);
        && State() == s.next && actions == old(actions) + s.emitted && outcome == s.outcome
    {
      PollKeepsInvariant(State(), templates, ox, oy, input);
      if input.stop {
        return UserStop;
      }
      frameId := frameId + 1;
      if input.frame.None? {
        return CaptureFailure;
      }
      var d := DetectState(templates, input.frame.value, ox, oy);

      var btnState: Option<GameState> := None;
      if shouldCheckBtnColor {
        btnState := ButtonCheck(templates, input.button, input.pixelAt);
      }
      if btnState.Some? && d.state != Some(QuicktimeEvent) {
        d := Detection(btnState, BtnCenterX, BtnCenterY, 1.0);
        shouldCheckBtnColor := false;
      }

      outcome := HandleState(d);
    }

    /** The state handlers, acting on the loop variables and issuing clicks. */
    method HandleState(d: Detection) returns (outcome: Outcome)
      modifies this
      ensures var s := Handle(old(State()), d);
        && State() == s.next && actions == old(actions) + s.emitted && outcome == s.outcome
    {
      outcome := Continue;
      match d.state {
        case Some(QuicktimeEvent) =>
          if currentState != Some(QuicktimeEvent) {
            currentState := Some(QuicktimeEvent);
          }
          ClickAt(d.x, d.y, DoubleClickSpatula);
          clickCount := clickCount + 1;
        case Some(CookingDone) =>
          if currentState != Some(CookingDone) {
            ClickAt(d.x, d.y, true);
            clickCount := clickCount + 1;
            doneCount := doneCount + 1;
            currentState := Some(CookingDone);
            currentState := None;
          }
        case Some(CanCook) =>
          if currentState != Some(CanCook) {
            ClickAt(d.x, d.y, true);
            clickCount := clickCount + 1;
            currentState := Some(CanCook);
            currentState := None;
          }
        case Some(CannotCook) =>
          outcome := OutOfIngredients;
        case Some(WaitingMenu) =>
          if currentState != Some(WaitingMenu) {
            ClickAt(d.x, d.y, true);
            clickCount := clickCount + 1;
            ClickAt(MenuConfirmX, MenuConfirmY, true);
            clickCount := clickCount + 1;
            currentState := Some(WaitingMenu);
            shouldCheckBtnColor := true;
            currentState := None;
          }
        case None =>
          if currentState != None {
            currentState := None;
          }
      }
    }

    /** One pass of the main loop's body, seen from the whole run. */
    method Advance(inputs: seq<PollInput>, i: nat, ghost m0: BotState, ghost acc: seq<Click>, ghost a0: seq<Click>)
      returns (outcome: Outcome, ghost acc': seq<Click>)
      requires i < |inputs| && Valid()
      requires actions == a0 + acc
      requires Run(m0, templates, ox, oy, inputs) == Prepend(acc, Run(State(), templates, ox, oy, inputs[i..]))
      modifies this
      ensures Valid() && actions == a0 + acc'
      ensures outcome == Continue ==>
        Run(m0, templates, ox, oy, inputs) == Prepend(acc', Run(State(), templates, ox, oy, inputs[i + 1..]))
      ensures outcome != Continue ==>
        Run(m0, templates, ox, oy, inputs) == StepResult(State(), acc', outcome)
    {
      ghost var before := actions;
      RunAdvance(m0, templates, ox, oy, inputs, i, acc, State());
      outcome := Step(inputs[i]);
      ghost var e := actions[|before|..];
      assert actions == before + e;
      acc' := acc + e;
    }

    /** The main loop: poll until a poll ends the run or the inputs run out. */
    method RunLoop(inputs: seq<PollInput>) returns (outcome: Outcome)
      requires Valid()
      modifies this
      ensures Valid()
      ensures var t := Run(old(State()), templates, ox, oy, inputs);
        && State() == t.next && actions == old(actions) + t.emitted && outcome == t.outcome
    {
      ghost var m0 := State();
      ghost var a0 := actions;
      ghost var acc: seq<Click> := [];
      var i := 0;
      outcome := Continue;
      while i < |inputs| && outcome == Continue
        invariant 0 <= i <= |inputs|
        invariant Valid()
        invariant actions == a0 + acc
        invariant outcome == Continue ==>
          Run(m0, templates, ox, oy, inputs) == Prepend(acc, Run(State(), templates, ox, oy, inputs[i..]))
        invariant outcome != Continue ==>
          Run(m0, templates, ox, oy, inputs) == StepResult(State(), acc, outcome)
      {
        outcome, acc := Advance(inputs, i, m0, acc, a0);
        i := i + 1;
      }
      if outcome == Continue {
        assert inputs[i..] == [];
      }
    }
  }

  /** `t` with the clicks `e` emitted before it. */
  function Prepend(e: seq<Click>, t: StepResult): StepResult
  {
    StepResult(t.next, e + t.emitted, t.outcome)
  }

  lemma PrependTwice(a: seq<Click>, b: seq<Click>, t: StepResult)
    ensures Prepend(a, Prepend(b, t)) == Prepend(a + b, t)
  {
    assert a + (b + t.emitted) == (a + b) + t.emitted;
  }

  /** One iteration of the main loop, seen from the whole run: after the prefix, the next poll extends it. */
  lemma RunAdvance(m0: BotState, ts: Templates, ox: int, oy: int, inputs: seq<PollInput>, i: nat,
                   acc: seq<Click>, m: BotState)
    requires i < |inputs|
    requires Run(m0, ts, ox, oy, inputs) == Prepend(acc, Run(m, ts, ox, oy, inputs[i..]))
    ensures var s := Poll(m, ts, ox, oy, inputs[i]);
      && (s.outcome == Continue ==>
            Run(m0, ts, ox, oy, inputs) == Prepend(acc + s.emitted, Run(s.next, ts, ox, oy, inputs[i + 1..])))
      && (s.outcome != Continue ==>
            Run(m0, ts, ox, oy, inputs) == StepResult(s.next, acc + s.emitted, s.outcome))
  {
    var rest := inputs[i..];
    assert rest[0] == inputs[i] && rest[1..] == inputs[i + 1..];
    var s := Poll(m, ts, ox, oy, inputs[i]);
    if s.outcome == Continue {
      PrependTwice(acc, s.emitted, Run(s.next, ts, ox, oy, inputs[i + 1..]));
    }
  }

  /** One unfolding of `Run`. */
  lemma RunUnfold(m: BotState, ts: Templates, ox: int, oy: int, inputs: seq<PollInput>)
    requires |inputs| > 0
    ensures var s := Poll(m, ts, ox, oy, inputs[0]);
      Run(m, ts, ox, oy, inputs) ==
        if s.outcome != Continue then s else Prepend(s.emitted, Run(s.next, ts, ox, oy, inputs[1..]))
  {
  }

  /**
   * `run_bot`: refuse to start without the spatula template, otherwise run the
   * loop from zeroed counters with the offset of the loaded region. Returns
   * the outcome, the clicks issued and the two counters reported at the end.
   */
  method RunBot(ts: Templates, regionFile: Option<seq<int>>, inputs: seq<PollInput>)
    returns (outcome: Outcome, clicks: seq<Click>, clickCount: nat, doneCount: nat)
    ensures ts.spatula.None? ==> outcome == MissingSpatula && clicks == [] && clickCount == 0 && doneCount == 0
    ensures ts.spatula.Some? ==>
      var o := Offset(LoadRegion(regionFile));
      var t := Run(Initial, ts, o.0, o.1, inputs);
      && outcome == t.outcome && clicks == t.emitted
      && clickCount == t.next.clickCount && doneCount == t.next.doneCount
    ensures clickCount == |clicks| && doneCount <= clickCount
  {
    if ts.spatula.None? {
      return MissingSpatula, [], 0, 0;
    }
    var region := LoadRegion(regionFile);
    var bot := new Bot(ts, region);
    outcome := bot.RunLoop(inputs);
    RunKeepsInvariant(Initial, ts, bot.ox, bot.oy, inputs);
    clicks, clickCount, doneCount := bot.actions, bot.clickCount, bot.doneCount;
  }
}
