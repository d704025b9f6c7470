/**
 * The priority classifier (`detect_state`): five cues are tried in the fixed
 * order spatula, done, cannot-cook, can-cook, menu, and the first one whose
 * template matches decides the state. A cue whose template failed to load is
 * skipped. Positions are shifted by the capture region's top-left corner.
 */
module Detection {

  import opened Wrappers
  import opened Matching

  datatype GameState = WaitingMenu | CanCook | CannotCook | QuicktimeEvent | CookingDone

  /** The five loaded templates, in the order of the source's templates tuple; None when missing. */
  datatype Templates = Templates(
    menu: Option<Template>, spatula: Option<Template>, done: Option<Template>,
    cancook: Option<Template>, cannotcook: Option<Template>)

  /** One captured frame, given by the correlation peaks of each cue's template against it. */
  datatype Frame = Frame(menu: Peaks, spatula: Peaks, done: Peaks, cancook: Peaks, cannotcook: Peaks)

  /** The classifier's answer: the state (None when nothing matched), its screen position and score. */
  datatype Detection = Detection(state: Option<GameState>, x: int, y: int, score: real)

  /** The answer when no cue matches: `(None, 0, 0, 0)`. */
  const NoDetection := Detection(None, 0, 0, 0.0)

  /** The cue order, highest priority first. */
  const Priority: seq<GameState> := [QuicktimeEvent, CookingDone, CannotCook, CanCook, WaitingMenu]

  /** Position of a state in the priority order (0 is the highest). */
  function Rank(s: GameState): (r: nat)
    ensures r < |Priority| && Priority[r] == s
  {
    match s
    case QuicktimeEvent => 0
    case CookingDone => 1
    case CannotCook => 2
    case CanCook => 3
    case WaitingMenu => 4
  }

  /** The template of the cue that signals state `s`. */
  function TemplateFor(ts: Templates, s: GameState): Option<Template>
  {
    match s
    case WaitingMenu => ts.menu
    case CanCook => ts.cancook
    case CannotCook => ts.cannotcook
    case QuicktimeEvent => ts.spatula
    case CookingDone => ts.done
  }

  /** The peaks of the cue that signals state `s` in frame `f`. */
  function PeaksFor(f: Frame, s: GameState): Peaks
  {
    match s
    case WaitingMenu => f.menu
    case CanCook => f.cancook
    case CannotCook => f.cannotcook
    case QuicktimeEvent => f.spatula
    case CookingDone => f.done
  }

  /** Matching one loaded template at the default thresholds; a missing template never matches. */
  function MatchWith(tpl: Option<Template>, p: Peaks): Option<Match>
  {
    if tpl.Some? then MatchTemplate(tpl.value, p, MatchConfidence, EdgeConfidence) else None
  }

  /** Whether the cue for state `s` matches frame `f`. */
  function CueMatch(ts: Templates, f: Frame, s: GameState): Option<Match>
  {
    MatchWith(TemplateFor(ts, s), PeaksFor(f, s))
  }

  /** A detection of `s` from match `m`, shifted by the capture offset. */
  function Found(s: GameState, m: Match, ox: int, oy: int): Detection
  {
    Detection(Some(s), m.cx + ox, m.cy + oy, m.score)
  }

  /** `detect_state`, written as the source's chain of checks. */
  function DetectState(ts: Templates, f: Frame, ox: int, oy: int): Detection
  {
    var spatula := MatchWith(ts.spatula, f.spatula);
    if spatula.Some? then Found(QuicktimeEvent, spatula.value, ox, oy) else
    var done := MatchWith(ts.done, f.done);
    if done.Some? then Found(CookingDone, done.value, ox, oy) else
    var cannot := MatchWith(ts.cannotcook, f.cannotcook);
    if cannot.Some? then Found(CannotCook, cannot.value, ox, oy) else
    var can := MatchWith(ts.cancook, f.cancook);
    if can.Some? then Found(CanCook, can.value, ox, oy) else
    var menu := MatchWith(ts.menu, f.menu);
    if menu.Some? then Found(WaitingMenu, menu.value, ox, oy) else
    NoDetection
  }

  /** Reference definition: the first state of `order` whose cue matches. */
  function FirstMatch(ts: Templates, f: Frame, order: seq<GameState>, ox: int, oy: int): Detection
    decreases |order|
  {
    if |order| == 0 then NoDetection
    else
      var m := CueMatch(ts, f, order[0]);
      if m.Some? then Found(order[0], m.value, ox, oy) else FirstMatch(ts, f, order[1..], ox, oy)
  }

  /** What `FirstMatch` promises over any order: the first matching state, or nothing. */
  lemma {:induction false} FirstMatchIsFirst(ts: Templates, f: Frame, order: seq<GameState>, ox: int, oy: int)
    ensures var d := FirstMatch(ts, f, order, ox, oy);
      && (d.state.None? <==> forall k :: 0 <= k < |order| ==> CueMatch(ts, f, order[k]).None?)
      && (d.state.None? ==> d == NoDetection)
      && (d.state.Some? ==>
            exists k :: (0 <= k < |order| && order[k] == d.state.value
              && CueMatch(ts, f, order[k]).Some?
              && d == Found(order[k], CueMatch(ts, f, order[k]).value, ox, oy)
              && forall j :: 0 <= j < k ==> CueMatch(ts, f, order[j]).None?))
    decreases |order|
  {
    if |order| > 0 && CueMatch(ts, f, order[0]).None? {
      FirstMatchIsFirst(ts, f, order[1..], ox, oy);
      var d := FirstMatch(ts, f, order, ox, oy);
      if d.state.Some? {
        var k :| 0 <= k < |order[1..]| && order[1..][k] == d.state.value
            && CueMatch(ts, f, order[1..][k]).Some?
            && d == Found(order[1..][k], CueMatch(ts, f, order[1..][k]).value, ox, oy)
            && forall j :: 0 <= j < k ==> CueMatch(ts, f, order[1..][j]).None?;
        assert order[k + 1] == order[1..][k];
        forall j | 0 <= j < k + 1 ensures CueMatch(ts, f, order[j]).None? {
          if j > 0 { assert order[j] == order[1..][j - 1]; }
        }
      } else {
        forall k | 0 <= k < |order| ensures CueMatch(ts, f, order[k]).None? {
          if k > 0 { assert order[k] == order[1..][k - 1]; }
        }
      }
    }
  }

  /** The chain of checks is the first match over the priority order. */
  lemma DetectStateIsFirstMatch(ts: Templates, f: Frame, ox: int, oy: int)
    ensures DetectState(ts, f, ox, oy) == FirstMatch(ts, f, Priority, ox, oy)
  {
    var p := Priority;
    assert p[1..][1..][1..][1..][1..] == [];
  }

  /**
   * Priority: a detected state's cue matched, every higher-priority cue did not,
   * and the reported position is the match centre plus the offset.
   */
  lemma DetectedStateWinsPriority(ts: Templates, f: Frame, ox: int, oy: int)
    ensures var d := DetectState(ts, f, ox, oy);
      d.state.Some? ==>
        && CueMatch(ts, f, d.state.value).Some?
        && d == Found(d.state.value, CueMatch(ts, f, d.state.value).value, ox, oy)
        && forall s :: Rank(s) < Rank(d.state.value) ==> CueMatch(ts, f, s).None?
  {
    var d := DetectState(ts, f, ox, oy);
    DetectStateIsFirstMatch(ts, f, ox, oy);
    FirstMatchIsFirst(ts, f, Priority, ox, oy);
    if d.state.Some? {
      var k :| 0 <= k < |Priority| && Priority[k] == d.state.value
          && CueMatch(ts, f, Priority[k]).Some?
          && d == Found(Priority[k], CueMatch(ts, f, Priority[k]).value, ox, oy)
          && forall j :: 0 <= j < k ==> CueMatch(ts, f, Priority[j]).None?;
      assert Rank(d.state.value) == k;
      forall s | Rank(s) < Rank(d.state.value) ensures CueMatch(ts, f, s).None? {
        assert Priority[Rank(s)] == s;
      }
    }
  }

  /** Nothing is detected exactly when no cue matches, and the answer is then `(None, 0, 0, 0)`. */
  lemma NothingDetectedIffNoCueMatches(ts: Templates, f: Frame, ox: int, oy: int)
    ensures var d := DetectState(ts, f, ox, oy);
      && (d.state.None? <==> forall s :: CueMatch(ts, f, s).None?)
      && (d.state.None? ==> d == NoDetection)
  {
    var d := DetectState(ts, f, ox, oy);
    DetectStateIsFirstMatch(ts, f, ox, oy);
    FirstMatchIsFirst(ts, f, Priority, ox, oy);
    if d.state.None? {
      forall s ensures CueMatch(ts, f, s).None? {
        assert Priority[Rank(s)] == s;
      }
    }
  }

  /** A higher-priority match always pre-empts a lower one, and a missing template never yields its state. */
  lemma NeverLowerPriorityOrMissing(ts: Templates, f: Frame, ox: int, oy: int, hi: GameState, s: GameState)
    ensures CueMatch(ts, f, hi).Some? && Rank(hi) < Rank(s) ==> DetectState(ts, f, ox, oy).state != Some(s)
    ensures TemplateFor(ts, s).None? ==> DetectState(ts, f, ox, oy).state != Some(s)
  {
    DetectedStateWinsPriority(ts, f, ox, oy);
  }
}
