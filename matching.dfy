/**
 * Dual-mode template match selection (`match_template` in cooking_bot.py and
 * LogHerehere.py).
 *
 * The correlations themselves (grayscale correlation, blur + edge map and its
 * correlation, the global-maximum search) are floating-point image processing
 * and are inputs here: each mode contributes the maximum of its correlation map
 * and the top-left location of that maximum.
 */
module Matching {

  import opened Wrappers

  /** Threshold for the raw grayscale correlation. */
  const MatchConfidence: real := 0.70
  /** Threshold for the edge-map correlation. */
  const EdgeConfidence: real := 0.35

  datatype Mode = Raw | Edge

  /** The global maximum of one correlation map and the top-left corner where it occurs. */
  datatype Peak = Peak(maxVal: real, x: int, y: int)

  /** What the raw and the edge correlation of one template against one frame produced. */
  datatype Peaks = Peaks(raw: Peak, edge: Peak)

  /** A loaded template, reduced to the size of its grayscale image. */
  datatype Template = Template(w: nat, h: nat)

  /** A successful match: centre of the matched area, score of the winning mode, and that mode. */
  datatype Match = Match(cx: int, cy: int, score: real, mode: Mode)

  /** The threshold that gates mode `m`. */
  function Threshold(m: Mode, rawThr: real, edgeThr: real): real
  {
    if m == Raw then rawThr else edgeThr
  }

  /** The peak that mode `m` produced. */
  function PeakOf(p: Peaks, m: Mode): Peak
  {
    if m == Raw then p.raw else p.edge
  }

  /** Whether mode `m` passes its own threshold. */
  predicate Passes(p: Peaks, m: Mode, rawThr: real, edgeThr: real)
  {
    PeakOf(p, m).maxVal >= Threshold(m, rawThr, edgeThr)
  }

  /**
   * The winning mode: raw is recorded when it passes; edge then replaces it
   * only when edge passes and either raw did not or edge is strictly better.
   */
  function Select(p: Peaks, rawThr: real, edgeThr: real): Option<Mode>
  {
    var best := if p.raw.maxVal >= rawThr then Some(Raw) else None;
    if p.edge.maxVal >= edgeThr && (best.None? || p.edge.maxVal > p.raw.maxVal) then Some(Edge)
    else best
  }

  /**
   * `match_template`: the match of template `t` given both correlation peaks,
   * or None when neither mode reaches its threshold. The centre is the winning
   * top-left corner plus half the template's width and height, rounded down.
   */
  function MatchTemplate(t: Template, p: Peaks, rawThr: real, edgeThr: real): (r: Option<Match>)
    ensures r.None? <==> p.raw.maxVal < rawThr && p.edge.maxVal < edgeThr
    ensures r.Some? ==>
      var win := PeakOf(p, r.value.mode);
      && Passes(p, r.value.mode, rawThr, edgeThr)
      && r.value.score == win.maxVal
      && r.value.cx == win.x + t.w / 2
      && r.value.cy == win.y + t.h / 2
  {
    match Select(p, rawThr, edgeThr)
    case None => None
    case Some(m) =>
      var win := PeakOf(p, m);
      Some(Match(win.x + t.w / 2, win.y + t.h / 2, win.maxVal, m))
  }

  /**
   * The returned score is the best of the passing maxima; when both pass, edge
   * wins only with a strictly greater maximum, so ties go to raw.
   */
  lemma BestPassingModeWins(t: Template, p: Peaks, rawThr: real, edgeThr: real)
    requires MatchTemplate(t, p, rawThr, edgeThr).Some?
    ensures var m := MatchTemplate(t, p, rawThr, edgeThr).value;
      && (Passes(p, Raw, rawThr, edgeThr) ==> m.score >= p.raw.maxVal)
      && (Passes(p, Edge, rawThr, edgeThr) ==> m.score >= p.edge.maxVal)
      && m.score >= Threshold(m.mode, rawThr, edgeThr)
      && (m.mode == Edge && Passes(p, Raw, rawThr, edgeThr) ==> p.edge.maxVal > p.raw.maxVal)
      && (Passes(p, Raw, rawThr, edgeThr) && Passes(p, Edge, rawThr, edgeThr) && p.edge.maxVal == p.raw.maxVal
          ==> m.mode == Raw)
  {
  }

  /** Only one mode passing: that mode is the one used. */
  lemma SinglePassingModeIsUsed(t: Template, p: Peaks, rawThr: real, edgeThr: real)
    ensures Passes(p, Raw, rawThr, edgeThr) && !Passes(p, Edge, rawThr, edgeThr)
      ==> MatchTemplate(t, p, rawThr, edgeThr) == Some(Match(p.raw.x + t.w / 2, p.raw.y + t.h / 2, p.raw.maxVal, Raw))
    ensures !Passes(p, Raw, rawThr, edgeThr) && Passes(p, Edge, rawThr, edgeThr)
      ==> MatchTemplate(t, p, rawThr, edgeThr) == Some(Match(p.edge.x + t.w / 2, p.edge.y + t.h / 2, p.edge.maxVal, Edge))
  {
  }

  /**
   * The centre lies inside the template-sized box at the winning corner: floor
   * division never pushes it past the template's far edge.
   */
  lemma CentreInsideMatchedBox(t: Template, p: Peaks, rawThr: real, edgeThr: real)
    requires MatchTemplate(t, p, rawThr, edgeThr).Some?
    ensures var m := MatchTemplate(t, p, rawThr, edgeThr).value;
      var win := PeakOf(p, m.mode);
      && win.x <= m.cx <= win.x + t.w
      && win.y <= m.cy <= win.y + t.h
      && (t.w > 0 ==> m.cx < win.x + t.w)
      && (t.h > 0 ==> m.cy < win.y + t.h)
  {
  }
}
