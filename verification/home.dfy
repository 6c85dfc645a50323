/** The home ("prompt") screen's two answers (app.js:103-115). */
module Home {

  import opened Wrappers
  import opened AppStore
  import Decimal

  /** The XP granted for accepting the prompt. */
  const Reward: nat := 115

  /** The fraction of the level one accepted prompt completes. */
  const ProgressStep: real := 0.08

  function Min(a: real, b: real): (m: real)
    ensures m <= a && m <= b
    ensures m == a || m == b
  {
    if a <= b then a else b
  }

  /** A handler's effect: the next state and the text of the XP feedback label. */
  datatype Response = Response(state: AppState, feedback: string)

  /** "Yes": the reward is added, the lights are counted off, the theatre lights
      are switched off and progress advances by one step, capped at a full level. */
  function PressYes(s: AppState): (r: Response)
    ensures r.state.xp == s.xp + Reward
    ensures r.state.lightsOn == 0
    ensures !r.state.devices.theatreLights
    ensures r.state.progress == Min(1.0, s.progress + ProgressStep)
    ensures r.state.level == s.level && r.state.biome == s.biome
    ensures r.state.devices.oven == s.devices.oven
    ensures r.state.devices.thermostat == s.devices.thermostat
    ensures r.state.leaderboard == s.leaderboard
    ensures |r.feedback| > 4 && r.feedback[0] == '+' && r.feedback[|r.feedback| - 3..] == " XP"
    ensures Decimal.ParseNat(r.feedback[1..|r.feedback| - 3]) == Some(Reward)
  {
    var next := s.(
      xp := s.xp + Reward,
      lightsOn := 0,
      devices := s.devices.(theatreLights := false),
      progress := Min(1.0, s.progress + ProgressStep));
    var text := "+" + Decimal.NatToString(Reward) + " XP";
    Decimal.ParsePrintedNat(Reward);
    assert text[1..|text| - 3] == Decimal.NatToString(Reward);
    Response(next, text)
  }

  /** "No": only the label changes. */
  function PressNo(s: AppState): (r: Response)
    ensures r.state == s
    ensures r.feedback == "No change"
  {
    Response(s, "No change")
  }

  /** The label reads "+115 XP" after "Yes". */
  lemma YesFeedbackText(s: AppState)
    ensures PressYes(s).feedback == "+115 XP"
  {
    var t := Decimal.NatToString(Reward);
    assert t == Decimal.NatToString(11) + ['5'];
    assert Decimal.NatToString(11) == Decimal.NatToString(1) + ['1'];
  }

  /** "Yes" keeps the state valid: XP strictly grows, progress never falls and
      stays within a full level, and the fixed fields are untouched. */
  lemma PressYesPreservesValid(s: AppState)
    requires Valid(s)
    ensures Valid(PressYes(s).state)
    ensures PressYes(s).state.xp > s.xp
    ensures PressYes(s).state.progress >= s.progress
    ensures SameFixedFields(s, PressYes(s).state)
  {
  }

}
