/** The actions ("devices") screen's two switches (app.js:189-198). */
module Actions {

  import opened AppStore

  /** The text beside a switch. */
  function SwitchLabel(on: bool): (t: string)
    ensures t == "ON" <==> on
    ensures t == "OFF" <==> !on
  {
    if on then "ON" else "OFF"
  }

  /** The light count this screen derives from the theatre switch alone. */
  function LightsFor(theatreOn: bool): (n: int)
    ensures n == 1 <==> theatreOn
    ensures n == 0 <==> !theatreOn
  {
    if theatreOn then 1 else 0
  }

  /** The theatre switch flips, and the light count is recomputed from it alone,
      overwriting whatever count the home screen left. Nothing else changes. */
  function ToggleTheatre(s: AppState): (r: AppState)
    ensures r.devices.theatreLights == !s.devices.theatreLights
    ensures r.lightsOn == LightsFor(r.devices.theatreLights)
    ensures r.(lightsOn := s.lightsOn, devices := s.devices) == s
    ensures r.devices.(theatreLights := s.devices.theatreLights) == s.devices
  {
    var on := !s.devices.theatreLights;
    s.(devices := s.devices.(theatreLights := on), lightsOn := LightsFor(on))
  }

  /** The oven switch flips; nothing else changes. */
  function ToggleOven(s: AppState): (r: AppState)
    ensures r.devices.oven == !s.devices.oven
    ensures r.(devices := s.devices) == s
    ensures r.devices.(oven := s.devices.oven) == s.devices
  {
    s.(devices := s.devices.(oven := !s.devices.oven))
  }

  /** Two theatre toggles restore the switch; the light count ends up derived
      from it, so a state whose count already agrees with the switch comes back
      unchanged. */
  lemma ToggleTheatreTwice(s: AppState)
    ensures ToggleTheatre(ToggleTheatre(s)) == s.(lightsOn := LightsFor(s.devices.theatreLights))
    ensures s.lightsOn == LightsFor(s.devices.theatreLights) ==> ToggleTheatre(ToggleTheatre(s)) == s
  {
  }

  /** The oven toggle is an involution. */
  lemma ToggleOvenInvolution(s: AppState)
    ensures ToggleOven(ToggleOven(s)) == s
  {
  }

  /** Both toggles keep the state valid and leave XP, progress and the fixed
      fields alone. */
  lemma TogglesPreserveValid(s: AppState)
    requires Valid(s)
    ensures Valid(ToggleTheatre(s)) && Valid(ToggleOven(s))
    ensures ToggleTheatre(s).xp == s.xp && ToggleOven(s).xp == s.xp
    ensures SameFixedFields(s, ToggleTheatre(s)) && SameFixedFields(s, ToggleOven(s))
  {
  }

}
