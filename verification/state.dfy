/** The single in-memory record the prototype keeps for a page session
    (app.js:5-21), as an immutable value. Every handler of the three screens
    becomes a pure function from one AppState to the next. */
module AppStore {

  /** The thermostat row shows a change of set point, `from` -> `to`, in degrees. */
  datatype Thermostat = Thermostat(from: int, to: int)

  /** Mock smart-home devices; nothing here is connected to hardware. */
  datatype Devices = Devices(theatreLights: bool, oven: bool, thermostat: Thermostat)

  /** One row of the weekly leaderboard: a name and a signed XP delta. */
  datatype Entry = Entry(name: string, delta: int)

  /** `progress` is the fraction of the level completed, an exact real in place of
      the source's floating-point number. */
  datatype AppState = AppState(
    level: int,
    biome: string,
    progress: real,
    xp: int,
    lightsOn: int,
    devices: Devices,
    leaderboard: seq<Entry>
  )

  /** The hard-coded values every page load starts from. */
  function Initial(): (s: AppState)
    ensures Valid(s)
  {
    AppState(
      level := 2,
      biome := "Bushes",
      progress := 0.35,
      xp := 0,
      lightsOn := 3,
      devices := Devices(theatreLights := true, oven := true, thermostat := Thermostat(30, 26)),
      leaderboard := [Entry("You", 50), Entry("Dad", 10), Entry("Josh", -150)]
    )
  }

  /** What the prototype keeps true of its state: a non-negative level, XP and
      light count, a named biome and a progress fraction within [0, 1]. */
  predicate Valid(s: AppState) {
    && s.level >= 0
    && |s.biome| > 0
    && 0.0 <= s.progress <= 1.0
    && s.xp >= 0
    && s.lightsOn >= 0
  }

  /** The fields no handler ever writes: level, biome and thermostat. */
  predicate SameFixedFields(s: AppState, t: AppState) {
    && t.level == s.level
    && t.biome == s.biome
    && t.devices.thermostat == s.devices.thermostat
  }

  /** `after` keeps `before` as a prefix, and every entry past it is a newly
      added person: a non-empty name with a zero delta. */
  predicate Appended(before: seq<Entry>, after: seq<Entry>) {
    && before <= after
    && forall i :: |before| <= i < |after| ==> after[i].delta == 0 && after[i].name != ""
  }

  /** Two rounds of appending are one round of appending. */
  lemma AppendedTransitive(a: seq<Entry>, b: seq<Entry>, c: seq<Entry>)
    requires Appended(a, b) && Appended(b, c)
    ensures Appended(a, c)
  {
    forall i | |a| <= i < |c|
      ensures c[i].delta == 0 && c[i].name != ""
    {
      if i < |b| {
        assert c[i] == b[i];
      }
    }
  }

}
