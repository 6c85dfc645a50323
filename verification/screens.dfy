/** What each screen shows of the state (app.js:64-97, 124-183, 207-249), as a
    view value instead of markup. Rendering only reads the state. */
module Screens {

  import opened Wrappers
  import opened AppStore
  import Router
  import Progress
  import Actions
  import Leaderboard

  /** The level row every screen carries, with the progress-bar width in percent. */
  datatype Header = Header(level: int, biome: string, barWidth: int)

  datatype Switch = Switch(text: string, on: bool)

  datatype Row = Row(name: string, text: string, tone: Leaderboard.Tone)

  datatype Body =
    | Prompt(lightsOn: int)
    | DeviceList(theatre: Switch, thermostat: Thermostat, oven: Switch)
    | Board(rows: seq<Row>)

  datatype View = View(header: Header, body: Body)

  function HeaderOf(s: AppState): (h: Header)
    ensures 0 <= h.barWidth <= 100
    ensures h.level == s.level && h.biome == s.biome
    ensures 0.0 <= s.progress <= 1.0 ==> h.barWidth == Progress.RoundHalfUp(100.0 * s.progress)
  {
    Progress.PercentSaturates(s.progress);
    Header(s.level, s.biome, Progress.Percent(s.progress))
  }

  function SwitchOf(on: bool): (w: Switch)
    ensures w.on == on
    ensures w.text == Actions.SwitchLabel(on)
  {
    Switch(Actions.SwitchLabel(on), on)
  }

  /** One row per entry, in order; each label reads back as its entry's delta. */
  function RowsOf(entries: seq<Entry>): (rows: seq<Row>)
    ensures |rows| == |entries|
    ensures forall i :: 0 <= i < |rows| ==>
      && rows[i].name == entries[i].name
      && Leaderboard.ParseDeltaLabel(rows[i].text) == Some(entries[i].delta)
      && (rows[i].tone == Leaderboard.Accent <==> entries[i].delta >= 0)
  {
    if |entries| == 0 then []
    else
      var e := entries[0];
      Leaderboard.DeltaLabelRoundTrip(e.delta);
      [Row(e.name, Leaderboard.DeltaLabel(e.delta), Leaderboard.ToneOf(e.delta))] + RowsOf(entries[1..])
  }

  /** The view a screen renders for a state. */
  function Render(s: AppState, screen: Router.Screen): (v: View)
    ensures v.header == HeaderOf(s)
    ensures screen == Router.Home <==> v.body.Prompt?
    ensures screen == Router.Actions <==> v.body.DeviceList?
    ensures screen == Router.Leaderboard <==> v.body.Board?
    ensures v.body.Prompt? ==> v.body.lightsOn == s.lightsOn
    ensures v.body.DeviceList? ==>
      && v.body.theatre == SwitchOf(s.devices.theatreLights)
      && v.body.oven == SwitchOf(s.devices.oven)
      && v.body.thermostat == s.devices.thermostat
    ensures v.body.Board? ==> v.body.rows == RowsOf(s.leaderboard)
  {
    var body :=
      match screen
      case Home => Prompt(s.lightsOn)
      case Actions => DeviceList(SwitchOf(s.devices.theatreLights), s.devices.thermostat, SwitchOf(s.devices.oven))
      case Leaderboard => Board(RowsOf(s.leaderboard));
    View(HeaderOf(s), body)
  }

}
