/** A page session: the handlers of all three screens as one event type, folded
    over the state from the initial record. Navigation and the informational
    dialogs render or acknowledge without writing the state. */
module Session {

  import opened Wrappers
  import opened AppStore
  import Router
  import Screens
  import Home
  import Actions
  import Leaderboard
  import Progress

  datatype Event =
    | Yes                               // home screen, app.js:103-111
    | No                                // home screen, app.js:113-115
    | ToggleTheatre                     // actions screen, app.js:189-193
    | ToggleOven                        // actions screen, app.js:195-198
    | AddPerson(answer: Option<string>) // leaderboard screen, app.js:252-257
    | Navigate(hash: string)            // route(), app.js:50-55

  /** One handler's effect. Whatever the event, XP never falls, the fixed fields
      are never written and the leaderboard is only appended to; "No" and
      navigation leave the state as it was. */
  function Apply(s: AppState, e: Event): (r: AppState)
    ensures r.xp >= s.xp
    ensures SameFixedFields(s, r)
    ensures Appended(s.leaderboard, r.leaderboard)
    ensures e.No? || e.Navigate? ==> r == s
  {
    match e
    case Yes => Home.PressYes(s).state
    case No => Home.PressNo(s).state
    case ToggleTheatre => Actions.ToggleTheatre(s)
    case ToggleOven => Actions.ToggleOven(s)
    case AddPerson(answer) => Leaderboard.AddPerson(s, answer)
    case Navigate(_) => s
  }

  /** The state after the events, in order. */
  function Run(s: AppState, events: seq<Event>): AppState
    decreases |events|
  {
    if |events| == 0 then s else Run(Apply(s, events[0]), events[1..])
  }

  /** What the page displays for a fragment: the active navigation path and the
      rendered screen. */
  datatype Display = Display(active: string, view: Screens.View)

  function Show(s: AppState, hash: string): (d: Display)
    ensures d.active == Router.PathOfFragment(hash)
    ensures d.view.header == Screens.HeaderOf(s)
    ensures d.view == Screens.Render(s, Router.Route(hash).screen)
  {
    var r := Router.Route(hash);
    Display(r.active, Screens.Render(s, r.screen))
  }

  /** A single event keeps the state valid. */
  lemma ApplyPreservesValid(s: AppState, e: Event)
    requires Valid(s)
    ensures Valid(Apply(s, e))
  {
    match e
    case Yes => Home.PressYesPreservesValid(s);
    case No =>
    case ToggleTheatre => Actions.TogglesPreserveValid(s);
    case ToggleOven => Actions.TogglesPreserveValid(s);
    case AddPerson(answer) => Leaderboard.AddPersonPreservesValid(s, answer);
    case Navigate(_) =>
  }

  /** Over a whole session: the state stays valid, XP is monotonically
      non-decreasing, level, biome and thermostat never change, and the
      leaderboard only grows at its end, by named entries with a zero delta. */
  lemma {:induction false} RunPreservesValid(s: AppState, events: seq<Event>)
    requires Valid(s)
    ensures Valid(Run(s, events))
    ensures Run(s, events).xp >= s.xp
    ensures SameFixedFields(s, Run(s, events))
    ensures Appended(s.leaderboard, Run(s, events).leaderboard)
    decreases |events|
  {
    if |events| > 0 {
      var t := Apply(s, events[0]);
      ApplyPreservesValid(s, events[0]);
      RunPreservesValid(t, events[1..]);
      AppendedTransitive(s.leaderboard, t.leaderboard, Run(t, events[1..]).leaderboard);
    }
  }

  /** `n` events of one kind in a row. */
  function Repeat(e: Event, n: nat): (es: seq<Event>)
    ensures |es| == n
    ensures forall i :: 0 <= i < n ==> es[i] == e
  {
    if n == 0 then [] else [e] + Repeat(e, n - 1)
  }

  /** Accepting the prompt `n` times adds `n` rewards and advances progress by
      `n` steps, capped at a full level. */
  lemma {:induction false} RepeatedYes(s: AppState, n: nat)
    requires s.progress <= 1.0
    ensures Run(s, Repeat(Yes, n)).xp == s.xp + n * Home.Reward
    ensures Run(s, Repeat(Yes, n)).progress == Home.Min(1.0, s.progress + n as real * Home.ProgressStep)
    ensures n > 0 ==> Run(s, Repeat(Yes, n)).lightsOn == 0
    decreases n
  {
    if n > 0 {
      var t := Apply(s, Yes);
      RepeatedYes(t, n - 1);
      assert Repeat(Yes, n)[1..] == Repeat(Yes, n - 1);
      var rest := (n - 1) as real * Home.ProgressStep;
      assert rest >= 0.0;
      assert n as real * Home.ProgressStep == Home.ProgressStep + rest;
      assert t.progress == Home.Min(1.0, s.progress + Home.ProgressStep);
      assert Run(s, Repeat(Yes, n)) == Run(t, Repeat(Yes, n - 1));
      var p := Run(t, Repeat(Yes, n - 1)).progress;
      assert p == Home.Min(1.0, t.progress + rest);
    }
  }

  /** Rendering never writes the state: a navigation leaves it as it was, and
      routing the same fragment again shows the same display. */
  lemma NavigationIsReadOnly(s: AppState, hash: string)
    ensures Run(s, [Navigate(hash), Navigate(hash)]) == s
    ensures Show(Run(s, [Navigate(hash)]), hash) == Show(s, hash)
  {
    var once := [Navigate(hash)];
    assert once[1..] == [];
    assert Run(s, once) == Run(s, []) == s;
    assert [Navigate(hash), Navigate(hash)][1..] == once;
  }

  /** A first load without a fragment shows the home screen with the home button
      active, three lights on and the bar at 35%. */
  lemma InitialLoad()
    ensures Show(Initial(), "") == Display("/home", Screens.View(Screens.Header(2, "Bushes", 35), Screens.Prompt(3)))
  {
    Progress.RoundHalfUpUnique(35.0, 35);
  }

  /** From the initial state, "Yes" gives 115 XP, no lights, the theatre lights
      off, 43% progress and the label "+115 XP". */
  lemma YesFromInitial()
    ensures Apply(Initial(), Yes).xp == 115
    ensures Apply(Initial(), Yes).lightsOn == 0
    ensures !Apply(Initial(), Yes).devices.theatreLights
    ensures Apply(Initial(), Yes).progress == 0.43
    ensures Home.PressYes(Initial()).feedback == "+115 XP"
  {
    Home.YesFeedbackText(Initial());
  }

  /** Adding "Sam" to the initial leaderboard appends ("Sam", 0), shown as "+0 XP"
      in the accent colour. */
  lemma AddSamFromInitial()
    ensures Apply(Initial(), AddPerson(Some("Sam"))).leaderboard ==
      [Entry("You", 50), Entry("Dad", 10), Entry("Josh", -150), Entry("Sam", 0)]
    ensures Leaderboard.DeltaLabel(0) == "+0 XP"
    ensures Leaderboard.ToneOf(0) == Leaderboard.Accent
  {
  }

}
