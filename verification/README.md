# EcoBuddy prototype: state store, router and screen handlers

The EcoBuddy prototype is a gamified smart-home dashboard that runs in the
browser. A hash router switches between three screens: the home "prompt"
screen, the device actions screen and the weekly leaderboard. All three read
and write one in-memory state record, which holds level, biome, progress,
XP, a light count, three mock devices and the leaderboard entries.

This project lifts the logic out of the DOM event handlers of `app.js` and
turns it into pure Dafny functions over an immutable `AppState`:

- `AppStore`: the state record, its initial value and the invariant `Valid` that every handler keeps.
- `Router`: how a location fragment is resolved. The `#` is stripped, an empty path becomes `/home`, and a route-table lookup falls back to home. It also decides which navigation buttons are marked active.
- `Progress`: the clamp and round-half-up used by the progress bar.
- `Home`, `Actions`, `Leaderboard`: what each screen's handlers do (Yes, No, theatre toggle, oven toggle, add person) and the signed delta label.
- `Decimal`: decimal text for the numbers shown in labels, with a parser proved to be its inverse.
- `Screens`: what each screen displays, as a view value rather than markup.
- `Session`: every handler as one event type, folded over a sequence of events. It proves invariants that hold over a whole page session.

Progress is a `real`, an exact-arithmetic abstraction of the source's
floating-point number. `Math.round` is modelled as rounding halves upward.
Dialog answers are inputs: the `prompt` result of add-person is an
`Option<string>`, where `None` means the dialog was dismissed.

For an unknown path the code marks the raw path active (`setActiveNav(path)`
after the fallback lookup), not `/home`, so no navigation button is active
(`Router.UnknownPathFallsBackHome`).

## Model

| member | source | states |
|---|---|---|
| AppStore.Initial | app.js:5-21 | the initial record is valid: level, XP and lights non-negative, biome named, progress within [0,1] |
| Progress.Clamp | app.js:58 | the clamped value lies in [0,1]; values inside are kept, values below become 0 and values above become 1 |
| Progress.RoundHalfUp | app.js:60 | the result is the integer within half a unit of the input, with halves rounded up |
| Progress.Percent | app.js:57-61 | the bar width is between 0 and 100 and is the whole number nearest to 100 times the clamped value |
| Progress.PercentSaturates | app.js:58-60 | a value of 0 or less gives 0, a value of 1 or more gives 100, and v in [0,1] gives round(100 v) |
| Progress.PercentMonotonic | app.js:58-60 | a larger progress value never shows a narrower bar |
| Decimal.NatToString | app.js:233 | a number prints as a non-empty digit string with no leading zero, whose digits denote that number |
| Decimal.IntToString | app.js:233 | an integer's text starts with '-' exactly when it is negative, and with a digit otherwise |
| Decimal.PrintParsed | app.js:233 | every canonical digit string is the printed text of the number it denotes |
| Decimal.ParsePrintedNat | app.js:233 | parsing a natural number's printed text gives the number back |
| Decimal.PrintParsedNat | app.js:233 | a text that parses as a natural number is exactly that number's printed text |
| Decimal.ParsePrintedInt | app.js:233 | parsing an integer's printed text gives the integer back |
| Decimal.PrintParsedInt | app.js:233 | a text that parses as an integer is that integer's printed text |
| Router.PathOf | app.js:23-27 | each screen has a path in the route table, and that path looks up the same screen |
| Router.RemoveFirst | app.js:51 | `replace('#','')` leaves a string without '#' unchanged and otherwise removes exactly one character |
| Router.RemoveFirstDeletesFirst | app.js:51 | the character removed is the first '#', and the text on both sides of it is kept |
| Router.PathOfFragment | app.js:51 | the path of a fragment is never empty: "" and "#" give `/home`, and a fragment `#p` with p non-empty gives p |
| Router.Route | app.js:50-55 | the active marker is the stripped path; a path in the table renders its screen and any other path renders home, without failing |
| Router.ActiveButtons | app.js:29-33 | a route path marks only its own screen's button active, and any other path marks none |
| Router.EmptyFragmentIsHome | app.js:51-52 | the fragments "" and "#" render home with `/home` active |
| Router.FragmentPath | app.js:51 | the fragment `#p` routes by `p`, whatever else `p` contains |
| Router.KnownPathSelectsItsScreen | app.js:50-55 | `/home`, `/actions` and `/leaderboard` each render their own screen, with exactly that path's button active |
| Router.UnknownPathFallsBackHome | app.js:51-53 | any other path renders home, but the unknown path is the active marker, so no button is active |
| Router.ActiveButtonMatchesScreen | app.js:50-55 | at most one button is active; one is active exactly when the path is a route, and it names the rendered screen |
| Router.RouteAsWritten | app.js:52 | as written, the lookup renders no screen exactly when the path is a property name inherited from Object.prototype |
| Router.ConstructorFragmentRendersNothing | app.js:52 | the fragment "#constructor" renders no screen in the code as written, while the corrected route renders home |
| Router.AsWrittenAgreesOffInheritedKeys | app.js:52 | the code as written and the corrected lookup agree exactly on the paths that are not inherited property names |
| Home.PressYes | app.js:103-111 | Yes adds exactly 115 XP, sets lights to 0, turns the theatre lights off and sets progress to min(1, progress + 0.08); level, biome, oven, thermostat and leaderboard are unchanged; the label is "+" then the reward then " XP" |
| Home.PressNo | app.js:113-115 | No changes no state field and sets the label to "No change" |
| Home.YesFeedbackText | app.js:108 | the feedback label after Yes reads "+115 XP" |
| Home.PressYesPreservesValid | app.js:103-111 | from a valid state, Yes keeps it valid, strictly raises XP, never lowers progress and leaves level, biome and thermostat alone |
| Actions.SwitchLabel | app.js:144 | a switch reads "ON" exactly when on and "OFF" exactly when off |
| Actions.LightsFor | app.js:191 | the actions screen counts 1 light exactly when the theatre switch is on, and 0 otherwise |
| Actions.ToggleTheatre | app.js:189-193 | the theatre switch is negated and the light count becomes 1 if it is now on, else 0; every other field is unchanged |
| Actions.ToggleOven | app.js:195-198 | only `devices.oven` is negated; every other field is unchanged |
| Actions.ToggleTheatreTwice | app.js:189-193 | two theatre toggles restore the switch and leave the light count derived from it; a state whose count already agrees comes back unchanged |
| Actions.ToggleOvenInvolution | app.js:195-198 | toggling the oven twice gives back the original state |
| Actions.TogglesPreserveValid | app.js:189-198 | both toggles keep a valid state valid and leave XP, level, biome and thermostat alone |
| Leaderboard.AddPerson | app.js:252-257 | a dismissed or empty name leaves the state unchanged; otherwise the old entries are an unchanged prefix and one entry (name, 0) is added at the end; only the leaderboard changes |
| Leaderboard.ToneOf | app.js:232 | a delta is shown in the accent colour exactly when it is not negative |
| Leaderboard.DeltaLabel | app.js:233 | a delta label starts with '+' exactly when delta >= 0 and with '-' exactly when it is negative, and ends in " XP" |
| Leaderboard.DeltaLabelRoundTrip | app.js:233 | reading a delta label back gives the delta it was printed from |
| Leaderboard.ParsedLabelIsPrinted | app.js:233 | a text that reads as a delta is that delta's label, so no two deltas share a label |
| Leaderboard.AddPersonPreservesValid | app.js:252-257 | adding a person keeps the state valid and leaves the fixed fields alone; the old leaderboard stays a prefix, and anyone added has a name and delta 0 |
| AppStore.AppendedTransitive | app.js:255 | appending named zero-delta entries twice is itself such an append, so the old entries stay a prefix |
| Screens.HeaderOf | app.js:84-97 | the level row shows level and biome, with a bar width in [0,100] equal to round(100 progress) for progress in [0,1] |
| Screens.RowsOf | app.js:226-236 | one row per entry, in order, with the entry's name; each label reads back as the entry's delta, and the accent colour appears exactly for non-negative deltas |
| Screens.SwitchOf | app.js:144-145 | a switch's text is "ON" or "OFF" according to its on flag |
| Screens.Render | app.js:64-249 | each screen shows the header and its own body: the light count on home; both switches with their ON/OFF text and the thermostat on actions; exactly the rows of the leaderboard, in order |
| Session.Show | app.js:50-55 | the display's active path is the fragment's path, and the view is the screen the route selects, rendered from the current state |
| Session.Apply | app.js:103-257 | every handler never lowers XP, never writes level, biome or thermostat, and only appends named zero-delta entries to the leaderboard; No and navigation change nothing |
| Session.ApplyPreservesValid | app.js:103-257 | every handler keeps a valid state valid |
| Session.RunPreservesValid | app.js:103-257 | over any session, the state stays valid, XP is non-decreasing and the fixed fields never change; the leaderboard only grows at its end, by named entries with delta 0 |
| Session.RepeatedYes | app.js:103-111 | n Yes presses add n times 115 XP and set progress to min(1, progress + 0.08 n); after at least one press, no lights are on |
| Session.NavigationIsReadOnly | app.js:50-55 | routing writes no state, and routing the same fragment again shows the same display |
| Session.InitialLoad | app.js:45-55 | the first load with no fragment shows home with `/home` active, 3 lights on and the bar at 35% |
| Session.YesFromInitial | app.js:103-111 | Yes from the initial state gives 115 XP, no lights, the theatre lights off, progress 0.43 and the label "+115 XP" |
| Session.AddSamFromInitial | app.js:252-257 | adding "Sam" to the initial leaderboard appends ("Sam", 0), shown as "+0 XP" in the accent colour |

## Left out

- Markup and DOM work (`innerHTML` templates, `querySelector`, `classList`, `hexIcon`, CSS) is presentation only. `Screens.Render` keeps only the values the markup shows.
- The `alert` stubs (app.js:200-201, app.js:258) change no state, so they are not modelled.
- The inert settings button (app.js:117-120) has no handler.
- Navigation plumbing is not modelled: the `hashchange` listener, the `DOMContentLoaded` seeding of `/home`, and the click handler that re-routes the same path (app.js:36-48). Only the routing function is modelled. `Session.InitialLoad` starts from the empty fragment and does not model the seeding step.
- The navigation buttons are declared in index.html, which is not part of this model. `Router.NavRoutes` takes them to be one button per route, in route order.
- `setProgress` does nothing when the bar element is missing (app.js:59-60). There is no DOM here, so the bar always exists in this model.
- Home.PressYes: progress is an exact real, so floating-point rounding of `progress + 0.08` is not modelled. From the initial 0.35, the double result first differs at the fourth press (0.6699999999999999 against 0.67). The bar widths along that run still agree with the exact model, from 35 up to 100. Likewise, the exact increment `xp == s.xp + 115` holds for doubles only while the sum stays within 2^53; from there the sum is rounded (2^53 + 115 gives 2^53 + 116, and at 2^55 a press adds 112).
- Home.PressYesPreservesValid: level, xp, lightsOn, the thermostat and the deltas are JavaScript doubles but are modelled as unbounded integers. "Strictly raises XP" therefore holds in the source only while xp stays below about 2^60; above that, `xp += 115` no longer changes xp.
- Session.RepeatedYes: the exact total `s.xp + n * 115` holds for doubles only while it stays within 2^53, because from there each press's sum is rounded (see Home.PressYes).
- Decimal.NatToString: gives exactly the text JavaScript prints only for integers of magnitude up to 2^53. Larger values print as rounded digits padded with zeros (`${2**64}` is "18446744073709552000"), and from 1e21 on in exponent notation; neither is modelled.
- Progress.Percent: exact reals have no NaN. A NaN progress value, which would give the width "NaN%", is not modelled.
- Session.Apply lets every handler fire in any state. It does not track which screen is shown, although in the page a handler can only fire on its own screen.
- Leaderboard names are put into the markup without escaping. That is a markup concern and is not modelled.
- app.js ends with an unmatched closing brace at line 271, so the script as shipped fails to parse and none of it runs. The model describes the file with that brace removed.

## Findings

| source | as written | input that shows it | evidently intended | confidence | as-written member | corrected member |
|---|---|---|---|---|---|---|
| app.js:52 | `routes[path] \|\| renderHome` looks the path up on a plain object literal, so property names inherited from Object.prototype are found as well | the fragment `#constructor`: `routes['constructor']` is the `Object` function, which is truthy, so the fallback is skipped and calling it draws no screen (for `#__proto__`, the call throws a TypeError) | any path that is not one of the three routes renders the home screen | high, not executed | Router.RouteAsWritten | Router.Route |

The rest of the model (`Session.Show`) uses the corrected `Router.Route`.
`Router.ConstructorFragmentRendersNothing` exhibits the discrepancy.
`Router.AsWrittenAgreesOffInheritedKeys` proves that the two versions differ
only on inherited property names.
