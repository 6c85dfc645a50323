/** Hash-based routing (app.js:23-27, 29-33, 50-55): the location fragment selects
    one of three screens, and the navigation buttons whose route equals the
    fragment's path are marked active. */
module Router {

  import opened Wrappers

  datatype Screen = Home | Actions | Leaderboard

  /** The path used when the fragment is empty. */
  const DefaultPath: string := "/home"

  /** The route table: exactly three paths, each naming its own screen. */
  const Routes: map<string, Screen> :=
    map["/home" := Home, "/actions" := Actions, "/leaderboard" := Leaderboard]

  /** The `data-route` of each navigation button, in page order. The buttons are
      declared in index.html, which is not part of this model; there is one per route. */
  const NavRoutes: seq<string> := ["/home", "/actions", "/leaderboard"]

  /** The path that names each screen; the inverse of the route table. */
  function PathOf(screen: Screen): (p: string)
    ensures p in Routes && Routes[p] == screen
  {
    match screen
    case Home => "/home"
    case Actions => "/actions"
    case Leaderboard => "/leaderboard"
  }

  /** What routing decides: the screen rendered and the path the navigation bar
      marks active. */
  datatype RouteResult = RouteResult(screen: Screen, active: string)

  /** JavaScript's `s.replace(c, '')` with a one-character string pattern: only the
      first occurrence of `c` is removed. */
  function RemoveFirst(s: string, c: char): (r: string)
    ensures c !in s ==> r == s
    ensures c in s ==> |r| == |s| - 1
  {
    if |s| == 0 then s
    else if s[0] == c then s[1..]
    else [s[0]] + RemoveFirst(s[1..], c)
  }

  /** The path of a fragment: the marker is stripped and an empty result
      defaults to the home path. */
  function PathOfFragment(hash: string): (p: string)
    ensures |p| > 0
    ensures hash == "" || hash == "#" ==> p == DefaultPath
    ensures |hash| > 1 && hash[0] == '#' ==> p == hash[1..]
  {
    var stripped := RemoveFirst(hash, '#');
    if stripped == "" then DefaultPath else stripped
  }

  /** `route()`: an unknown path never fails, it renders the home screen; the
      active marker is the path itself, not the route it resolved to. */
  function Route(hash: string): (r: RouteResult)
    ensures r.active == PathOfFragment(hash)
    ensures r.active in Routes ==> r.screen == Routes[r.active]
    ensures r.active !in Routes ==> r.screen == Home
  {
    var path := PathOfFragment(hash);
    RouteResult(if path in Routes then Routes[path] else Home, path)
  }

  /** The position of each screen's button in the navigation bar. */
  function NavIndex(screen: Screen): (i: int)
    ensures 0 <= i < |NavRoutes| && NavRoutes[i] == PathOf(screen)
  {
    match screen
    case Home => 0
    case Actions => 1
    case Leaderboard => 2
  }

  /** The indices of the navigation buttons `setActiveNav(path)` marks active. */
  function ActiveButtons(path: string): (ix: set<int>)
    ensures path in Routes ==> ix == {NavIndex(Routes[path])}
    ensures path !in Routes ==> ix == {}
  {
    var ix := set i | 0 <= i < |NavRoutes| && NavRoutes[i] == path;
    assert path in Routes ==> NavIndex(Routes[path]) in ix;
    ix
  }

  /** RemoveFirst deletes exactly the first occurrence of the character. */
  lemma {:induction false} RemoveFirstDeletesFirst(s: string, c: char, i: int)
    requires 0 <= i < |s| && s[i] == c && c !in s[..i]
    ensures RemoveFirst(s, c) == s[..i] + s[i + 1..]
  {
    if i > 0 {
      assert s[0] == s[..i][0];
      assert s[1..][..i - 1] == s[..i][1..];
      RemoveFirstDeletesFirst(s[1..], c, i - 1);
      assert s[..i] == [s[0]] + s[1..][..i - 1];
      assert s[i + 1..] == s[1..][i..];
    }
  }

  /** An empty fragment, or the bare marker, shows the home screen with the home
      button active. */
  lemma EmptyFragmentIsHome()
    ensures Route("") == RouteResult(Home, DefaultPath)
    ensures Route("#") == RouteResult(Home, DefaultPath)
  {
  }

  /** A fragment `#p` routes by the path `p` itself, whatever `p` contains. */
  lemma FragmentPath(p: string)
    requires p != ""
    ensures Route("#" + p).active == p
  {
    assert ("#" + p)[0] == '#';
    assert ("#" + p)[1..] == p;
  }

  /** Each of the three known paths selects the screen it names, and exactly that
      path's button is marked active. */
  lemma KnownPathSelectsItsScreen(p: string)
    requires p in Routes
    ensures Route("#" + p) == RouteResult(Routes[p], p)
    ensures PathOf(Route("#" + p).screen) == p
    ensures |ActiveButtons(Route("#" + p).active)| == 1
  {
    FragmentPath(p);
  }

  /** Any other path silently falls back to the home screen, yet that unknown path
      (not "/home") is the active marker, so no navigation button is active. */
  lemma UnknownPathFallsBackHome(p: string)
    requires p != "" && p !in Routes
    ensures Route("#" + p) == RouteResult(Home, p)
    ensures ActiveButtons(Route("#" + p).active) == {}
  {
    FragmentPath(p);
  }

  /** A button is active exactly when the path is one of the three routes; then it
      is the only one, and it names the rendered screen. */
  lemma ActiveButtonMatchesScreen(hash: string)
    ensures |ActiveButtons(Route(hash).active)| <= 1
    ensures ActiveButtons(Route(hash).active) != {} <==> Route(hash).active in Routes
    ensures forall i :: i in ActiveButtons(Route(hash).active) ==> NavRoutes[i] == PathOf(Route(hash).screen)
  {
  }

  // ---------------------------------------------------------------------------
  // The lookup as written. `routes` is a plain object literal, so `routes[path]`
  // also finds the properties every object inherits from Object.prototype. For
  // those paths the value is truthy, the `|| renderHome` fallback is skipped, and
  // calling the inherited value renders no screen (it returns without touching
  // the page, or throws a TypeError).

  /** The property names every object literal inherits from Object.prototype. */
  const InheritedKeys: set<string> := {
    "constructor", "hasOwnProperty", "isPrototypeOf", "propertyIsEnumerable",
    "toLocaleString", "toString", "valueOf", "__proto__",
    "__defineGetter__", "__defineSetter__", "__lookupGetter__", "__lookupSetter__"
  }

  /** What `route()` does as written: `rendered` is None when no screen is drawn. */
  datatype RouteOutcome = RouteOutcome(rendered: Option<Screen>, active: string)

  function RouteAsWritten(hash: string): (r: RouteOutcome)
    ensures r.active == PathOfFragment(hash)
    ensures r.rendered == None <==> r.active in InheritedKeys
  {
    var path := PathOfFragment(hash);
    var rendered :=
      if path in Routes then Some(Routes[path])
      else if path in InheritedKeys then None
      else Some(Home);
    RouteOutcome(rendered, path)
  }

  /** The fragment "#constructor" renders no screen at all instead of falling back
      to the home screen. */
  lemma ConstructorFragmentRendersNothing()
    ensures RouteAsWritten("#constructor").rendered == None
    ensures Route("#constructor").screen == Home
  {
    FragmentPath("constructor");
  }

  /** Apart from the inherited property names, the code as written and the
      corrected lookup agree. */
  lemma AsWrittenAgreesOffInheritedKeys(hash: string)
    ensures PathOfFragment(hash) !in InheritedKeys <==> RouteAsWritten(hash).rendered == Some(Route(hash).screen)
  {
  }

}
