/**
  The game window (spiritual/window.py): the order in which `draw` paints
  the current screen's elements, and `set_state`, which builds a screen by
  name and hands the game screen the player's profile before starting it.
*/
module Window {
  import opened Wrappers
  import opened Values
  import opened TileGrid
  import opened Elements
  import opened States

  /* ---------------- Draw order ---------------- */

  /** Element `i` is painted before element `j`: lower priority first, list order among equals. */
  predicate DrawnBefore(prios: seq<int>, i: nat, j: nat)
    requires i < |prios| && j < |prios|
  {
    prios[i] < prios[j] || (prios[i] == prios[j] && i < j)
  }

  /** `prio_map[p]` restricted to positions from `i` on: the positions with priority `p`, in list order. */
  function Group(prios: seq<int>, p: int, i: nat): (g: seq<nat>)
    requires i <= |prios|
    ensures forall k :: 0 <= k < |g| ==> i <= g[k] < |prios| && prios[g[k]] == p
    ensures forall a, b :: 0 <= a < b < |g| ==> g[a] < g[b]
    ensures forall j :: i <= j < |prios| && prios[j] == p ==> j in g
    decreases |prios| - i
  {
    if i == |prios| then []
    else
      var rest := Group(prios, p, i + 1);
      if prios[i] == p then
        var g := [i] + rest;
        assert forall k :: 1 <= k < |g| ==> g[k] == rest[k - 1];
        g
      else rest
  }

  /** The least priority in a non-empty list. */
  function Least(prios: seq<int>): (m: int)
    requires |prios| > 0
    ensures (exists k :: 0 <= k < |prios| && prios[k] == m) && forall k :: 0 <= k < |prios| ==> m <= prios[k]
  {
    if |prios| == 1 then prios[0]
    else
      var m := Least(prios[1..]);
      assert forall k :: 1 <= k < |prios| ==> prios[k] == prios[1..][k - 1];
      if prios[0] <= m then prios[0] else m
  }

  /** The greatest priority in a non-empty list. */
  function Greatest(prios: seq<int>): (m: int)
    requires |prios| > 0
    ensures (exists k :: 0 <= k < |prios| && prios[k] == m) && forall k :: 0 <= k < |prios| ==> prios[k] <= m
  {
    if |prios| == 1 then prios[0]
    else
      var m := Greatest(prios[1..]);
      assert forall k :: 1 <= k < |prios| ==> prios[k] == prios[1..][k - 1];
      if prios[0] >= m then prios[0] else m
  }

  /**
    `for prio in sorted(prio_map): for element in prio_map[prio]`, for the
    priorities `p .. hi`: a priority nothing has contributes no group.
  */
  function DrawGroups(prios: seq<int>, p: int, hi: int): (order: seq<nat>)
    ensures forall k :: 0 <= k < |order| ==> order[k] < |prios| && p <= prios[order[k]] <= hi
    ensures forall j :: 0 <= j < |prios| && p <= prios[j] <= hi ==> j in order
    ensures forall a, b :: 0 <= a < b < |order| ==> DrawnBefore(prios, order[a], order[b])
    decreases hi - p
  {
    if p > hi then []
    else
      var g := Group(prios, p, 0);
      var rest := DrawGroups(prios, p + 1, hi);
      GroupThenRest(prios, p, hi, g, rest);
      g + rest
  }

  /** A group of priority `p` followed by the groups above `p` is painted in order. */
  lemma GroupThenRest(prios: seq<int>, p: int, hi: int, g: seq<nat>, rest: seq<nat>)
    requires forall k :: 0 <= k < |g| ==> g[k] < |prios| && prios[g[k]] == p
    requires forall a, b :: 0 <= a < b < |g| ==> g[a] < g[b]
    requires forall k :: 0 <= k < |rest| ==> rest[k] < |prios| && p + 1 <= prios[rest[k]] <= hi
    requires forall a, b :: 0 <= a < b < |rest| ==> DrawnBefore(prios, rest[a], rest[b])
    ensures forall a, b :: 0 <= a < b < |g + rest| ==> DrawnBefore(prios, (g + rest)[a], (g + rest)[b])
  {
    var order := g + rest;
    forall a, b | 0 <= a < b < |order|
      ensures DrawnBefore(prios, order[a], order[b])
    {
      if b < |g| {
        assert order[a] == g[a] && order[b] == g[b];
      } else if a < |g| {
        assert order[a] == g[a] && order[b] == rest[b - |g|];
      } else {
        assert order[a] == rest[a - |g|] && order[b] == rest[b - |g|];
      }
    }
  }

  /** The positions `0 .. n - 1` in list order. */
  function Upto(n: nat): (r: seq<nat>)
    ensures |r| == n && forall k :: 0 <= k < n ==> r[k] == k
  {
    seq(n, k => k)
  }

  /** Every position below `n` is among `Upto(n)`. */
  lemma InUpto(n: nat)
    ensures forall j :: 0 <= j < n ==> j in Upto(n)
  {
    forall j | 0 <= j < n
      ensures j in Upto(n)
    {
      assert Upto(n)[j] == j;
    }
  }

  /**
    `SpiritualWindow.draw`: the positions of the elements in painting order.
    With as many priorities as elements they are grouped by priority; with a
    mismatch every element is painted in list order.
  */
  function DrawOrder(n: nat, prios: seq<int>): (order: seq<nat>)
    ensures n != |prios| ==> order == Upto(n)
    ensures forall k :: 0 <= k < |order| ==> order[k] < n
    ensures forall j :: 0 <= j < n ==> j in order
    ensures forall a, b :: 0 <= a < b < |order| ==> order[a] != order[b]
    ensures n == |prios| ==> forall a, b :: 0 <= a < b < |order| ==> DrawnBefore(prios, order[a], order[b])
  {
    if n != |prios| then
      InUpto(n);
      Upto(n)
    else if n == 0 then []
    else DrawGroups(prios, Least(prios), Greatest(prios))
  }

  /** Every element is painted exactly once: the draw order is a permutation of the positions. */
  lemma DrawOrderIsPermutation(n: nat, prios: seq<int>)
    ensures multiset(DrawOrder(n, prios)) == multiset(Upto(n))
    ensures |DrawOrder(n, prios)| == n
  {
    var order := DrawOrder(n, prios);
    DistinctMultiset(order, n);
    assert |multiset(order)| == |order|;
  }

  /** A repetition-free list of all positions below `n` holds each of them once. */
  lemma DistinctMultiset(order: seq<nat>, n: nat)
    requires forall k :: 0 <= k < |order| ==> order[k] < n
    requires forall j :: 0 <= j < n ==> j in order
    requires forall a, b :: 0 <= a < b < |order| ==> order[a] != order[b]
    ensures multiset(order) == multiset(Upto(n))
  {
    forall x
      ensures multiset(order)[x] == multiset(Upto(n))[x]
    {
      if 0 <= x < n {
        OnceIn(order, x);
        assert Upto(n)[x] == x;
        OnceIn(Upto(n), x);
      } else {
        assert x !in order && x !in Upto(n);
      }
    }
  }

  /** An element of a repetition-free list occurs in it exactly once. */
  lemma {:induction false} OnceIn(xs: seq<nat>, x: nat)
    requires x in xs
    requires forall a, b :: 0 <= a < b < |xs| ==> xs[a] != xs[b]
    ensures multiset(xs)[x] == 1
    decreases |xs|
  {
    assert xs == [xs[0]] + xs[1..];
    if xs[0] == x {
      assert x !in xs[1..];
    } else {
      OnceIn(xs[1..], x);
    }
  }

  /** The game screen's priorities paint the chunks first, then the player, then the title and the Back button. */
  lemma GameDrawOrder(n: nat, a: nat, b: nat)
    requires 3 <= n
    requires var order := DrawOrder(n, GamePriorities(n)); a < |order| && b < |order|
    requires var order := DrawOrder(n, GamePriorities(n));
             (order[a] >= 3 && order[b] < 3) || (order[a] == 2 && order[b] < 2) || (order[a] == 0 && order[b] == 1)
    ensures a < b
  {
    var prios := GamePriorities(n);
    assert prios[0] == 2 && prios[1] == 2 && prios[2] == 1 by {
      assert prios[..3] == [2, 2, 1];
    }
    var order := DrawOrder(n, prios);
    var i, j := order[a], order[b];
    assert prios[i] < prios[j] || (prios[i] == prios[j] && i < j);
    LowerFirst(prios, order, a, b);
  }

  /** In an order that paints by priority, an element comes before every element it is drawn before. */
  lemma LowerFirst(prios: seq<int>, order: seq<nat>, a: nat, b: nat)
    requires forall k :: 0 <= k < |order| ==> order[k] < |prios|
    requires forall a, b :: 0 <= a < b < |order| ==> DrawnBefore(prios, order[a], order[b])
    requires a < |order| && b < |order|
    requires DrawnBefore(prios, order[a], order[b])
    ensures a < b
  {
  }

  /* ---------------- Screens and set_state ---------------- */

  /** A screen: one of the four fixed ones, the profile list, or the game. */
  datatype Screen =
    | Fixed(name: string, elements: seq<UiElement>, priorities: seq<int>)
    | ProfilesScreen(ps: ProfilesState)
    | GameScreen(gs: GameState)

  function ElementsOf(s: Screen): seq<UiElement> {
    match s
    case Fixed(_, els, _) => els
    case ProfilesScreen(ps) => ps.elements
    case GameScreen(gs) => gs.elements
  }

  function PrioritiesOf(s: Screen): seq<int> {
    match s
    case Fixed(_, _, ps) => ps
    case ProfilesScreen(ps) => ps.priorities
    case GameScreen(gs) => gs.priorities
  }

  /** What `set_state` reads from outside: the valid profile files found, and the loaded `TILEMAPS`. */
  datatype Env = Env(profiles: seq<ProfilePath>, tilemaps: seq<(string, Tilemap)>)

  datatype WindowState = WindowState(stateName: string, screen: Screen, profile: Option<PlayerProfile>)

  /** The window after a call, and the exception it raised, if any. */
  datatype Outcome = Outcome(window: WindowState, raised: Option<Error>)

  /** The keys of `STATES`. */
  const StateNames: seq<string> := ["menu", "profiles", "new_profile", "settings", "invalid_profile", "game"]

  /** `STATES[name]()`: the freshly built screen, or `KeyError` for an unknown name. */
  function BuildScreen(name: string, env: Env): (r: Result<Screen, Error>)
    ensures r.Err? <==> name !in StateNames
    ensures r.Err? ==> r.error == UnknownState(name)
    ensures r.Ok? ==> |ElementsOf(r.value)| == |PrioritiesOf(r.value)|
    ensures r.Ok? ==> (r.value.ProfilesScreen? <==> name == "profiles") && (r.value.GameScreen? <==> name == "game")
    ensures r.Ok? && r.value.Fixed? ==> r.value.name == name
  {
    if name == "menu" then
      Ok(Fixed(name, [TitleEl("Spiritual"),
                      Btn("Profiles", 200, 210, 400, 80, ToProfiles),
                      Btn("Settings", 200, 310, 400, 80, ToSettings),
                      Btn("Exit", 200, 410, 400, 80, ExitGame)], [0, 0, 0, 0]))
    else if name == "profiles" then Ok(ProfilesScreen(NewProfilesState(env.profiles)))
    else if name == "new_profile" then
      Ok(Fixed(name, [TitleEl("New Profile"),
                      PromptEl(NewPrompt(Rect(200, 220, 400, 80), 32)),
                      Btn("Cancel", 20, 520, 160, 60, Cancel),
                      Btn("Confirm", 620, 520, 160, 60, Confirm)], [0, 0, 0, 0]))
    else if name == "settings" then
      Ok(Fixed(name, [TitleEl("Settings"), Btn("Back", 200, 510, 400, 80, ToMenu)], [0, 0]))
    else if name == "invalid_profile" then
      Ok(Fixed(name, [TitleEl("Invalid Profile"), Btn("Back", 200, 510, 400, 80, ToMenu)], [0, 0]))
    else if name == "game" then Ok(GameScreen(NewGameState()))
    else Err(UnknownState(name))
  }

  /** The location a new game starts in. */
  const SpawnLocation: string := "spawn"

  /**
    `SpiritualWindow.set_state`: record the name, build the screen, give the
    game screen the window's profile and start it at the spawn location. The
    profile object is shared, so the location it is given shows through the
    window's profile too.
  */
  function SetState(w: WindowState, name: string, env: Env): (out: Outcome)
    ensures out.window.stateName == name
    ensures name !in StateNames ==> out == Outcome(w.(stateName := name), Some(UnknownState(name)))
    ensures name in StateNames && name != "game" ==>
              out.raised.None? && out.window.profile == w.profile
              && out.window.screen == BuildScreen(name, env).value
    ensures name == "game" ==>
              var g := NewGameState().(profile := w.profile);
              match SetLocation(g, SpawnLocation, env.tilemaps)
              case Ok(g') => out == Outcome(WindowState(name, GameScreen(g'), g'.profile), None)
              case Err(e) => out == Outcome(WindowState(name, GameScreen(g), w.profile), Some(e))
  {
    var w1 := w.(stateName := name);
    match BuildScreen(name, env)
    case Err(e) => Outcome(w1, Some(e))
    case Ok(screen) =>
      if screen.GameScreen? then
        var g := screen.gs.(profile := w.profile);
        match SetLocation(g, SpawnLocation, env.tilemaps)
        case Ok(g') => Outcome(w1.(screen := GameScreen(g'), profile := g'.profile), None)
        case Err(e) => Outcome(w1.(screen := GameScreen(g)), Some(e))
      else Outcome(w1.(screen := screen), None)
  }

  /** Every screen `set_state` builds has one priority per element, so it is painted by priority. */
  lemma SetStatePrioritiesMatch(w: WindowState, name: string, env: Env)
    requires SetState(w, name, env).raised.None?
    ensures var s := SetState(w, name, env).window.screen;
            |ElementsOf(s)| == |PrioritiesOf(s)|
  {
    if name == "game" {
      var g := NewGameState().(profile := w.profile);
      SetLocationPriorities(g, SpawnLocation, env.tilemaps);
    }
  }

  /** Starting the game without a profile raises once the spawn location is known. */
  lemma GameNeedsProfile(w: WindowState, env: Env)
    requires w.profile.None? && FindLocation(env.tilemaps, SpawnLocation).Some?
    ensures SetState(w, "game", env).raised == Some(NoProfile)
  {
  }

  /** Starting the game with a profile records the spawn location on the window's profile. */
  lemma GameRecordsLocation(w: WindowState, env: Env)
    requires SetState(w, "game", env).raised.None?
    ensures SetState(w, "game", env).window.profile.Some?
    ensures SetState(w, "game", env).window.profile.value.location == Some(SpawnLocation)
    ensures w.profile.Some? && SetState(w, "game", env).window.profile.value.data == w.profile.value.data
  {
  }
}
