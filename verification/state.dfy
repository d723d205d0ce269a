/**
  The screens of the game (spiritual/state.py) as far as their logic goes:
  the element list and draw priorities each screen sets up, profile paging,
  the direction keys of the game screen, and `set_location`, which swaps in
  a location's tile grid and cuts it into 16-by-16 chunks of tile blits.
*/
module States {
  import opened Wrappers
  import opened Values
  import opened TileGrid
  import opened Elements

  /** What a button does when it fires; the window carries it out. */
  datatype Action =
    | ToProfiles | ToSettings | ExitGame
    | ToNewProfile | ToMenu | PageUp | PageDown | OpenProfile(slot: nat)
    | Cancel | Confirm

  /** What a sprite shows: the player facing a direction, or a rendered chunk. */
  datatype Image = PlayerFacing(direction: nat) | ChunkImage(chunk: Chunk)

  /** The elements a screen holds, with the state their handlers keep; colours and fonts are left out. */
  datatype UiElement =
    | TitleEl(text: string)
    | ButtonEl(text: string, button: Button, action: Action)
    | PromptEl(prompt: TextPrompt)
    | SpriteEl(image: Image)

  /** One tile drawn into a chunk: its kind, and its column `i` and row `j` within the chunk. */
  datatype Blit = Blit(kind: string, i: nat, j: nat)

  /** The chunk at chunk coordinates `(x, y)` and the tiles drawn into it, in drawing order. */
  datatype Chunk = Chunk(x: nat, y: nat, blits: seq<Blit>)

  /** A button of the source's standard look: white with a 32-point font. */
  function Btn(text: string, x: int, y: int, w: int, h: int, action: Action): UiElement {
    ButtonEl(text, Button(Rect(x, y, w, h), false), action)
  }

  /* ---------------- Profiles screen ---------------- */

  /** A saved profile file; its button shows the file name's stem. */
  datatype ProfilePath = ProfilePath(stem: string)

  datatype ProfilesState = ProfilesState(
    profiles: seq<ProfilePath>, page: int, elements: seq<UiElement>, priorities: seq<int>)

  /** The five elements every page shows: title, New, Back, Up and Down. */
  function PageHeader(): seq<UiElement> {
    [ TitleEl("Profiles"),
      Btn("New", 20, 220, 160, 60, ToNewProfile),
      Btn("Back", 20, 520, 160, 60, ToMenu),
      Btn("Up", 620, 220, 160, 60, PageUp),
      Btn("Down", 620, 520, 160, 60, PageDown) ]
  }

  function Min(a: int, b: int): (r: int)
    ensures r <= a && r <= b && (r == a || r == b)
  {
    if a < b then a else b
  }

  function Max(a: int, b: int): (r: int)
    ensures r >= a && r >= b && (r == a || r == b)
  {
    if a < b then b else a
  }

  /** The button for the profile in slot `slot` of the page. */
  function ProfileButton(profiles: seq<ProfilePath>, page: int, slot: nat): UiElement
    requires 0 <= page * 4 + slot < |profiles|
  {
    Btn(profiles[page * 4 + slot].stem, 200, 220 + 100 * slot, 400, 80, OpenProfile(slot))
  }

  /** The loop of `update_page` from slot `i` on: one button per profile left on the page, at most four. */
  function ProfileButtons(profiles: seq<ProfilePath>, page: int, i: nat): (bs: seq<UiElement>)
    requires page >= 0 && i <= 4
    ensures i + |bs| == Min(4, Max(i, |profiles| - page * 4))
    ensures forall k :: 0 <= k < |bs| ==>
              page * 4 + i + k < |profiles| && bs[k] == ProfileButton(profiles, page, i + k)
    decreases 4 - i
  {
    if i == 4 || i + page * 4 >= |profiles| then []
    else
      var rest := ProfileButtons(profiles, page, i + 1);
      var bs := [ProfileButton(profiles, page, i)] + rest;
      assert forall k :: 1 <= k < |bs| ==> bs[k] == rest[k - 1];
      bs
  }

  /** `ProfilesState.update_page`: the header, the page's profile buttons, and a zero priority for each. */
  function UpdatePage(s: ProfilesState): (r: ProfilesState)
    requires s.page >= 0
    ensures r.profiles == s.profiles && r.page == s.page
    ensures |r.elements| == 5 + Min(4, Max(0, |s.profiles| - s.page * 4))
    ensures r.elements[..5] == PageHeader()
    ensures forall k :: 5 <= k < |r.elements| ==>
              s.page * 4 + k - 5 < |s.profiles| && r.elements[k] == ProfileButton(s.profiles, s.page, k - 5)
    ensures |r.priorities| == |r.elements| && forall k :: 0 <= k < |r.priorities| ==> r.priorities[k] == 0
  {
    var bs := ProfileButtons(s.profiles, s.page, 0);
    var els := PageHeader() + bs;
    assert forall k :: 5 <= k < |els| ==> els[k] == bs[k - 5];
    s.(elements := els, priorities := seq(|els|, _ => 0))
  }

  /** `ProfilesState.__init__` with the valid profiles its directory scan found. */
  function NewProfilesState(profiles: seq<ProfilePath>): (s: ProfilesState)
    ensures s.page == 0 && s.profiles == profiles
  {
    UpdatePage(ProfilesState(profiles, 0, [], []))
  }

  /** A page within the range paging keeps to. */
  predicate PageInRange(s: ProfilesState) {
    0 <= s.page <= |s.profiles| / 4
  }

  /** `button_up`: back one page, never below the first. */
  function ButtonUp(s: ProfilesState): (r: ProfilesState)
    ensures r.page >= 0 || r.page == s.page
    ensures PageInRange(s) ==> PageInRange(r)
    ensures r.page == if s.page > 0 then s.page - 1 else s.page
    ensures r.elements == s.elements && r.profiles == s.profiles
  {
    if s.page > 0 then s.(page := s.page - 1) else s
  }

  /** `button_down` as written: forward one page, never past `len(profiles) // 4`, without redrawing. */
  function ButtonDown(s: ProfilesState): (r: ProfilesState)
    ensures r.page == if s.page < |s.profiles| / 4 then s.page + 1 else s.page
    ensures r.page <= |s.profiles| / 4 || r.page == s.page
    ensures PageInRange(s) ==> PageInRange(r)
    ensures r.elements == s.elements && r.profiles == s.profiles
  {
    if s.page < |s.profiles| / 4 then s.(page := s.page + 1) else s
  }

  /** `button_down` as evidently intended: the page's buttons are rebuilt for the new page. */
  function ButtonDownIntended(s: ProfilesState): (r: ProfilesState)
    requires s.page >= 0
    ensures r.page == if s.page < |s.profiles| / 4 then s.page + 1 else s.page
    ensures r.profiles == s.profiles
    ensures r.page >= 0 && (PageInRange(s) ==> PageInRange(r))
  {
    UpdatePage(ButtonDown(s))
  }

  /** `button_up` as evidently intended. */
  function ButtonUpIntended(s: ProfilesState): (r: ProfilesState)
    requires s.page >= 0
    ensures r.page == if s.page > 0 then s.page - 1 else s.page
    ensures r.profiles == s.profiles
    ensures r.page >= 0 && (PageInRange(s) ==> PageInRange(r))
  {
    UpdatePage(ButtonUp(s))
  }

  /** `button_profile<slot>`: the profile file `load_profile` opens. */
  function ChooseProfile(s: ProfilesState, slot: nat): (r: Result<ProfilePath, Error>)
    requires s.page >= 0
    ensures r.Ok? <==> s.page * 4 + slot < |s.profiles|
    ensures r.Ok? ==> r.value == s.profiles[s.page * 4 + slot]
  {
    if s.page * 4 + slot < |s.profiles| then Ok(s.profiles[s.page * 4 + slot]) else Err(IndexOutOfRange)
  }

  /** Every profile button on screen opens the profile whose name it shows. */
  predicate ButtonsMatchPage(s: ProfilesState)
    requires s.page >= 0
  {
    forall k :: 0 <= k < |s.elements| && s.elements[k].ButtonEl? && s.elements[k].action.OpenProfile? ==>
      var r := ChooseProfile(s, s.elements[k].action.slot);
      r.Ok? && r.value.stem == s.elements[k].text
  }

  /** A freshly drawn page keeps that promise. */
  lemma UpdatePageMatches(s: ProfilesState)
    requires s.page >= 0
    ensures ButtonsMatchPage(UpdatePage(s))
  {
    var r := UpdatePage(s);
    var bs := ProfileButtons(s.profiles, s.page, 0);
    assert r.elements == PageHeader() + bs;
    forall k | 0 <= k < |r.elements| && r.elements[k].ButtonEl? && r.elements[k].action.OpenProfile?
      ensures ChooseProfile(r, r.elements[k].action.slot).Ok?
      ensures ChooseProfile(r, r.elements[k].action.slot).value.stem == r.elements[k].text
    {
      assert k >= 5;
      assert r.elements[k] == bs[k - 5];
    }
  }

  /** With the intended paging, the buttons on screen always open what they show. */
  lemma IntendedPagingMatches(s: ProfilesState)
    requires s.page >= 0
    ensures ButtonsMatchPage(ButtonDownIntended(s)) && ButtonsMatchPage(ButtonUpIntended(s))
  {
    UpdatePageMatches(ButtonDown(s));
    UpdatePageMatches(ButtonUp(s));
  }

  /**
    As written, paging leaves the old buttons on screen: with five profiles,
    after Down the first button still shows the first profile but opens the
    fifth, and the second button raises `IndexError`.
  */
  lemma PagingMismatchAsWritten(a: string, b: string, c: string, d: string, e: string)
    requires a != e
    ensures var s := ButtonDown(NewProfilesState([ProfilePath(a), ProfilePath(b), ProfilePath(c),
                                                 ProfilePath(d), ProfilePath(e)]));
            s.page == 1 && s.elements[5].text == a && s.elements[5].action == OpenProfile(0)
            && ChooseProfile(s, 0) == Ok(ProfilePath(e))
            && s.elements[6].action == OpenProfile(1) && ChooseProfile(s, 1).Err?
            && !ButtonsMatchPage(s)
  {
    var ps := [ProfilePath(a), ProfilePath(b), ProfilePath(c), ProfilePath(d), ProfilePath(e)];
    var s0 := NewProfilesState(ps);
    var bs := ProfileButtons(ps, 0, 0);
    assert |bs| == 4;
    assert s0.elements == PageHeader() + bs;
    assert s0.elements[5] == bs[0] && s0.elements[6] == bs[1];
  }

  /* ---------------- Game screen ---------------- */

  /** The profile the game screen plays with; `location` is the attribute `set_location` adds to it. */
  datatype PlayerProfile = PlayerProfile(data: Value, location: Option<string>)

  datatype GameState = GameState(
    elements: seq<UiElement>, priorities: seq<int>, direction: nat,
    profile: Option<PlayerProfile>, tilemap: Option<Tilemap>, chunks: seq<Chunk>)

  /** The tile kinds there are images for (`TILE_IDS`). */
  const TileIds: set<string> := {"empty", "grass"}

  /** `GameState.__init__`: title, Back button and the player facing up; no profile, no location. */
  function NewGameState(): (g: GameState)
    ensures |g.elements| == 3 && |g.priorities| == 3 && g.direction == 0 && g.elements[2] == SpriteEl(PlayerFacing(0))
  {
    GameState([TitleEl("Game"), Btn("Back", 200, 510, 400, 80, ToMenu), SpriteEl(PlayerFacing(0))],
              [0, 0, 0], 0, None, None, [])
  }

  /** The direction a key turns the player to: w, a, s, d are up, left, down, right. */
  function DirectionOf(key: KeyCode): (r: Option<nat>)
    ensures r.Some? <==> key in {KW, KA, KS, KD}
    ensures r.Some? ==> r.value < 4
  {
    match key
    case KW => Some(0)
    case KA => Some(1)
    case KS => Some(2)
    case KD => Some(3)
    case _ => None
  }

  /** The direction part of `GameState.on_event` for a key press: turn the player and its sprite. */
  function TurnPlayer(g: GameState, key: KeyCode): (r: Result<GameState, Error>)
    ensures DirectionOf(key).None? ==> r == Ok(g)
    ensures DirectionOf(key).Some? ==> (r.Ok? <==> |g.elements| >= 3)
    ensures r.Ok? && DirectionOf(key).Some? ==>
              r.value.direction == DirectionOf(key).value
              && r.value.elements == g.elements[2 := SpriteEl(PlayerFacing(r.value.direction))]
              && r.value.priorities == g.priorities && r.value.chunks == g.chunks
  {
    match DirectionOf(key)
    case None => Ok(g)
    case Some(dir) =>
      if |g.elements| < 3 then Err(IndexOutOfRange)
      else Ok(g.(direction := dir, elements := g.elements[2 := SpriteEl(PlayerFacing(dir))]))
  }

  /** w, a, s and d turn the player up, left, down and right; no two of them turn it the same way. */
  lemma WasdTurns(g: GameState, k1: KeyCode, k2: KeyCode)
    requires |g.elements| >= 3
    ensures TurnPlayer(g, KW).value.direction == 0 && TurnPlayer(g, KA).value.direction == 1
    ensures TurnPlayer(g, KS).value.direction == 2 && TurnPlayer(g, KD).value.direction == 3
    ensures DirectionOf(k1).Some? && DirectionOf(k1) == DirectionOf(k2) ==> k1 == k2
  {
  }

  /** The sprite always faces the way the player does once a direction key has been pressed. */
  lemma TurnKeepsSpriteInStep(g: GameState, k1: KeyCode, k2: KeyCode)
    requires |g.elements| >= 3 && DirectionOf(k1).Some?
    ensures TurnPlayer(g, k1).Ok? && TurnPlayer(TurnPlayer(g, k1).value, k2).Ok?
    ensures var g2 := TurnPlayer(TurnPlayer(g, k1).value, k2).value;
            g2.elements[2] == SpriteEl(PlayerFacing(g2.direction))
  {
  }

  /** `ceil(n / 16)`: the number of 16-tile chunks along a side of `n` tiles. */
  function ChunkCount(n: nat): nat {
    (n + 15) / 16
  }

  /** `min(16, n - 16 * c)`: how many tiles chunk `c` spans along a side of `n` tiles. */
  function Span(n: nat, c: nat): (r: nat)
    requires c < ChunkCount(n)
    ensures 1 <= r <= 16 && 16 * c + r <= n
    ensures r < 16 ==> 16 * c + r == n
  {
    if n - 16 * c < 16 then n - 16 * c else 16
  }

  /** A grid cell whose lookup raises, or whose kind has no image. */
  predicate BadTile(tm: Tilemap, a: int, b: int) {
    var r := GetItem(tm, Key(a, b));
    r.Err? || r.value !in TileIds
  }

  /** The blit is the tile of the grid at its place in chunk `(x, y)`. */
  predicate BlitOf(tm: Tilemap, x: nat, y: nat, bl: Blit) {
    GetItem(tm, Key(16 * x + bl.i, 16 * y + bl.j)) == Ok(bl.kind) && bl.kind in TileIds
  }

  /** The cell at column `i`, row `j` of chunk `(x, y)` is bad. */
  predicate BadCell(tm: Tilemap, x: nat, y: nat, i: nat, j: nat) {
    BadTile(tm, 16 * x + i, 16 * y + j)
  }

  /** The innermost loop of `set_location`: rows `j` to `jn` of column `i` of chunk `(x, y)`. */
  function ColumnBlits(tm: Tilemap, x: nat, y: nat, i: nat, j: nat, jn: nat): (r: Result<seq<Blit>, Error>)
    requires j <= jn
    ensures r.Ok? ==> |r.value| == jn - j
                      && forall k :: 0 <= k < |r.value| ==> r.value[k].i == i && r.value[k].j == j + k
                                                             && BlitOf(tm, x, y, r.value[k])
    ensures r.Err? ==> exists b :: j <= b < jn && BadCell(tm, x, y, i, b)
    decreases jn - j
  {
    if j == jn then Ok([])
    else
      var kind := GetItem(tm, Key(16 * x + i, 16 * y + j));
      if kind.Err? then assert BadCell(tm, x, y, i, j); Err(kind.error)
      else if kind.value !in TileIds then assert BadCell(tm, x, y, i, j); Err(KeyNotFound(kind.value))
      else
        var rest := ColumnBlits(tm, x, y, i, j + 1, jn);
        if rest.Err? then rest
        else
          var bs := [Blit(kind.value, i, j)] + rest.value;
          assert forall k :: 1 <= k < |bs| ==> bs[k] == rest.value[k - 1];
          Ok(bs)
  }

  /** Some blit of `bs` sits at column `i`, row `j` of its chunk. */
  predicate Placed(bs: seq<Blit>, i: nat, j: nat) {
    exists k :: 0 <= k < |bs| && bs[k].i == i && bs[k].j == j
  }

  /**
    The blits of a chunk fill columns `i0` to `iEnd` and rows 0 to `jn` of it,
    each place once, in column-major order, each with the grid's tile there.
  */
  predicate FillsChunk(tm: Tilemap, x: nat, y: nat, bs: seq<Blit>, i0: nat, iEnd: nat, jn: nat) {
    (forall k :: 0 <= k < |bs| ==> i0 <= bs[k].i < iEnd && bs[k].j < jn && BlitOf(tm, x, y, bs[k]))
    && (forall a, c :: 0 <= a < c < |bs| ==> bs[a].i < bs[c].i || (bs[a].i == bs[c].i && bs[a].j < bs[c].j))
    && (forall i, j :: i0 <= i < iEnd && 0 <= j < jn ==> Placed(bs, i, j))
  }

  /** The two inner loops of `set_location`: columns `i` to `iEnd` of chunk `(x, y)`. */
  function ChunkBlits(tm: Tilemap, x: nat, y: nat, i: nat, iEnd: nat, jn: nat): (r: Result<seq<Blit>, Error>)
    requires i <= iEnd
    ensures r.Ok? ==> FillsChunk(tm, x, y, r.value, i, iEnd, jn)
    ensures r.Err? ==> exists a, b :: i <= a < iEnd && 0 <= b < jn && BadCell(tm, x, y, a, b)
    decreases iEnd - i
  {
    if i == iEnd then Ok([])
    else
      var col :- ColumnBlits(tm, x, y, i, 0, jn);
      var rest :- ChunkBlits(tm, x, y, i + 1, iEnd, jn);
      ColumnThenRest(tm, x, y, col, rest, i, iEnd, jn);
      Ok(col + rest)
  }

  /** Putting a full column `i` in front of the columns after it fills the chunk from `i`. */
  lemma ColumnThenRest(tm: Tilemap, x: nat, y: nat, col: seq<Blit>, rest: seq<Blit>, i: nat, iEnd: nat, jn: nat)
    requires i < iEnd
    requires |col| == jn && forall k :: 0 <= k < |col| ==> col[k].i == i && col[k].j == k && BlitOf(tm, x, y, col[k])
    requires FillsChunk(tm, x, y, rest, i + 1, iEnd, jn)
    ensures FillsChunk(tm, x, y, col + rest, i, iEnd, jn)
  {
    var bs := col + rest;
    forall a, b | i <= a < iEnd && 0 <= b < jn
      ensures Placed(bs, a, b)
    {
      if a == i {
        assert bs[b] == col[b];
      } else {
        assert Placed(rest, a, b);
        var k :| 0 <= k < |rest| && rest[k].i == a && rest[k].j == b;
        assert bs[|col| + k] == rest[k];
      }
    }
  }

  /** A chunk of the location's grid whose blits fill it entirely. */
  predicate WholeChunk(tm: Tilemap, w: nat, h: nat, ch: Chunk) {
    ch.x < ChunkCount(w) && ch.y < ChunkCount(h)
    && FillsChunk(tm, ch.x, ch.y, ch.blits, 0, Span(w, ch.x), Span(h, ch.y))
  }

  /** The `y` loop of `set_location` for chunk column `x`: chunks `y` to the last. */
  function ChunkColumn(tm: Tilemap, w: nat, h: nat, x: nat, y: nat): (r: Result<seq<Chunk>, Error>)
    requires x < ChunkCount(w) && y <= ChunkCount(h)
    ensures r.Ok? ==> |r.value| == ChunkCount(h) - y
                      && forall k :: 0 <= k < |r.value| ==> r.value[k].x == x && r.value[k].y == y + k
                                                             && WholeChunk(tm, w, h, r.value[k])
    ensures r.Err? ==> exists a, b :: 16 * x <= a < w && 16 * y <= b < h && BadTile(tm, a, b)
    decreases ChunkCount(h) - y
  {
    if y == ChunkCount(h) then Ok([])
    else
      var bs := ChunkBlits(tm, x, y, 0, Span(w, x), Span(h, y));
      if bs.Err? then BadChunkInGrid(tm, w, h, x, y); Err(bs.error)
      else
        var rest :- ChunkColumn(tm, w, h, x, y + 1);
        ChunkThenColumn(tm, w, h, Chunk(x, y, bs.value), rest);
        Ok([Chunk(x, y, bs.value)] + rest)
  }

  /** A whole chunk `(x, y)` in front of the whole chunks below it in column `x` forms the column from `y`. */
  lemma ChunkThenColumn(tm: Tilemap, w: nat, h: nat, ch: Chunk, rest: seq<Chunk>)
    requires WholeChunk(tm, w, h, ch)
    requires |rest| == ChunkCount(h) - ch.y - 1
    requires forall k :: 0 <= k < |rest| ==> rest[k].x == ch.x && rest[k].y == ch.y + 1 + k && WholeChunk(tm, w, h, rest[k])
    ensures var cs := [ch] + rest;
            |cs| == ChunkCount(h) - ch.y
            && forall k :: 0 <= k < |cs| ==> cs[k].x == ch.x && cs[k].y == ch.y + k && WholeChunk(tm, w, h, cs[k])
  {
    var cs := [ch] + rest;
    forall k | 0 <= k < |cs|
      ensures cs[k].x == ch.x && cs[k].y == ch.y + k && WholeChunk(tm, w, h, cs[k])
    {
      if k > 0 {
        assert cs[k] == rest[k - 1];
      }
    }
  }

  /** A bad cell of a chunk is a bad cell of the grid. */
  lemma BadChunkInGrid(tm: Tilemap, w: nat, h: nat, x: nat, y: nat)
    requires x < ChunkCount(w) && y < ChunkCount(h)
    requires exists a, b :: 0 <= a < Span(w, x) && 0 <= b < Span(h, y) && BadCell(tm, x, y, a, b)
    ensures exists a, b :: 16 * x <= a < w && 16 * y <= b < h && BadTile(tm, a, b)
  {
    var a, b :| 0 <= a < Span(w, x) && 0 <= b < Span(h, y) && BadCell(tm, x, y, a, b);
    assert BadTile(tm, 16 * x + a, 16 * y + b);
  }

  /** Some chunk of `cs` has chunk coordinates `(x, y)`. */
  predicate HasChunk(cs: seq<Chunk>, x: nat, y: nat) {
    exists k :: 0 <= k < |cs| && cs[k].x == x && cs[k].y == y
  }

  /** The chunks cover chunk columns `x0` to the last once each, in column-major order, each whole. */
  predicate ChunksFrom(tm: Tilemap, w: nat, h: nat, cs: seq<Chunk>, x0: nat) {
    (forall k :: 0 <= k < |cs| ==> x0 <= cs[k].x && WholeChunk(tm, w, h, cs[k]))
    && (forall a, c :: 0 <= a < c < |cs| ==> cs[a].x < cs[c].x || (cs[a].x == cs[c].x && cs[a].y < cs[c].y))
    && (forall x, y :: x0 <= x < ChunkCount(w) && 0 <= y < ChunkCount(h) ==> HasChunk(cs, x, y))
  }

  /** The two outer loops of `set_location`: chunk columns `x` to the last. */
  function Chunks(tm: Tilemap, w: nat, h: nat, x: nat): (r: Result<seq<Chunk>, Error>)
    requires x <= ChunkCount(w)
    ensures r.Ok? ==> ChunksFrom(tm, w, h, r.value, x)
    ensures r.Err? ==> exists a, b :: 16 * x <= a < w && 0 <= b < h && BadTile(tm, a, b)
    decreases ChunkCount(w) - x
  {
    if x == ChunkCount(w) then Ok([])
    else
      var col :- ChunkColumn(tm, w, h, x, 0);
      var rest :- Chunks(tm, w, h, x + 1);
      ChunkColumnThenRest(tm, w, h, col, rest, x);
      Ok(col + rest)
  }

  /** Putting a full chunk column `x` in front of the columns after it covers the columns from `x`. */
  lemma ChunkColumnThenRest(tm: Tilemap, w: nat, h: nat, col: seq<Chunk>, rest: seq<Chunk>, x: nat)
    requires x < ChunkCount(w)
    requires |col| == ChunkCount(h)
    requires forall k :: 0 <= k < |col| ==> col[k].x == x && col[k].y == k && WholeChunk(tm, w, h, col[k])
    requires ChunksFrom(tm, w, h, rest, x + 1)
    ensures ChunksFrom(tm, w, h, col + rest, x)
  {
    var cs := col + rest;
    forall a, b | x <= a < ChunkCount(w) && 0 <= b < ChunkCount(h)
      ensures HasChunk(cs, a, b)
    {
      if a == x {
        assert cs[b] == col[b];
      } else {
        assert HasChunk(rest, a, b);
        var k :| 0 <= k < |rest| && rest[k].x == a && rest[k].y == b;
        assert cs[|col| + k] == rest[k];
      }
    }
  }

  /** Blit `bl` of chunk `ch` draws grid cell `(a, b)`. */
  predicate DrawsCell(ch: Chunk, bl: Blit, a: int, b: int) {
    16 * ch.x + bl.i == a && 16 * ch.y + bl.j == b
  }

  /** Some blit of some chunk draws grid cell `(a, b)`. */
  predicate Drawn(cs: seq<Chunk>, a: int, b: int) {
    exists c, k :: 0 <= c < |cs| && 0 <= k < |cs[c].blits| && DrawsCell(cs[c], cs[c].blits[k], a, b)
  }

  /** Chunking a `w` by `h` grid draws every cell of it. */
  lemma ChunksCoverGrid(tm: Tilemap, w: nat, h: nat, cs: seq<Chunk>)
    requires ChunksFrom(tm, w, h, cs, 0)
    ensures forall a, b :: 0 <= a < w && 0 <= b < h ==> Drawn(cs, a, b)
  {
    forall a, b | 0 <= a < w && 0 <= b < h
      ensures Drawn(cs, a, b)
    {
      CellDrawn(tm, w, h, cs, a, b);
    }
  }

  /** Grid cell `(a, b)` is drawn by the chunk it falls in. */
  lemma CellDrawn(tm: Tilemap, w: nat, h: nat, cs: seq<Chunk>, a: nat, b: nat)
    requires ChunksFrom(tm, w, h, cs, 0)
    requires a < w && b < h
    ensures Drawn(cs, a, b)
  {
    ChunkOfCell(w, a);
    ChunkOfCell(h, b);
    assert HasChunk(cs, a / 16, b / 16);
    var c :| 0 <= c < |cs| && cs[c].x == a / 16 && cs[c].y == b / 16;
    var k := BlitOfCell(tm, w, h, cs[c], a, b);
  }

  /** The whole chunk a grid cell falls in has a blit drawing that cell. */
  lemma BlitOfCell(tm: Tilemap, w: nat, h: nat, ch: Chunk, a: nat, b: nat) returns (k: nat)
    requires WholeChunk(tm, w, h, ch)
    requires a < w && b < h && ch.x == a / 16 && ch.y == b / 16
    ensures k < |ch.blits| && DrawsCell(ch, ch.blits[k], a, b)
  {
    ChunkOfCell(w, a);
    ChunkOfCell(h, b);
    var i: nat, j: nat := a - 16 * ch.x, b - 16 * ch.y;
    assert Placed(ch.blits, i, j);
    k :| 0 <= k < |ch.blits| && ch.blits[k].i == i && ch.blits[k].j == j;
  }

  /** Every blit of the chunks draws a cell inside the grid, with the grid's tile there. */
  lemma ChunksStayInGrid(tm: Tilemap, w: nat, h: nat, cs: seq<Chunk>, c: nat, k: nat)
    requires ChunksFrom(tm, w, h, cs, 0)
    requires c < |cs| && k < |cs[c].blits|
    ensures var a, b := 16 * cs[c].x + cs[c].blits[k].i, 16 * cs[c].y + cs[c].blits[k].j;
            a < w && b < h && GetItem(tm, Key(a, b)) == Ok(cs[c].blits[k].kind)
  {
    assert WholeChunk(tm, w, h, cs[c]);
    assert BlitOf(tm, cs[c].x, cs[c].y, cs[c].blits[k]);
  }

  /** No grid cell is drawn twice: two blits drawing the same cell are the same blit of the same chunk. */
  lemma ChunksDrawOnce(tm: Tilemap, w: nat, h: nat, cs: seq<Chunk>, a: int, b: int,
                       c1: nat, k1: nat, c2: nat, k2: nat)
    requires ChunksFrom(tm, w, h, cs, 0)
    requires c1 < |cs| && k1 < |cs[c1].blits| && c2 < |cs| && k2 < |cs[c2].blits|
    requires DrawsCell(cs[c1], cs[c1].blits[k1], a, b) && DrawsCell(cs[c2], cs[c2].blits[k2], a, b)
    ensures c1 == c2 && k1 == k2
  {
    assert WholeChunk(tm, w, h, cs[c1]) && WholeChunk(tm, w, h, cs[c2]);
    SameCell(cs[c1].x, cs[c1].blits[k1].i, cs[c2].x, cs[c2].blits[k2].i);
    SameCell(cs[c1].y, cs[c1].blits[k1].j, cs[c2].y, cs[c2].blits[k2].j);
  }

  /** Cell `a` of a side of `n` cells lies in chunk `a / 16`, at an offset that chunk spans. */
  lemma ChunkOfCell(n: nat, a: nat)
    requires a < n
    ensures a / 16 < ChunkCount(n) && a - 16 * (a / 16) < Span(n, a / 16)
  {
  }

  /** A cell index splits uniquely into a chunk index and an offset below 16. */
  lemma SameCell(x1: nat, i1: nat, x2: nat, i2: nat)
    requires i1 < 16 && i2 < 16 && 16 * x1 + i1 == 16 * x2 + i2
    ensures x1 == x2 && i1 == i2
  {
  }

  /** `[2, 2, 1] + [0] * (n - 3)`: title and Back on top, then the player, then the chunks. */
  function GamePriorities(n: nat): (ps: seq<int>)
    ensures n >= 3 ==> |ps| == n
    ensures |ps| >= 3 && ps[..3] == [2, 2, 1] && forall k :: 3 <= k < |ps| ==> ps[k] == 0
  {
    [2, 2, 1] + seq(if n >= 3 then n - 3 else 0, _ => 0)
  }

  /** The location's grid, if `set_location` knows it. */
  function FindLocation(tilemaps: seq<(string, Tilemap)>, loc: string): (r: Option<Tilemap>)
    ensures r.Some? <==> exists k :: 0 <= k < |tilemaps| && tilemaps[k].0 == loc
    ensures r.Some? ==> exists k :: 0 <= k < |tilemaps| && tilemaps[k] == (loc, r.value)
    decreases |tilemaps|
  {
    if |tilemaps| == 0 then None
    else if tilemaps[0].0 == loc then Some(tilemaps[0].1)
    else
      var r := FindLocation(tilemaps[1..], loc);
      assert r.Some? ==> tilemaps[1..][0..] == tilemaps[1..];
      r
  }

  /**
    `GameState.set_location` with the loaded `TILEMAPS`: reject an unknown
    location, record it on the profile, and replace the chunk sprites after
    the first three elements by the new grid's chunks.
  */
  function SetLocation(g: GameState, loc: string, tilemaps: seq<(string, Tilemap)>): (r: Result<GameState, Error>)
    ensures FindLocation(tilemaps, loc).None? ==> r == Err(UnknownLocation(loc))
    ensures FindLocation(tilemaps, loc).Some? && g.profile.None? ==> r == Err(NoProfile)
    ensures r.Ok? ==>
              FindLocation(tilemaps, loc).Some? && GridSize(FindLocation(tilemaps, loc).value).Ok?
              && var tm := FindLocation(tilemaps, loc).value;
              var (w, h) := GridSize(tm).value;
              r.value.tilemap == Some(tm) && g.profile.Some?
              && r.value.profile == Some(g.profile.value.(location := Some(loc)))
              && r.value.direction == g.direction
              && ChunksFrom(tm, w, h, r.value.chunks, 0)
              && |r.value.elements| == Min(3, |g.elements|) + |r.value.chunks|
              && r.value.elements[..Min(3, |g.elements|)] == g.elements[..Min(3, |g.elements|)]
              && (forall k :: 0 <= k < |r.value.chunks| ==>
                    r.value.elements[Min(3, |g.elements|) + k] == SpriteEl(ChunkImage(r.value.chunks[k])))
              && r.value.priorities == GamePriorities(|r.value.elements|)
  {
    match FindLocation(tilemaps, loc)
    case None => Err(UnknownLocation(loc))
    case Some(tm) =>
      if g.profile.None? then Err(NoProfile)
      else
        var size :- GridSize(tm);
        var cs :- Chunks(tm, size.0, size.1, 0);
        var keep := g.elements[..Min(3, |g.elements|)];
        var els := keep + seq(|cs|, k requires 0 <= k < |cs| => SpriteEl(ChunkImage(cs[k])));
        Ok(g.(profile := Some(g.profile.value.(location := Some(loc))), tilemap := Some(tm),
              chunks := cs, elements := els, priorities := GamePriorities(|els|)))
  }

  /** After `set_location` on a screen built by `__init__`, every element has a priority. */
  lemma SetLocationPriorities(g: GameState, loc: string, tilemaps: seq<(string, Tilemap)>)
    requires |g.elements| >= 3 && SetLocation(g, loc, tilemaps).Ok?
    ensures |SetLocation(g, loc, tilemaps).value.priorities| == |SetLocation(g, loc, tilemaps).value.elements|
  {
  }

  /** `set_location` on a grid whose cells all have images draws every cell once; it raises only on a bad cell. */
  lemma SetLocationDrawsGrid(g: GameState, loc: string, tilemaps: seq<(string, Tilemap)>)
    requires FindLocation(tilemaps, loc).Some? && g.profile.Some?
    requires |FindLocation(tilemaps, loc).value.tilemap| > 0
    ensures var tm := FindLocation(tilemaps, loc).value;
            var w, h := |tm.tilemap|, |tm.tilemap[0]|;
            SetLocation(g, loc, tilemaps).Err? ==> exists a, b :: 0 <= a < w && 0 <= b < h && BadTile(tm, a, b)
    ensures SetLocation(g, loc, tilemaps).Ok? ==>
              var tm := FindLocation(tilemaps, loc).value;
              var cs := SetLocation(g, loc, tilemaps).value.chunks;
              forall a, b :: 0 <= a < |tm.tilemap| && 0 <= b < |tm.tilemap[0]| ==> Drawn(cs, a, b)
  {
    var tm := FindLocation(tilemaps, loc).value;
    var r := SetLocation(g, loc, tilemaps);
    if r.Ok? {
      ChunksCoverGrid(tm, |tm.tilemap|, |tm.tilemap[0]|, r.value.chunks);
    }
  }
}
