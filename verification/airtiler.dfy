/**
 * The orchestration core of `Airtiler`: processing one tile, the resumable
 * per-bbox tile registry, the zoom-level rules of the configuration, and the
 * completion verdict that decides whether another pass is needed.
 *
 * The vector-data query, the projection of its nodes into the tile and the
 * polygon construction and clipping are one collaborator, `fetch`, which
 * gives for a tile one entry per way: `Some(geometry)` for a way whose
 * polygon could be built and clipped, `None` for one whose construction
 * raised (the way is then skipped). The tile of a geographic point is the
 * collaborator `tileFor`.
 */
module Airtiler {
  import opened Base
  import opened Tiles
  import opened TileNames
  import opened Masks

  /** `_get`: `coll[index] if len(coll) > index else default`, with Python's negative indexing. */
  function Get<T>(coll: seq<T>, index: int, default: T): (r: Result<T>)
    ensures 0 <= index < |coll| ==> r == Ok(coll[index])
    ensures index >= |coll| ==> r == Ok(default)
    ensures -|coll| <= index < 0 ==> r == Ok(coll[|coll| + index])
    ensures index < -|coll| ==> r == Err(IndexError)
  {
    if |coll| > index then
      if index >= 0 then Ok(coll[index])
      else if -index <= |coll| then Ok(coll[|coll| + index])
      else Err(IndexError)
    else Ok(default)
  }

  /* ------------------------------------------------------------------ */
  /* One tile                                                           */
  /* ------------------------------------------------------------------ */

  /** The collaborators: point-to-tile projection and per-tile way data. */
  datatype Collaborators = Collaborators(tileFor: (Point, int) -> (int, int), fetch: Tile -> seq<Option<Geometry>>)

  /** The geometries of the ways whose polygon could be built, in order. */
  function Shapes(ways: seq<Option<Geometry>>): (shapes: seq<Geometry>)
    ensures |shapes| <= |ways|
    ensures forall g :: g in shapes <==> Some(g) in ways
    decreases |ways|
  {
    if ways == [] then []
    else
      assert forall w :: w in ways <==> w == ways[0] || w in ways[1..];
      (if ways[0].Some? then [ways[0].value] else []) + Shapes(ways[1..])
  }

  /** The built geometries keep the ways' order: those of `a + b` are those of `a`, then those of `b`. */
  lemma {:induction false} ShapesAppend(a: seq<Option<Geometry>>, b: seq<Option<Geometry>>)
    ensures Shapes(a + b) == Shapes(a) + Shapes(b)
    decreases |a|
  {
    if a == [] {
      assert a + b == b;
    } else {
      assert (a + b)[0] == a[0];
      assert (a + b)[1..] == a[1..] + b;
      ShapesAppend(a[1..], b);
    }
  }

  /** Whether some pixel of the tile's mask ends non-zero. */
  ghost predicate MaskNonZero(ways: seq<Option<Geometry>>, separate: bool) {
    exists r, c :: 0 <= r < ImageWidth && 0 <= c < ImageWidth && PaintAll(0, (r, c), Shapes(ways), separate) != 0
  }

  /** `res.ways and mask.max()`: the tile's mask file is written. */
  ghost predicate MaskSaved(ways: seq<Option<Geometry>>, separate: bool) {
    |ways| > 0 && MaskNonZero(ways, separate)
  }

  /**
   * `_process_tile`, without the query and the imagery download: paints every
   * way that could be built onto a fresh all-zero mask and decides whether the
   * mask is saved. It always reports the tile as not yet complete.
   */
  method ProcessTile(ways: seq<Option<Geometry>>, separate: bool) returns (complete: bool, mask: array2<bv8>, save: bool)
    ensures !complete
    ensures mask.Length0 == ImageWidth && mask.Length1 == ImageWidth
    ensures forall r, c :: 0 <= r < ImageWidth && 0 <= c < ImageWidth ==>
      mask[r, c] == PaintAll(0, (r, c), Shapes(ways), separate)
    ensures save <==> MaskSaved(ways, separate)
  {
    complete := false;
    mask := new bv8[ImageWidth, ImageWidth]((r, c) => 0);
    for i := 0 to |ways|
      invariant forall r, c :: 0 <= r < ImageWidth && 0 <= c < ImageWidth ==>
        PaintAll(mask[r, c], (r, c), Shapes(ways[i..]), separate) == PaintAll(0, (r, c), Shapes(ways), separate)
    {
      assert ways[i..][0] == ways[i];
      assert ways[i..][1..] == ways[i + 1..];
      if ways[i].None? {
        assert Shapes(ways[i..]) == [] + Shapes(ways[i + 1..]) == Shapes(ways[i + 1..]);
        continue;
      }
      assert Shapes(ways[i..]) == [ways[i].value] + Shapes(ways[i + 1..]);
      label Painting:
      UpdateMask(mask, [ways[i].value], separate);
      forall r, c | 0 <= r < ImageWidth && 0 <= c < ImageWidth
        ensures PaintAll(mask[r, c], (r, c), Shapes(ways[i + 1..]), separate) == PaintAll(0, (r, c), Shapes(ways), separate)
      {
        PaintAllAppend(old@Painting(mask[r, c]), (r, c), [ways[i].value], Shapes(ways[i + 1..]), separate);
      }
    }
    save := false;
    if |ways| > 0 {
      var m := MaxValue(mask);
      save := m > 0;
    }
    assert Shapes(ways[|ways|..]) == [];
  }

  /* ------------------------------------------------------------------ */
  /* One bounding box at one zoom level                                 */
  /* ------------------------------------------------------------------ */

  /** The names of `tiles`, in order. */
  function Names(tiles: seq<Tile>): (names: seq<string>)
    ensures |names| == |tiles|
    decreases |tiles|
  {
    if tiles == [] then [] else Names(tiles[..|tiles| - 1]) + [TileName(tiles[|tiles| - 1])]
  }

  /** The tiles whose names are not in `loaded`, in enumeration order: the ones that get processed. */
  function Unregistered(tiles: seq<Tile>, loaded: seq<string>): seq<Tile>
    decreases |tiles|
  {
    if tiles == [] then []
    else
      var last := tiles[|tiles| - 1];
      Unregistered(tiles[..|tiles| - 1], loaded) + (if TileName(last) in loaded then [] else [last])
  }

  /** What the run has written: per bbox name the lines of its `tiles.txt`, and the (bbox, tile) masks saved. */
  datatype Store = Store(registries: map<string, seq<string>>, masks: set<(string, string)>)

  /** The names loaded from a bbox's registry; a missing file loads as no names. */
  function Registry(st: Store, bboxName: string): seq<string> {
    if bboxName in st.registries then st.registries[bboxName] else []
  }

  /** The (bbox, tile) masks written while processing `todo`. */
  ghost function SavedMasks(bboxName: string, todo: seq<Tile>, env: Collaborators, separate: bool): set<(string, string)> {
    set t | t in todo && MaskSaved(env.fetch(t), separate) :: (bboxName, TileName(t))
  }

  /**
   * The store after the tiles `todo` of one bbox have been processed: their
   * names appended to the registry it had (which is written only once a
   * name is appended) and their non-empty masks saved.
   */
  ghost function Progress(st: Store, bboxName: string, todo: seq<Tile>, env: Collaborators, separate: bool): Store {
    var registries := if todo == [] then st.registries else st.registries[bboxName := Registry(st, bboxName) + Names(todo)];
    Store(registries, st.masks + SavedMasks(bboxName, todo, env, separate))
  }

  /**
   * `_process_bbox`: the outcome and the new store. The tiles are
   * enumerated (which may raise); every tile whose name was not in the
   * registry when it was loaded is processed and its name appended; the result
   * is true exactly when no tile was processed.
   */
  ghost function RunBbox(st: Store, bboxName: string, bbox: Bbox, zoom: int, separate: bool, env: Collaborators): (Result<bool>, Store) {
    match EnumerateTiles(bbox, zoom, env.tileFor)
    case Err(e) => (Err(e), st)
    case Ok(tiles) =>
      var todo := Unregistered(tiles, Registry(st, bboxName));
      (Ok(todo == []), Progress(st, bboxName, todo, env, separate))
  }

  lemma {:induction false} UnregisteredMembers(tiles: seq<Tile>, loaded: seq<string>, t: Tile)
    ensures t in Unregistered(tiles, loaded) <==> t in tiles && TileName(t) !in loaded
    decreases |tiles|
  {
    if tiles != [] {
      var front := tiles[..|tiles| - 1];
      UnregisteredMembers(front, loaded, t);
      assert tiles == front + [tiles[|tiles| - 1]];
    }
  }

  lemma NamesMembers(tiles: seq<Tile>, n: string)
    ensures n in Names(tiles) <==> exists k :: 0 <= k < |tiles| && TileName(tiles[k]) == n
  {
    forall k | 0 <= k < |tiles| ensures Names(tiles)[k] == TileName(tiles[k]) {
      NameAt(tiles, k);
    }
  }

  /** Nothing is left to process exactly when every enumerated tile's name is already registered. */
  lemma AllRegisteredIffNothingToDo(tiles: seq<Tile>, loaded: seq<string>)
    ensures Unregistered(tiles, loaded) == [] <==> forall t :: t in tiles ==> TileName(t) in loaded
  {
    if Unregistered(tiles, loaded) != [] {
      var t := Unregistered(tiles, loaded)[0];
      UnregisteredMembers(tiles, loaded, t);
    } else {
      forall t | t in tiles ensures TileName(t) in loaded {
        UnregisteredMembers(tiles, loaded, t);
      }
    }
  }

  /** A sequence without repeated entries. */
  predicate NoDuplicates<T(==)>(s: seq<T>) {
    forall i, j :: 0 <= i < j < |s| ==> s[i] != s[j]
  }

  /** Dropping the last entry keeps a sequence free of repeats. */
  lemma {:induction false} NoDuplicatesFront<T>(s: seq<T>)
    requires NoDuplicates(s) && s != []
    ensures NoDuplicates(s[..|s| - 1])
  {
    var front := s[..|s| - 1];
    forall i, j | 0 <= i < j < |front| ensures front[i] != front[j] {
      assert front[i] == s[i] && front[j] == s[j];
    }
  }

  /** The tiles to process inherit the enumeration's lack of repeats. */
  lemma {:induction false} UnregisteredUnique(tiles: seq<Tile>, loaded: seq<string>)
    requires NoDuplicates(tiles)
    ensures NoDuplicates(Unregistered(tiles, loaded))
    decreases |tiles|
  {
    if tiles != [] {
      var front := tiles[..|tiles| - 1];
      var last := tiles[|tiles| - 1];
      NoDuplicatesFront(tiles);
      UnregisteredUnique(front, loaded);
      var u := Unregistered(front, loaded);
      if TileName(last) !in loaded {
        assert last !in u by {
          forall k | 0 <= k < |front| ensures front[k] != last {
            assert front[k] == tiles[k];
          }
          UnregisteredMembers(front, loaded, last);
        }
      } else {
        assert u + [] == u;
      }
    }
  }

  /** Repeat-free tiles have repeat-free names. */
  lemma NamesUnique(tiles: seq<Tile>)
    requires NoDuplicates(tiles)
    ensures NoDuplicates(Names(tiles))
  {
    forall i, j | 0 <= i < j < |tiles| ensures Names(tiles)[i] != Names(tiles)[j] {
      NameAt(tiles, i);
      NameAt(tiles, j);
      TileNameInjective(tiles[i], tiles[j]);
    }
  }

  /** Each processed tile's name is appended exactly once. */
  lemma NamesOfUnregisteredUnique(tiles: seq<Tile>, loaded: seq<string>)
    requires NoDuplicates(tiles)
    ensures NoDuplicates(Names(Unregistered(tiles, loaded)))
  {
    UnregisteredUnique(tiles, loaded);
    NamesUnique(Unregistered(tiles, loaded));
  }

  lemma {:induction false} NameAt(tiles: seq<Tile>, i: nat)
    requires i < |tiles|
    ensures Names(tiles)[i] == TileName(tiles[i])
    decreases |tiles|
  {
    if i < |tiles| - 1 {
      NameAt(tiles[..|tiles| - 1], i);
    }
  }

  /**
   * Appending the names of the unregistered tiles to the registry registers
   * every tile, appends only names that were absent, and keeps a registry
   * free of repeats.
   */
  lemma AppendUnregistered(tiles: seq<Tile>, before: seq<string>)
    requires NoDuplicates(tiles)
    ensures var after := before + Names(Unregistered(tiles, before));
      && (forall t :: t in tiles ==> TileName(t) in after)
      && (forall n :: n in after[|before|..] ==> n !in before)
      && (NoDuplicates(before) ==> NoDuplicates(after))
  {
    var todo := Unregistered(tiles, before);
    var added := Names(todo);
    var after := before + added;
    forall t | t in tiles ensures TileName(t) in after {
      UnregisteredMembers(tiles, before, t);
      if TileName(t) !in before {
        var k :| 0 <= k < |todo| && todo[k] == t;
        NameAt(todo, k);
        assert added[k] == TileName(t);
      }
    }
    forall n | n in added ensures n !in before {
      NamesMembers(todo, n);
      var k :| 0 <= k < |todo| && TileName(todo[k]) == n;
      UnregisteredMembers(tiles, before, todo[k]);
    }
    assert after[|before|..] == added;
    NamesOfUnregisteredUnique(tiles, before);
    if NoDuplicates(before) {
      forall i, j | 0 <= i < j < |after| ensures after[i] != after[j] {
        if i < |before| && j >= |before| {
          assert after[j] in added;
        }
      }
    }
  }

  /**
   * The verdict of `_process_bbox`, when the tiles could be enumerated: true
   * exactly when every enumerated tile was already registered (in particular
   * when no tile was enumerated).
   */
  lemma RunBboxVerdict(st: Store, bboxName: string, bbox: Bbox, zoom: int, separate: bool, env: Collaborators)
    requires EnumerateTiles(bbox, zoom, env.tileFor).Ok?
    ensures var tiles := EnumerateTiles(bbox, zoom, env.tileFor).value;
      RunBbox(st, bboxName, bbox, zoom, separate, env).0 == Ok(forall t :: t in tiles ==> TileName(t) in Registry(st, bboxName))
  {
    AllRegisteredIffNothingToDo(EnumerateTiles(bbox, zoom, env.tileFor).value, Registry(st, bboxName));
  }

  /**
   * The registry after `_process_bbox`: every enumerated tile is registered,
   * the old registry is kept as a prefix, only names that were absent are
   * appended, and a registry without repeats stays without repeats.
   */
  lemma RunBboxRegistry(st: Store, bboxName: string, bbox: Bbox, zoom: int, separate: bool, env: Collaborators)
    requires EnumerateTiles(bbox, zoom, env.tileFor).Ok?
    ensures var tiles := EnumerateTiles(bbox, zoom, env.tileFor).value;
      var after := Registry(RunBbox(st, bboxName, bbox, zoom, separate, env).1, bboxName);
      forall t :: t in tiles ==> TileName(t) in after
    ensures var before, after := Registry(st, bboxName), Registry(RunBbox(st, bboxName, bbox, zoom, separate, env).1, bboxName);
      && before <= after
      && (forall n :: n in after[|before|..] ==> n !in before)
      && (NoDuplicates(before) ==> NoDuplicates(after))
  {
    var tiles := EnumerateTiles(bbox, zoom, env.tileFor).value;
    var before := Registry(st, bboxName);
    var todo := Unregistered(tiles, before);
    var st' := RunBbox(st, bboxName, bbox, zoom, separate, env).1;
    assert Registry(st', bboxName) == before + Names(todo) by {
      if todo == [] {
        assert before + Names(todo) == before;
      }
    }
    EnumerationUnique(bbox, zoom, env.tileFor);
    AppendUnregistered(tiles, before);
  }

  /** `_process_bbox` touches only its own bbox's registry and only adds masks; on an error it changes nothing. */
  lemma RunBboxFrame(st: Store, bboxName: string, bbox: Bbox, zoom: int, separate: bool, env: Collaborators)
    ensures var (r, st') := RunBbox(st, bboxName, bbox, zoom, separate, env);
      && (r.Err? ==> st' == st)
      && (forall other :: other != bboxName ==> Registry(st', other) == Registry(st, other))
      && Registry(st, bboxName) <= Registry(st', bboxName)
      && st.masks <= st'.masks
      && (r == Ok(true) ==> st' == st)
  {
    var (r, st') := RunBbox(st, bboxName, bbox, zoom, separate, env);
    if r == Ok(true) {
      var tiles := EnumerateTiles(bbox, zoom, env.tileFor).value;
      assert SavedMasks(bboxName, Unregistered(tiles, Registry(st, bboxName)), env, separate) == {};
    }
  }


  /** Running `_process_bbox` again on the same bbox and zoom returns true and changes nothing. */
  lemma RunBboxTwice(st: Store, bboxName: string, bbox: Bbox, zoom: int, separate: bool, env: Collaborators)
    requires RunBbox(st, bboxName, bbox, zoom, separate, env).0.Ok?
    ensures var st' := RunBbox(st, bboxName, bbox, zoom, separate, env).1;
      RunBbox(st', bboxName, bbox, zoom, separate, env) == (Ok(true), st')
  {
    var st' := RunBbox(st, bboxName, bbox, zoom, separate, env).1;
    RunBboxRegistry(st, bboxName, bbox, zoom, separate, env);
    RunBboxVerdict(st', bboxName, bbox, zoom, separate, env);
    RunBboxFrame(st', bboxName, bbox, zoom, separate, env);
  }

  /** The names recorded for tiles survive the registry's line format. */
  lemma {:induction false} TileRegistryRoundTrip(tiles: seq<Tile>)
    ensures LoadRegistry(Serialize(Names(tiles))) == Names(tiles)
  {
    var names := Names(tiles);
    forall i | 0 <= i < |names| ensures '\n' !in names[i] && '\r' !in names[i] {
      NameAt(tiles, i);
      TileNameHasNoNewline(tiles[i]);
    }
    RegistryRoundTrip(names);
  }

  /**
   * The store left when the query of the `k`-th tile to process raises (the
   * rate-limit error that `process` retries, say): the tiles before it are
   * processed and registered, the failing one is not.
   */
  ghost function Interrupted(st: Store, bboxName: string, bbox: Bbox, zoom: int, separate: bool, env: Collaborators, k: nat): Store
    requires EnumerateTiles(bbox, zoom, env.tileFor).Ok?
    requires k < |Unregistered(EnumerateTiles(bbox, zoom, env.tileFor).value, Registry(st, bboxName))|
  {
    var todo := Unregistered(EnumerateTiles(bbox, zoom, env.tileFor).value, Registry(st, bboxName));
    Progress(st, bboxName, todo[..k], env, separate)
  }

  lemma {:induction false} NamesAppend(a: seq<Tile>, b: seq<Tile>)
    ensures Names(a + b) == Names(a) + Names(b)
  {
    var joined, parts := Names(a + b), Names(a) + Names(b);
    forall i | 0 <= i < |joined| ensures joined[i] == parts[i] {
      NameAt(a + b, i);
      if i < |a| {
        assert (a + b)[i] == a[i];
        NameAt(a, i);
      } else {
        assert (a + b)[i] == b[i - |a|];
        NameAt(b, i - |a|);
      }
    }
    assert |joined| == |parts|;
  }

  /** Skipping the names of `a`, then those of `b`, is skipping the names of `a + b`. */
  lemma {:induction false} UnregisteredTwice(tiles: seq<Tile>, a: seq<string>, b: seq<string>)
    ensures Unregistered(tiles, a + b) == Unregistered(Unregistered(tiles, a), b)
    decreases |tiles|
  {
    if tiles != [] {
      var front, last := tiles[..|tiles| - 1], tiles[|tiles| - 1];
      UnregisteredTwice(front, a, b);
      var u := Unregistered(front, a);
      if TileName(last) in a {
        assert Unregistered(tiles, a) == u + [] == u;
      } else {
        assert Unregistered(tiles, a) == u + [last];
        assert (u + [last])[..|u|] == u;
      }
    }
  }

  /** Of repeat-free tiles, those whose names are not among the first `k` tiles' names are the rest. */
  lemma {:induction false} UnregisteredAfterPrefix(todo: seq<Tile>, k: nat)
    requires NoDuplicates(todo) && k <= |todo|
    ensures Unregistered(todo, Names(todo[..k])) == todo[k..]
  {
    var done := Names(todo[..k]);
    assert todo == todo[..k] + todo[k..];
    UnregisteredAppend(todo[..k], todo[k..], done);
    AllNamed(todo[..k]);
    forall t | t in todo[k..] ensures TileName(t) !in done {
      var m :| 0 <= m < |todo[k..]| && todo[k..][m] == t;
      assert t == todo[k + m];
      forall j | 0 <= j < k ensures done[j] != TileName(t) {
        NameAt(todo[..k], j);
        TileNameInjective(todo[j], t);
      }
    }
    UnregisteredNone(todo[k..], done);
  }

  /** The entries of `s` that `keep` accepts, in order. */
  function Filter<T>(s: seq<T>, keep: T -> bool): seq<T>
    decreases |s|
  {
    if s == [] then [] else Filter(s[..|s| - 1], keep) + (if keep(s[|s| - 1]) then [s[|s| - 1]] else [])
  }

  lemma {:induction false} FilterAppend<T>(a: seq<T>, b: seq<T>, keep: T -> bool)
    ensures Filter(a + b, keep) == Filter(a, keep) + Filter(b, keep)
    decreases |b|
  {
    if b == [] {
      assert a + b == a;
    } else {
      var b' := b[..|b| - 1];
      FilterAppend(a, b', keep);
      assert (a + b)[..|a + b| - 1] == a + b';
      assert (a + b)[|a + b| - 1] == b[|b| - 1];
    }
  }

  lemma {:induction false} FilterKeepsAll<T>(s: seq<T>, keep: T -> bool)
    requires forall i :: 0 <= i < |s| ==> keep(s[i])
    ensures Filter(s, keep) == s
    decreases |s|
  {
    if s != [] {
      var front := s[..|s| - 1];
      assert forall i :: 0 <= i < |front| ==> front[i] == s[i];
      FilterKeepsAll(front, keep);
      assert front + [s[|s| - 1]] == s;
    }
  }

  /** Whether a tile's name is absent from `loaded`. */
  function NotLoaded(loaded: seq<string>): Tile -> bool {
    t => TileName(t) !in loaded
  }

  /** The tiles to process are those whose names are not loaded. */
  lemma {:induction false} UnregisteredIsFilter(tiles: seq<Tile>, loaded: seq<string>)
    ensures Unregistered(tiles, loaded) == Filter(tiles, NotLoaded(loaded))
    decreases |tiles|
  {
    if tiles != [] {
      UnregisteredIsFilter(tiles[..|tiles| - 1], loaded);
    }
  }

  /** The tiles of `a + b` to process are those of `a`, then those of `b`. */
  lemma UnregisteredAppend(a: seq<Tile>, b: seq<Tile>, loaded: seq<string>)
    ensures Unregistered(a + b, loaded) == Unregistered(a, loaded) + Unregistered(b, loaded)
  {
    UnregisteredIsFilter(a + b, loaded);
    UnregisteredIsFilter(a, loaded);
    UnregisteredIsFilter(b, loaded);
    FilterAppend(a, b, NotLoaded(loaded));
  }

  /** When no tile's name is loaded, every tile is processed. */
  lemma UnregisteredNone(tiles: seq<Tile>, loaded: seq<string>)
    requires forall t :: t in tiles ==> TileName(t) !in loaded
    ensures Unregistered(tiles, loaded) == tiles
  {
    UnregisteredIsFilter(tiles, loaded);
    FilterKeepsAll(tiles, NotLoaded(loaded));
  }

  /** No tile is left once every tile's name is skipped. */
  lemma {:induction false} AllNamed(tiles: seq<Tile>)
    ensures Unregistered(tiles, Names(tiles)) == []
  {
    forall t | t in tiles ensures TileName(t) in Names(tiles) {
      var j :| 0 <= j < |tiles| && tiles[j] == t;
      NameAt(tiles, j);
    }
    AllRegisteredIffNothingToDo(tiles, Names(tiles));
  }

  /**
   * A `_process_bbox` call that raised at its `k`-th tile to process leaves
   * that tile unregistered and the earlier ones registered; running it again
   * then ends exactly as an uninterrupted call would have: the same verdict
   * and the same registries and masks.
   */
  lemma {:induction false} ResumeAfterInterruption(st: Store, bboxName: string, bbox: Bbox, zoom: int, separate: bool, env: Collaborators, k: nat)
    requires EnumerateTiles(bbox, zoom, env.tileFor).Ok?
    requires k < |Unregistered(EnumerateTiles(bbox, zoom, env.tileFor).value, Registry(st, bboxName))|
    ensures var todo := Unregistered(EnumerateTiles(bbox, zoom, env.tileFor).value, Registry(st, bboxName));
      var reg := Registry(Interrupted(st, bboxName, bbox, zoom, separate, env, k), bboxName);
      && TileName(todo[k]) !in reg
      && forall j :: 0 <= j < k ==> TileName(todo[j]) in reg
    ensures RunBbox(Interrupted(st, bboxName, bbox, zoom, separate, env, k), bboxName, bbox, zoom, separate, env)
      == RunBbox(st, bboxName, bbox, zoom, separate, env)
  {
    var tiles := EnumerateTiles(bbox, zoom, env.tileFor).value;
    var before := Registry(st, bboxName);
    var todo := Unregistered(tiles, before);
    var mid := Interrupted(st, bboxName, bbox, zoom, separate, env, k);
    var done := Names(todo[..k]);
    ProgressResume(st, bboxName, todo, k, env, separate);
    EnumerationUnique(bbox, zoom, env.tileFor);
    ResumeTodo(tiles, before, k);
    assert todo[k] in todo[k..];
    UnregisteredMembers(tiles, before + done, todo[k]);
    forall j | 0 <= j < k ensures TileName(todo[j]) in before + done {
      NameAt(todo[..k], j);
    }
    assert RunBbox(mid, bboxName, bbox, zoom, separate, env) == (Ok(false), Progress(mid, bboxName, todo[k..], env, separate));
    assert RunBbox(st, bboxName, bbox, zoom, separate, env) == (Ok(false), Progress(st, bboxName, todo, env, separate));
  }

  /** `_tiles_from_bbox` never gives a tile twice. */
  lemma {:induction false} EnumerationUnique(bbox: Bbox, zoom: int, tileFor: (Point, int) -> (int, int))
    requires EnumerateTiles(bbox, zoom, tileFor).Ok?
    ensures NoDuplicates(EnumerateTiles(bbox, zoom, tileFor).value)
  {
    var (pmin, pmax) := CornerPoints(bbox).value;
    var (x0, y0) := tileFor(pmin, zoom);
    var (x1, y1) := tileFor(pmax, zoom);
    assert EnumerateTiles(bbox, zoom, tileFor).value == Rect(zoom, x0, x1, y0, y1);
    RectDistinct(zoom, x0, x1, y0, y1);
  }

  /** After the first `k` tiles to process are registered, the tiles left to process are the others. */
  lemma {:induction false} ResumeTodo(tiles: seq<Tile>, before: seq<string>, k: nat)
    requires NoDuplicates(tiles)
    requires k <= |Unregistered(tiles, before)|
    ensures var todo := Unregistered(tiles, before);
      Unregistered(tiles, before + Names(todo[..k])) == todo[k..]
  {
    var todo := Unregistered(tiles, before);
    UnregisteredUnique(tiles, before);
    UnregisteredTwice(tiles, before, Names(todo[..k]));
    UnregisteredAfterPrefix(todo, k);
  }

  /** Processing the first `k` tiles, then the others, is processing them all. */
  lemma {:induction false} ProgressResume(st: Store, bboxName: string, todo: seq<Tile>, k: nat, env: Collaborators, separate: bool)
    requires k < |todo|
    ensures var mid := Progress(st, bboxName, todo[..k], env, separate);
      && Registry(mid, bboxName) == Registry(st, bboxName) + Names(todo[..k])
      && Progress(mid, bboxName, todo[k..], env, separate) == Progress(st, bboxName, todo, env, separate)
  {
    var mid := Progress(st, bboxName, todo[..k], env, separate);
    var before, x, y := Registry(st, bboxName), Names(todo[..k]), Names(todo[k..]);
    assert todo[..k] + todo[k..] == todo;
    NamesAppend(todo[..k], todo[k..]);
    RegistriesResume(st.registries, bboxName, before, x, y, mid.registries);
    ProgressMasksResume(st, bboxName, todo, k, env, separate);
  }

  /** The masks saved for the first `k` tiles, then for the others, are those saved for all. */
  lemma {:induction false} ProgressMasksResume(st: Store, bboxName: string, todo: seq<Tile>, k: nat, env: Collaborators, separate: bool)
    requires k <= |todo|
    ensures var mid := Progress(st, bboxName, todo[..k], env, separate);
      Progress(mid, bboxName, todo[k..], env, separate).masks == Progress(st, bboxName, todo, env, separate).masks
  {
    assert todo[..k] + todo[k..] == todo;
    SavedMasksAppend(bboxName, todo[..k], todo[k..], env, separate);
  }

  /** The registry map after appending `x`, then `y`, to one bbox's names. */
  lemma {:induction false} RegistriesResume(regs: map<string, seq<string>>, bboxName: string, before: seq<string>, x: seq<string>, y: seq<string>,
                         mid: map<string, seq<string>>)
    requires before == if bboxName in regs then regs[bboxName] else []
    requires mid == if x == [] then regs else regs[bboxName := before + x]
    ensures (if bboxName in mid then mid[bboxName] else []) == before + x
    ensures mid[bboxName := before + x + y] == regs[bboxName := before + (x + y)]
  {
    assert before + x + y == before + (x + y);
    if x == [] {
      assert before + x == before;
    } else {
      UpdateTwice(regs, bboxName, before + x, before + x + y);
    }
  }

  lemma {:induction false} SavedMasksAppend(bboxName: string, a: seq<Tile>, b: seq<Tile>, env: Collaborators, separate: bool)
    ensures SavedMasks(bboxName, a + b, env, separate) == SavedMasks(bboxName, a, env, separate) + SavedMasks(bboxName, b, env, separate)
  {
    assert forall t :: t in a + b <==> t in a || t in b;
  }

  /* ------------------------------------------------------------------ */
  /* A whole configuration                                              */
  /* ------------------------------------------------------------------ */

  /** The "options" entry of the configuration; an absent key is `None`. */
  datatype Options = Options(zoomLevels: Option<seq<int>>, separateInstances: Option<bool>)

  /** The configuration file's contents; an absent key is `None`. */
  datatype Config = Config(boundingboxes: Option<map<string, Bbox>>, options: Option<Options>)

  /** `config.get("options", {}).get("zoom_levels", [])` */
  function GlobalZoomLevels(config: Config): seq<int> {
    if config.options.Some? && config.options.value.zoomLevels.Some? then config.options.value.zoomLevels.value else []
  }

  /** `config.get("options", {}).get("separate_instances", False)` */
  function SeparateInstances(config: Config): bool {
    config.options.Some? && config.options.value.separateInstances == Some(true)
  }

  /**
   * The zoom levels one bbox is processed at: its own "zoom_levels" when it is
   * a dict with that key (even an empty list), otherwise the global ones.
   */
  function ZoomLevelsFor(globalZoomLevels: seq<int>, bbox: Bbox): (zooms: seq<int>)
    ensures bbox.DictBox? && bbox.zoomLevels.Some? ==> zooms == bbox.zoomLevels.value
    ensures zooms == globalZoomLevels || (bbox.DictBox? && bbox.zoomLevels == Some(zooms))
  {
    if bbox.DictBox? && bbox.zoomLevels.Some? then bbox.zoomLevels.value else globalZoomLevels
  }

  /**
   * The zoom loop for one bbox: `_process_bbox` at each level in turn, the
   * running verdict `acc` turned false by any incomplete call; an error stops
   * the run with the store as it is.
   */
  ghost function RunZooms(acc: bool, st: Store, bboxName: string, bbox: Bbox, zooms: seq<int>, separate: bool, env: Collaborators): (Result<bool>, Store)
    decreases |zooms|
  {
    if zooms == [] then (Ok(acc), st)
    else
      match RunBbox(st, bboxName, bbox, zooms[0], separate, env)
      case (Err(e), st1) => (Err(e), st1)
      case (Ok(complete), st1) => RunZooms(acc && complete, st1, bboxName, bbox, zooms[1..], separate, env)
  }

  /** Continues a run with the bboxes `rest` after one bbox's zoom loop ended in `z`. */
  ghost function ThenBboxes(z: (Result<bool>, Store), bboxes: map<string, Bbox>, rest: seq<string>, globalZoomLevels: seq<int>, separate: bool, env: Collaborators): (Result<bool>, Store)
    requires forall n :: n in rest ==> n in bboxes
  {
    match z
    case (Err(e), st1) => (Err(e), st1)
    case (Ok(acc), st1) => RunBboxes(acc, st1, bboxes, rest, globalZoomLevels, separate, env)
  }

  /** The bbox loop of `_process_internal`, visiting the bboxes in `order`. */
  ghost function RunBboxes(acc: bool, st: Store, bboxes: map<string, Bbox>, order: seq<string>, globalZoomLevels: seq<int>, separate: bool, env: Collaborators): (Result<bool>, Store)
    requires forall n :: n in order ==> n in bboxes
    decreases |order|
  {
    if order == [] then (Ok(acc), st)
    else
      var bbox := bboxes[order[0]];
      var zooms := ZoomLevelsFor(globalZoomLevels, bbox);
      if zooms == [] then (Err(NoZoomLevels(order[0])), st)
      else
        match RunZooms(acc, st, order[0], bbox, zooms, separate, env)
        case (Err(e), st1) => (Err(e), st1)
        case (Ok(acc1), st1) => RunBboxes(acc1, st1, bboxes, order[1..], globalZoomLevels, separate, env)
  }

  /** `order` lists each key of `bboxes` exactly once: what shuffling the keys produces. */
  ghost predicate IsOrderOf(order: seq<string>, bboxes: map<string, Bbox>) {
    NoDuplicates(order) && forall n :: n in order <==> n in bboxes
  }

  /** `_process_internal`: the outcome and the new store, for a given visiting order of the bboxes. */
  ghost function RunConfig(st: Store, config: Config, order: seq<string>, env: Collaborators): (Result<bool>, Store)
    requires config.boundingboxes.Some? ==> IsOrderOf(order, config.boundingboxes.value)
  {
    if config.boundingboxes.None? then (Err(NoBoundingBoxes), st)
    else RunBboxes(true, st, config.boundingboxes.value, order, GlobalZoomLevels(config), SeparateInstances(config), env)
  }

  /** The tiles `_tiles_from_bbox` gives (none when it raises). */
  function TilesAt(bbox: Bbox, zoom: int, tileFor: (Point, int) -> (int, int)): seq<Tile> {
    match EnumerateTiles(bbox, zoom, tileFor)
    case Ok(tiles) => tiles
    case Err(_) => []
  }

  /** Every zoom level can be enumerated without an error. */
  ghost predicate Enumerable(bbox: Bbox, zooms: seq<int>, tileFor: (Point, int) -> (int, int)) {
    forall z :: z in zooms ==> EnumerateTiles(bbox, z, tileFor).Ok?
  }

  /** Every tile of the bbox at one zoom level is in `reg`. */
  ghost predicate RecordedAt(reg: seq<string>, bbox: Bbox, zoom: int, tileFor: (Point, int) -> (int, int)) {
    forall t :: t in TilesAt(bbox, zoom, tileFor) ==> TileName(t) in reg
  }

  /** Every tile of the bbox at every zoom level of `zooms` is in `reg`. */
  ghost predicate Recorded(reg: seq<string>, bbox: Bbox, zooms: seq<int>, tileFor: (Point, int) -> (int, int)) {
    forall z :: z in zooms ==> RecordedAt(reg, bbox, z, tileFor)
  }

  /** Every bbox of `order` has zoom levels that can all be enumerated. */
  ghost predicate Runnable(bboxes: map<string, Bbox>, order: seq<string>, globalZoomLevels: seq<int>, tileFor: (Point, int) -> (int, int))
    requires forall n :: n in order ==> n in bboxes
  {
    forall n :: n in order ==>
      ZoomLevelsFor(globalZoomLevels, bboxes[n]) != [] && Enumerable(bboxes[n], ZoomLevelsFor(globalZoomLevels, bboxes[n]), tileFor)
  }

  /** Every tile of every bbox of `order` at each of its zoom levels is in that bbox's registry. */
  ghost predicate AllRecorded(st: Store, bboxes: map<string, Bbox>, order: seq<string>, globalZoomLevels: seq<int>, tileFor: (Point, int) -> (int, int))
    requires forall n :: n in order ==> n in bboxes
  {
    forall n :: n in order ==> Recorded(Registry(st, n), bboxes[n], ZoomLevelsFor(globalZoomLevels, bboxes[n]), tileFor)
  }

  lemma RecordedAtGrows(reg: seq<string>, reg': seq<string>, bbox: Bbox, zoom: int, tileFor: (Point, int) -> (int, int))
    requires reg <= reg' && RecordedAt(reg, bbox, zoom, tileFor)
    ensures RecordedAt(reg', bbox, zoom, tileFor)
  {
    forall t | t in TilesAt(bbox, zoom, tileFor) ensures TileName(t) in reg' {
      var k :| 0 <= k < |reg| && reg[k] == TileName(t);
      assert reg'[k] == TileName(t);
    }
  }

  lemma RecordedGrows(reg: seq<string>, reg': seq<string>, bbox: Bbox, zooms: seq<int>, tileFor: (Point, int) -> (int, int))
    requires reg <= reg' && Recorded(reg, bbox, zooms, tileFor)
    ensures Recorded(reg', bbox, zooms, tileFor)
  {
    forall z | z in zooms ensures RecordedAt(reg', bbox, z, tileFor) {
      RecordedAtGrows(reg, reg', bbox, z, tileFor);
    }
  }

  /**
   * The zoom loop of one bbox touches only that bbox's registry, which only
   * grows; a true verdict needs a true `acc`, and an all-complete loop
   * changes nothing.
   */
  lemma {:induction false} RunZoomsFrame(acc: bool, st: Store, bboxName: string, bbox: Bbox, zooms: seq<int>, separate: bool, env: Collaborators)
    ensures var run := RunZooms(acc, st, bboxName, bbox, zooms, separate, env);
      && (forall other :: other != bboxName ==> Registry(run.1, other) == Registry(st, other))
      && Registry(st, bboxName) <= Registry(run.1, bboxName)
      && (run.0 == Ok(true) ==> acc && run.1 == st)
    decreases |zooms|
  {
    if zooms != [] {
      RunBboxFrame(st, bboxName, bbox, zooms[0], separate, env);
      var step := RunBbox(st, bboxName, bbox, zooms[0], separate, env);
      if step.0.Ok? {
        RunZoomsFrame(acc && step.0.value, step.1, bboxName, bbox, zooms[1..], separate, env);
      }
    }
  }

  /** The zoom loop of one bbox raises exactly when some zoom level cannot be enumerated. */
  lemma {:induction false} RunZoomsRaises(acc: bool, st: Store, bboxName: string, bbox: Bbox, zooms: seq<int>, separate: bool, env: Collaborators)
    ensures RunZooms(acc, st, bboxName, bbox, zooms, separate, env).0.Ok? <==> Enumerable(bbox, zooms, env.tileFor)
    decreases |zooms|
  {
    if zooms != [] {
      assert forall z :: z in zooms <==> z == zooms[0] || z in zooms[1..];
      var step := RunBbox(st, bboxName, bbox, zooms[0], separate, env);
      if step.0.Ok? {
        RunZoomsRaises(acc && step.0.value, step.1, bboxName, bbox, zooms[1..], separate, env);
      }
    }
  }

  /**
   * The verdict of the zoom loop of one bbox: `acc`, and "every tile at
   * every level was registered before the loop".
   */
  lemma {:induction false} RunZoomsVerdict(acc: bool, st: Store, bboxName: string, bbox: Bbox, zooms: seq<int>, separate: bool, env: Collaborators)
    requires RunZooms(acc, st, bboxName, bbox, zooms, separate, env).0.Ok?
    ensures RunZooms(acc, st, bboxName, bbox, zooms, separate, env).0.value
      == (acc && Recorded(Registry(st, bboxName), bbox, zooms, env.tileFor))
    decreases |zooms|
  {
    if zooms != [] {
      var z0, rest := zooms[0], zooms[1..];
      assert forall z :: z in zooms <==> z == z0 || z in rest;
      RunBboxFrame(st, bboxName, bbox, z0, separate, env);
      var step := RunBbox(st, bboxName, bbox, z0, separate, env);
      RunBboxVerdict(st, bboxName, bbox, z0, separate, env);
      var complete := step.0.value;
      assert complete == RecordedAt(Registry(st, bboxName), bbox, z0, env.tileFor);
      RunZoomsVerdict(acc && complete, step.1, bboxName, bbox, rest, separate, env);
      if complete {
        assert step.1 == st;
      }
    }
  }

  /** After the zoom loop of one bbox, every tile at every level is registered. */
  lemma {:induction false} RunZoomsRecords(acc: bool, st: Store, bboxName: string, bbox: Bbox, zooms: seq<int>, separate: bool, env: Collaborators)
    requires RunZooms(acc, st, bboxName, bbox, zooms, separate, env).0.Ok?
    ensures Recorded(Registry(RunZooms(acc, st, bboxName, bbox, zooms, separate, env).1, bboxName), bbox, zooms, env.tileFor)
    decreases |zooms|
  {
    if zooms != [] {
      var z0, rest := zooms[0], zooms[1..];
      assert forall z :: z in zooms <==> z == z0 || z in rest;
      var step := RunBbox(st, bboxName, bbox, z0, separate, env);
      RunBboxRegistry(st, bboxName, bbox, z0, separate, env);
      var reg1 := Registry(step.1, bboxName);
      assert RecordedAt(reg1, bbox, z0, env.tileFor);
      var acc1 := acc && step.0.value;
      RunZoomsRecords(acc1, step.1, bboxName, bbox, rest, separate, env);
      RunZoomsFrame(acc1, step.1, bboxName, bbox, rest, separate, env);
      RecordedAtGrows(reg1, Registry(RunZooms(acc1, step.1, bboxName, bbox, rest, separate, env).1, bboxName), bbox, z0, env.tileFor);
    }
  }

  lemma NoDuplicatesTail<T>(s: seq<T>)
    requires s != [] && NoDuplicates(s)
    ensures NoDuplicates(s[1..]) && s[0] !in s[1..]
  {
    forall k | 0 <= k < |s| - 1 ensures s[1..][k] != s[0] { assert s[1..][k] == s[k + 1]; }
    forall i, j | 0 <= i < j < |s| - 1 ensures s[1..][i] != s[1..][j] { assert s[1..][i] == s[i + 1] && s[1..][j] == s[j + 1]; }
  }

  /**
   * The bbox loop touches only the registries of the bboxes it visits, which
   * only grow, and an all-complete run changes nothing.
   */
  lemma {:induction false} RunBboxesFrame(acc: bool, st: Store, bboxes: map<string, Bbox>, order: seq<string>, globalZoomLevels: seq<int>, separate: bool, env: Collaborators)
    requires forall n :: n in order ==> n in bboxes
    ensures var run := RunBboxes(acc, st, bboxes, order, globalZoomLevels, separate, env);
      && (forall n :: Registry(st, n) <= Registry(run.1, n))
      && (forall n :: n !in order ==> Registry(run.1, n) == Registry(st, n))
      && (run.0 == Ok(true) ==> acc && run.1 == st)
    decreases |order|
  {
    if order != [] {
      var n0 := order[0];
      assert forall n :: n in order <==> n == n0 || n in order[1..];
      var zooms := ZoomLevelsFor(globalZoomLevels, bboxes[n0]);
      if zooms != [] {
        RunZoomsFrame(acc, st, n0, bboxes[n0], zooms, separate, env);
        var step := RunZooms(acc, st, n0, bboxes[n0], zooms, separate, env);
        if step.0.Ok? {
          RunBboxesFrame(step.0.value, step.1, bboxes, order[1..], globalZoomLevels, separate, env);
        }
      }
    }
  }

  /** The bbox loop raises exactly when some bbox has no zoom levels or a level that cannot be enumerated. */
  lemma {:induction false} RunBboxesRaises(acc: bool, st: Store, bboxes: map<string, Bbox>, order: seq<string>, globalZoomLevels: seq<int>, separate: bool, env: Collaborators)
    requires forall n :: n in order ==> n in bboxes
    ensures RunBboxes(acc, st, bboxes, order, globalZoomLevels, separate, env).0.Ok? <==> Runnable(bboxes, order, globalZoomLevels, env.tileFor)
    decreases |order|
  {
    if order != [] {
      var n0 := order[0];
      assert forall n :: n in order <==> n == n0 || n in order[1..];
      var zooms := ZoomLevelsFor(globalZoomLevels, bboxes[n0]);
      if zooms != [] {
        RunZoomsRaises(acc, st, n0, bboxes[n0], zooms, separate, env);
        var step := RunZooms(acc, st, n0, bboxes[n0], zooms, separate, env);
        if step.0.Ok? {
          RunBboxesRaises(step.0.value, step.1, bboxes, order[1..], globalZoomLevels, separate, env);
        }
      }
    }
  }

  /**
   * The verdict of the bbox loop: `acc`, and "every tile of every bbox at
   * each of its levels was registered before the loop".
   */
  lemma {:induction false} RunBboxesVerdict(acc: bool, st: Store, bboxes: map<string, Bbox>, order: seq<string>, globalZoomLevels: seq<int>, separate: bool, env: Collaborators)
    requires forall n :: n in order ==> n in bboxes
    requires NoDuplicates(order)
    requires RunBboxes(acc, st, bboxes, order, globalZoomLevels, separate, env).0.Ok?
    ensures RunBboxes(acc, st, bboxes, order, globalZoomLevels, separate, env).0.value
      == (acc && AllRecorded(st, bboxes, order, globalZoomLevels, env.tileFor))
    decreases |order|
  {
    if order != [] {
      var n0, rest := order[0], order[1..];
      assert forall n :: n in order <==> n == n0 || n in rest;
      NoDuplicatesTail(order);
      var bbox := bboxes[n0];
      var zooms := ZoomLevelsFor(globalZoomLevels, bbox);
      var step := RunZooms(acc, st, n0, bbox, zooms, separate, env);
      RunZoomsVerdict(acc, st, n0, bbox, zooms, separate, env);
      RunZoomsFrame(acc, st, n0, bbox, zooms, separate, env);
      RunBboxesVerdict(step.0.value, step.1, bboxes, rest, globalZoomLevels, separate, env);
      assert AllRecorded(step.1, bboxes, rest, globalZoomLevels, env.tileFor) == AllRecorded(st, bboxes, rest, globalZoomLevels, env.tileFor) by {
        forall n | n in rest ensures Registry(step.1, n) == Registry(st, n) { }
      }
    }
  }

  /** After the bbox loop, every tile of every bbox at each of its levels is registered. */
  lemma {:induction false} RunBboxesRecords(acc: bool, st: Store, bboxes: map<string, Bbox>, order: seq<string>, globalZoomLevels: seq<int>, separate: bool, env: Collaborators)
    requires forall n :: n in order ==> n in bboxes
    requires RunBboxes(acc, st, bboxes, order, globalZoomLevels, separate, env).0.Ok?
    ensures AllRecorded(RunBboxes(acc, st, bboxes, order, globalZoomLevels, separate, env).1, bboxes, order, globalZoomLevels, env.tileFor)
    decreases |order|
  {
    if order != [] {
      var n0, rest := order[0], order[1..];
      assert forall n :: n in order <==> n == n0 || n in rest;
      var bbox := bboxes[n0];
      var zooms := ZoomLevelsFor(globalZoomLevels, bbox);
      var step := RunZooms(acc, st, n0, bbox, zooms, separate, env);
      RunZoomsRecords(acc, st, n0, bbox, zooms, separate, env);
      RunBboxesRecords(step.0.value, step.1, bboxes, rest, globalZoomLevels, separate, env);
      RunBboxesFrame(step.0.value, step.1, bboxes, rest, globalZoomLevels, separate, env);
      var st' := RunBboxes(step.0.value, step.1, bboxes, rest, globalZoomLevels, separate, env).1;
      RecordedGrows(Registry(step.1, n0), Registry(st', n0), bbox, zooms, env.tileFor);
    }
  }

  /**
   * The verdict of `_process_internal`: when the run does not raise, it
   * returns true exactly when every tile of every bbox at each of its zoom
   * levels was already registered before the run.
   */
  lemma RunConfigVerdict(st: Store, config: Config, order: seq<string>, env: Collaborators)
    requires config.boundingboxes.Some? && IsOrderOf(order, config.boundingboxes.value)
    requires RunConfig(st, config, order, env).0.Ok?
    ensures RunConfig(st, config, order, env).0.value
      == AllRecorded(st, config.boundingboxes.value, order, GlobalZoomLevels(config), env.tileFor)
  {
    RunBboxesVerdict(true, st, config.boundingboxes.value, order, GlobalZoomLevels(config), SeparateInstances(config), env);
  }

  /**
   * The configuration errors: no "boundingboxes" raises before anything is
   * done, and a bbox whose zoom levels are empty makes the run raise.
   */
  lemma RunConfigErrors(st: Store, config: Config, order: seq<string>, env: Collaborators)
    requires config.boundingboxes.Some? ==> IsOrderOf(order, config.boundingboxes.value)
    ensures config.boundingboxes.None? ==> RunConfig(st, config, order, env) == (Err(NoBoundingBoxes), st)
    ensures config.boundingboxes.Some? && (exists n :: n in order && ZoomLevelsFor(GlobalZoomLevels(config), config.boundingboxes.value[n]) == [])
      ==> RunConfig(st, config, order, env).0.Err?
  {
    if config.boundingboxes.Some? {
      RunBboxesRaises(true, st, config.boundingboxes.value, order, GlobalZoomLevels(config), SeparateInstances(config), env);
    }
  }

  /**
   * A dict bbox whose own "zoom_levels" is an empty list makes the run raise,
   * even when the options give zoom levels.
   */
  lemma EmptyOverrideRaises(st: Store, config: Config, order: seq<string>, env: Collaborators, bboxName: string)
    requires config.boundingboxes.Some? && IsOrderOf(order, config.boundingboxes.value)
    requires bboxName in config.boundingboxes.value
    requires var bbox := config.boundingboxes.value[bboxName]; bbox.DictBox? && bbox.zoomLevels == Some([])
    ensures RunConfig(st, config, order, env).0.Err?
  {
    assert ZoomLevelsFor(GlobalZoomLevels(config), config.boundingboxes.value[bboxName]) == [];
    RunConfigErrors(st, config, order, env);
  }

  /**
   * Resumption reaches a fixpoint: after a run that did not raise, running
   * the same configuration again, in any visiting order, returns true and
   * changes nothing.
   */
  lemma SecondRunComplete(st: Store, config: Config, order: seq<string>, order2: seq<string>, env: Collaborators)
    requires config.boundingboxes.Some?
    requires IsOrderOf(order, config.boundingboxes.value) && IsOrderOf(order2, config.boundingboxes.value)
    requires RunConfig(st, config, order, env).0.Ok?
    ensures var st' := RunConfig(st, config, order, env).1;
      RunConfig(st', config, order2, env) == (Ok(true), st')
  {
    var bboxes, zooms, separate := config.boundingboxes.value, GlobalZoomLevels(config), SeparateInstances(config);
    var st' := RunConfig(st, config, order, env).1;
    RunBboxesRaises(true, st, bboxes, order, zooms, separate, env);
    RunBboxesRecords(true, st, bboxes, order, zooms, separate, env);
    assert Runnable(bboxes, order2, zooms, env.tileFor);
    assert AllRecorded(st', bboxes, order2, zooms, env.tileFor);
    RunBboxesRaises(true, st', bboxes, order2, zooms, separate, env);
    RunBboxesVerdict(true, st', bboxes, order2, zooms, separate, env);
    RunBboxesFrame(true, st', bboxes, order2, zooms, separate, env);
  }

  /* ------------------------------------------------------------------ */
  /* The stateful operations                                            */
  /* ------------------------------------------------------------------ */

  lemma UnregisteredSnoc(tiles: seq<Tile>, i: nat, loaded: seq<string>)
    requires i < |tiles|
    ensures Unregistered(tiles[..i + 1], loaded)
      == Unregistered(tiles[..i], loaded) + (if TileName(tiles[i]) in loaded then [] else [tiles[i]])
  {
    assert tiles[..i + 1][..i] == tiles[..i];
  }

  /** The store after one tile's name is appended to its bbox's registry and, when `save`, its mask is written. */
  function AfterRecord(st: Store, bboxName: string, name: string, save: bool): Store {
    Store(st.registries[bboxName := Registry(st, bboxName) + [name]],
          if save then st.masks + {(bboxName, name)} else st.masks)
  }

  /** Processing one more tile appends its name to the registry and saves its mask when that is non-empty. */
  lemma ProgressStep(st: Store, bboxName: string, todo: seq<Tile>, t: Tile, env: Collaborators, separate: bool, save: bool)
    requires save == MaskSaved(env.fetch(t), separate)
    ensures var p := Progress(st, bboxName, todo, env, separate);
      Progress(st, bboxName, todo + [t], env, separate) == AfterRecord(p, bboxName, TileName(t), save)
  {
    var p := Progress(st, bboxName, todo, env, separate);
    RegistriesStep(st.registries, p.registries, bboxName, Registry(st, bboxName), todo, t, Registry(p, bboxName));
    MasksStep(st.masks, p.masks, bboxName, todo, t, env, separate, save);
  }

  /** One processed tile appends its name to the bbox's registry. */
  lemma RegistriesStep(before: map<string, seq<string>>, regs: map<string, seq<string>>, bboxName: string,
                       loaded: seq<string>, todo: seq<Tile>, t: Tile, current: seq<string>)
    requires loaded == if bboxName in before then before[bboxName] else []
    requires regs == if todo == [] then before else before[bboxName := loaded + Names(todo)]
    requires current == if bboxName in regs then regs[bboxName] else []
    ensures regs[bboxName := current + [TileName(t)]] == before[bboxName := loaded + Names(todo + [t])]
  {
    var name := TileName(t);
    assert Names(todo + [t]) == Names(todo) + [name] by {
      assert (todo + [t])[..|todo|] == todo;
    }
    assert current + [name] == loaded + Names(todo + [t]) by {
      if todo == [] {
        assert current == loaded;
        assert Names(todo) == [];
      } else {
        assert current == loaded + Names(todo);
      }
    }
    if todo != [] {
      UpdateTwice(before, bboxName, loaded + Names(todo), current + [name]);
    }
  }

  lemma UpdateTwice<K, V>(m: map<K, V>, k: K, a: V, b: V)
    ensures m[k := a][k := b] == m[k := b]
  {
  }

  /** One processed tile adds its mask when that is saved. */
  lemma MasksStep(before: set<(string, string)>, masks: set<(string, string)>, bboxName: string,
                  todo: seq<Tile>, t: Tile, env: Collaborators, separate: bool, save: bool)
    requires masks == before + SavedMasks(bboxName, todo, env, separate)
    requires save == MaskSaved(env.fetch(t), separate)
    ensures (if save then masks + {(bboxName, TileName(t))} else masks) == before + SavedMasks(bboxName, todo + [t], env, separate)
  {
    SavedMasksSnoc(bboxName, todo, t, env, separate);
  }

  lemma SavedMasksSnoc(bboxName: string, todo: seq<Tile>, t: Tile, env: Collaborators, separate: bool)
    ensures SavedMasks(bboxName, todo + [t], env, separate)
      == SavedMasks(bboxName, todo, env, separate) + (if MaskSaved(env.fetch(t), separate) then {(bboxName, TileName(t))} else {})
  {
  }

  /** The bbox loop at position `i`: the zoom-level check, then that bbox's zoom loop, then the rest. */
  lemma BboxEntry(acc: bool, st: Store, bboxes: map<string, Bbox>, order: seq<string>, i: nat, globalZoomLevels: seq<int>, separate: bool, env: Collaborators)
    requires forall n :: n in order ==> n in bboxes
    requires i < |order|
    ensures forall n :: n in order[i + 1..] ==> n in bboxes
    ensures var zooms := ZoomLevelsFor(globalZoomLevels, bboxes[order[i]]);
      RunBboxes(acc, st, bboxes, order[i..], globalZoomLevels, separate, env)
        == if zooms == [] then (Err(NoZoomLevels(order[i])), st)
           else ThenBboxes(RunZooms(acc, st, order[i], bboxes[order[i]], zooms, separate, env), bboxes, order[i + 1..], globalZoomLevels, separate, env)
  {
    assert order[i..][0] == order[i];
    assert order[i..][1..] == order[i + 1..];
  }

  /** The zoom loop at position `j`: `_process_bbox` at that level, then the rest unless it raised. */
  lemma ZoomStep(acc: bool, st: Store, bboxName: string, bbox: Bbox, zooms: seq<int>, j: nat, separate: bool, env: Collaborators)
    requires j < |zooms|
    ensures RunZooms(acc, st, bboxName, bbox, zooms[j..], separate, env)
      == match RunBbox(st, bboxName, bbox, zooms[j], separate, env)
         case (Err(e), st1) => (Err(e), st1)
         case (Ok(complete), st1) => RunZooms(acc && complete, st1, bboxName, bbox, zooms[j + 1..], separate, env)
  {
    assert zooms[j..][0] == zooms[j];
    assert zooms[j..][1..] == zooms[j + 1..];
  }

  /** The output directory tree a run writes into: the tile registries and the saved masks. */
  class Workspace {
    var registries: map<string, seq<string>>
    var masks: set<(string, string)>

    constructor ()
      ensures registries == map[] && masks == {}
    {
      registries := map[];
      masks := {};
    }

    function State(): Store
      reads this
    {
      Store(registries, masks)
    }

    /** Appends a processed tile's name to the bbox's registry, after writing its mask when `save`. */
    method RecordTile(bboxName: string, name: string, save: bool)
      modifies this
      ensures State() == AfterRecord(old(State()), bboxName, name, save)
    {
      if save {
        masks := masks + {(bboxName, name)};
      }
      var current := if bboxName in registries then registries[bboxName] else [];
      registries := registries[bboxName := current + [name]];
    }

    /**
     * `_process_bbox`: enumerates the tiles, loads the registry once, and for
     * each tile not in it processes the tile (saving its mask when that is
     * non-empty) and appends its name.
     */
    method ProcessBbox(bboxName: string, bbox: Bbox, zoom: int, separate: bool, env: Collaborators) returns (r: Result<bool>)
      modifies this
      ensures (r, State()) == RunBbox(old(State()), bboxName, bbox, zoom, separate, env)
    {
      var enumerated := TilesFromBbox(bbox, zoom, env.tileFor);
      if enumerated.Err? {
        return Err(enumerated.error);
      }
      var tiles := enumerated.value;
      var loaded := if bboxName in registries then registries[bboxName] else [];
      var allDownloaded := true;
      ghost var todo: seq<Tile> := [];
      for i := 0 to |tiles|
        invariant todo == Unregistered(tiles[..i], loaded)
        invariant allDownloaded == (todo == [])
        invariant State() == Progress(old(State()), bboxName, todo, env, separate)
      {
        var t := tiles[i];
        var name := TileName(t);
        UnregisteredSnoc(tiles, i, loaded);
        if name in loaded {
          continue;
        }
        var complete, _, save := ProcessTile(env.fetch(t), separate);
        ProgressStep(old(State()), bboxName, todo, t, env, separate, save);
        RecordTile(bboxName, name, save);
        allDownloaded := complete;
        todo := todo + [t];
      }
      assert tiles[..|tiles|] == tiles;
      r := Ok(allDownloaded);
    }

    /**
     * `_process_internal`, visiting the bboxes in `order` (the shuffled key
     * list): every bbox at each of its zoom levels, the verdict being the
     * conjunction of the per-call verdicts; errors propagate at once.
     */
    method ProcessInternal(config: Config, order: seq<string>, env: Collaborators) returns (r: Result<bool>)
      requires config.boundingboxes.Some? ==> IsOrderOf(order, config.boundingboxes.value)
      modifies this
      ensures (r, State()) == RunConfig(old(State()), config, order, env)
    {
      if config.boundingboxes.None? {
        return Err(NoBoundingBoxes);
      }
      var bboxes := config.boundingboxes.value;
      var globalZoomLevels := GlobalZoomLevels(config);
      var separate := SeparateInstances(config);
      ghost var target := RunConfig(old(State()), config, order, env);
      var allDownloaded := true;
      for i := 0 to |order|
        invariant RunBboxes(allDownloaded, State(), bboxes, order[i..], globalZoomLevels, separate, env) == target
      {
        var name := order[i];
        var bbox := bboxes[name];
        var zooms := ZoomLevelsFor(globalZoomLevels, bbox);
        BboxEntry(allDownloaded, State(), bboxes, order, i, globalZoomLevels, separate, env);
        if zooms == [] {
          return Err(NoZoomLevels(name));
        }
        for j := 0 to |zooms|
          invariant ThenBboxes(RunZooms(allDownloaded, State(), name, bbox, zooms[j..], separate, env),
                               bboxes, order[i + 1..], globalZoomLevels, separate, env) == target
        {
          ZoomStep(allDownloaded, State(), name, bbox, zooms, j, separate, env);
          var complete := ProcessBbox(name, bbox, zooms[j], separate, env);
          if complete.Err? {
            return Err(complete.error);
          }
          if !complete.value {
            allDownloaded := false;
          }
        }
        assert zooms[|zooms|..] == [];
      }
      assert order[|order|..] == [];
      r := Ok(allDownloaded);
    }
  }
}
