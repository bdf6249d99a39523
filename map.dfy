/** The map (tiled/map.go): the orientation and render-order parsers, the resolution of every
    global ID reference of a tile layer against the map's tilesets, the walk over the group
    tree, and the order in which a decoded map is finished: tilesets sorted, top-level layers
    resolved, then the layers of the groups. */
module Maps {
  import opened Wrappers
  import opened Errors
  import opened Text
  import opened GlobalIds
  import opened Properties
  import opened ObjectLayers
  import opened Tilesets
  import opened TileLayers
  import opened Groups
  import Lookup

  // ---------------------------------------------------------------------------------------
  // Orientation and render order

  datatype Orientation = Orthogonal | Isometric | Staggered | Hexagonal

  datatype RenderOrder = RightDown | RightUp | LeftDown | LeftUp

  function OrientationName(o: Orientation): string
  {
    match o
    case Orthogonal => "orthogonal"
    case Isometric => "isometric"
    case Staggered => "staggered"
    case Hexagonal => "hexagonal"
  }

  /** `Orientation.UnmarshalText`: one of the four names in any letter case; anything else,
      the empty text included, is an error carrying the lower-cased text. (The source lowers
      the text a second time before the switch, which changes nothing: see ToLowerIdempotent.) */
  function ParseOrientation(text: string): (r: Result<Orientation>)
    ensures r.Ok? <==> ToLower(text) in {"orthogonal", "isometric", "staggered", "hexagonal"}
    ensures r.Ok? ==> OrientationName(r.value) == ToLower(text)
    ensures r.Err? ==> r.error == UnknownOrientation(ToLower(text))
  {
    var s := ToLower(text);
    if s == "orthogonal" then Ok(Orthogonal)
    else if s == "isometric" then Ok(Isometric)
    else if s == "staggered" then Ok(Staggered)
    else if s == "hexagonal" then Ok(Hexagonal)
    else Err(UnknownOrientation(s))
  }

  /** Every orientation's name parses back to it, in any letter case. */
  lemma OrientationNames(o: Orientation, text: string)
    requires ToLower(text) == OrientationName(o)
    ensures ParseOrientation(text) == Ok(o)
  {
  }

  function RenderOrderName(r: RenderOrder): string
  {
    match r
    case RightDown => "right-down"
    case RightUp => "right-up"
    case LeftDown => "left-down"
    case LeftUp => "left-up"
  }

  /** `RenderOrder.UnmarshalText`: one of the four names in any letter case; anything else is
      an error carrying the lower-cased text. */
  function ParseRenderOrder(text: string): (r: Result<RenderOrder>)
    ensures r.Ok? <==> ToLower(text) in {"right-down", "right-up", "left-down", "left-up"}
    ensures r.Ok? ==> RenderOrderName(r.value) == ToLower(text)
    ensures r.Err? ==> r.error == UnknownRenderOrder(ToLower(text))
  {
    var s := ToLower(text);
    if s == "right-down" then Ok(RightDown)
    else if s == "right-up" then Ok(RightUp)
    else if s == "left-down" then Ok(LeftDown)
    else if s == "left-up" then Ok(LeftUp)
    else Err(UnknownRenderOrder(s))
  }

  /** Every render order's name parses back to it, in any letter case. */
  lemma RenderOrderNames(r: RenderOrder, text: string)
    requires ToLower(text) == RenderOrderName(r)
    ensures ParseRenderOrder(text) == Ok(r)
  {
  }

  // ---------------------------------------------------------------------------------------
  // Resolving one reference

  /** The index of the tileset the scan of `decodeTileDefs` settles on for a bare ID: the last
      tileset before the first one whose first global ID exceeds the bare ID; nothing when the
      list is empty or its first tileset already starts above the bare ID. */
  function Owner(tss: seq<Tileset>, bid: int): (r: Option<nat>)
    ensures r.None? <==> |tss| == 0 || bid < tss[0].firstGlobalID
    ensures r.Some? ==> r.value < |tss|
    ensures r.Some? ==> forall k :: 0 <= k <= r.value ==> tss[k].firstGlobalID <= bid
    ensures r.Some? && r.value + 1 < |tss| ==> bid < tss[r.value + 1].firstGlobalID
  {
    match Lookup.FirstIndex(tss, (t: Tileset) => bid < t.firstGlobalID)
    case None => if |tss| == 0 then None else Some(|tss| - 1)
    case Some(k) => if k == 0 then None else Some(k - 1)
  }

  /** On a list sorted by first global ID, the owner is a tileset with the greatest first
      global ID not above the bare ID. */
  lemma OwnerIsGreatestBelow(tss: seq<Tileset>, bid: int)
    requires SortedByFirstGlobalID(tss) && Owner(tss, bid).Some?
    ensures forall j :: 0 <= j < |tss| && tss[j].firstGlobalID <= bid ==>
      tss[j].firstGlobalID <= tss[Owner(tss, bid).value].firstGlobalID
  {
  }

  /** With tilesets starting at 1, 10 and 50: 9 belongs to the first, 49 to the second, 50 to
      the third, and 0 to none. */
  lemma OwnerExample(tss: seq<Tileset>)
    requires |tss| == 3
    requires tss[0].firstGlobalID == 1 && tss[1].firstGlobalID == 10 && tss[2].firstGlobalID == 50
    ensures Owner(tss, 9) == Some(0) && Owner(tss, 49) == Some(1) && Owner(tss, 50) == Some(2)
    ensures Owner(tss, 0).None?
  {
    var a, b, c := Owner(tss, 9), Owner(tss, 49), Owner(tss, 50);
    assert a.value < 1;
    assert b.value < 2;
  }

  /** The tile record of a tileset for a local ID: only looked up when the tileset lists
      tiles, and a missing record is simply absent. */
  function TileOf(ts: Tileset, id: TileID): (r: Option<Tile>)
    ensures r.Some? ==> ts.tiles.Some? && r.value in ts.tiles.value && r.value.tileID == id
    ensures r.None? ==> ts.tiles.None? || forall t :: t in ts.tiles.value ==> t.tileID != id
  {
    if ts.tiles.Some? then TilesWithID(ts.tiles.value, id) else None
  }

  /** The cell a non-empty reference resolves to in its tileset. */
  function DefOf(g: GlobalID, ts: Tileset): (r: TileDef)
    ensures !r.nil && r.globalID == g && r.tileset == Some(ts)
    ensures r.horizontallyFlipped == IsFlippedHorizontally(g)
    ensures r.verticallyFlipped == IsFlippedVertically(g)
    ensures r.diagonallyFlipped == IsFlippedDiagonally(g)
    ensures ts.firstGlobalID <= BareID(g) ==> r.id + ts.firstGlobalID == BareID(g)
    ensures r.tile == TileOf(ts, r.id)
  {
    var id := TileIDOf(g, ts.firstGlobalID);
    TileDef(false, id, g, Some(ts), TileOf(ts, id),
            IsFlippedHorizontally(g), IsFlippedVertically(g), IsFlippedDiagonally(g))
  }

  /** One reference of `decodeTileDefs`: bare ID 0 is the empty cell whatever its flags; any
      other reference needs an owning tileset, or it is an error naming the whole global ID. */
  function ResolveRef(g: GlobalID, tss: seq<Tileset>): (r: Result<TileDef>)
    ensures BareID(g) == 0 ==> r == Ok(NilTileDef)
    ensures BareID(g) != 0 ==> (r.Err? <==> Owner(tss, BareID(g)).None?)
    ensures r.Err? ==> r.error == NoSuitableTileset(g)
    ensures BareID(g) != 0 && r.Ok? ==> r.value == DefOf(g, tss[Owner(tss, BareID(g)).value])
  {
    if BareID(g) == 0 then Ok(NilTileDef)
    else match Owner(tss, BareID(g))
      case None => Err(NoSuitableTileset(g))
      case Some(i) => Ok(DefOf(g, tss[i]))
  }

  /** Every combination of flags over bare ID 0 is the empty cell. */
  lemma EmptyCellIgnoresFlags(h: bool, v: bool, d: bool, tss: seq<Tileset>)
    ensures ResolveRef(Compose(h, v, d, 0), tss) == Ok(NilTileDef)
  {
    ComposeRoundTrip(h, v, d, 0);
  }

  /** A resolved non-empty cell lies in its tileset: its local ID plus the tileset's first
      global ID is the bare ID, and on a sorted list no later-starting tileset could own it. */
  lemma ResolvedCellInTileset(g: GlobalID, tss: seq<Tileset>)
    requires BareID(g) != 0 && ResolveRef(g, tss).Ok?
    ensures var d := ResolveRef(g, tss).value;
      d.tileset.Some? && d.id + d.tileset.value.firstGlobalID == BareID(g)
    ensures SortedByFirstGlobalID(tss) ==>
      forall j :: 0 <= j < |tss| && tss[j].firstGlobalID <= BareID(g) ==>
        tss[j].firstGlobalID <= ResolveRef(g, tss).value.tileset.value.firstGlobalID
  {
    var i := Owner(tss, BareID(g)).value;
    assert tss[i].firstGlobalID <= BareID(g);
    if SortedByFirstGlobalID(tss) {
      OwnerIsGreatestBelow(tss, BareID(g));
    }
  }

  function Resolver(tss: seq<Tileset>): GlobalID -> Result<TileDef>
  {
    (g: GlobalID) => ResolveRef(g, tss)
  }

  /** The cells of a layer's references, in reference order, up to the first reference that
      fails, and that reference's error. */
  function ResolveRefs(refs: seq<GlobalID>, tss: seq<Tileset>): (seq<TileDef>, Option<Error>)
  {
    Collect(refs, Resolver(tss))
  }

  /** The cells of a layer: up to the first failure, one cell per reference in reference
      order, each the resolution of its reference, so a cell is empty exactly where its
      reference's bare ID is 0; a failure is the error of the reference after the last cell. */
  lemma ResolvedCells(refs: seq<GlobalID>, tss: seq<Tileset>)
    ensures var (defs, e) := ResolveRefs(refs, tss);
      |defs| <= |refs| && (e.None? <==> |defs| == |refs|) &&
      (forall k :: 0 <= k < |defs| ==> ResolveRef(refs[k], tss) == Ok(defs[k])) &&
      (forall k :: 0 <= k < |defs| ==> (defs[k].nil <==> BareID(refs[k]) == 0)) &&
      (e.Some? ==> ResolveRef(refs[|defs|], tss) == Err(e.value))
  {
    CollectSpec(refs, Resolver(tss));
    var (defs, e) := ResolveRefs(refs, tss);
    forall k | 0 <= k < |defs|
      ensures ResolveRef(refs[k], tss) == Ok(defs[k]) && (defs[k].nil <==> BareID(refs[k]) == 0)
    {
      assert Resolver(tss)(refs[k]) == Ok(defs[k]);
    }
    if e.Some? {
      assert Resolver(tss)(refs[|defs|]) == Err(e.value);
    }
  }

  // ---------------------------------------------------------------------------------------
  // Resolving a layer

  /** The scan of `decodeTileDefs`: walk the tilesets in order, keeping the last one seen, and
      stop at the first one that starts above the bare ID. */
  method ScanTilesets(tss: seq<Tileset>, bid: int) returns (ts: Option<Tileset>)
    ensures Owner(tss, bid).None? ==> ts.None?
    ensures Owner(tss, bid).Some? ==> ts == Some(tss[Owner(tss, bid).value])
  {
    ts := None;
    var j := 0;
    while j < |tss|
      invariant 0 <= j <= |tss|
      invariant forall k :: 0 <= k < j ==> tss[k].firstGlobalID <= bid
      invariant ts == if j == 0 then None else Some(tss[j - 1])
    {
      if bid < tss[j].firstGlobalID {
        break;
      }
      ts := Some(tss[j]);
      j := j + 1;
    }
  }

  /** The body of the `decodeTileDefs` loop for one reference: the empty cell for bare ID 0;
      otherwise the scan for the owning tileset, its local ID, its tile record if the tileset
      lists tiles, and the flags. */
  method ResolveCell(g: GlobalID, tss: seq<Tileset>) returns (r: Result<TileDef>)
    ensures r == ResolveRef(g, tss)
  {
    var bid := BareID(g);
    if bid == 0 {
      return Ok(NilTileDef);
    }
    var ts := ScanTilesets(tss, bid);
    if ts.None? {
      return Err(NoSuitableTileset(g));
    }
    var tile: Option<Tile> := None;
    var id := TileIDOf(g, ts.value.firstGlobalID);
    if ts.value.tiles.Some? {
      tile := TilesWithID(ts.value.tiles.value, id);
    }
    return Ok(TileDef(false, id, g, ts, tile,
                      IsFlippedHorizontally(g), IsFlippedVertically(g), IsFlippedDiagonally(g)));
  }

  /** `decodeTileDefs`: append one cell per reference, in order; the first reference without
      an owning tileset stops the loop with its error, keeping the cells appended before it
      and the references. Only on success are the references released. */
  method DecodeTileDefs(l: TileLayer, tss: seq<Tileset>) returns (err: Option<Error>)
    modifies l
    ensures (ListsOf(l), err) == ResolveLayer(old(ListsOf(l)), tss)
  {
    var refs := l.tileGlobalRefs;
    ghost var appended: seq<TileDef> := [];
    var i := 0;
    while i < |refs|
      invariant 0 <= i <= |refs| && |appended| == i
      invariant forall k :: 0 <= k < i ==> Resolver(tss)(refs[k]) == Ok(appended[k])
      invariant l.tileGlobalRefs == refs
      invariant l.tileDefs == old(l.tileDefs) + appended
    {
      var def := ResolveCell(refs[i], tss);
      assert Resolver(tss)(refs[i]) == def;
      if def.Err? {
        CollectOf(refs, Resolver(tss), appended, Some(def.error));
        return Some(def.error);
      }
      l.tileDefs := l.tileDefs + [def.value];
      appended := appended + [def.value];
      i := i + 1;
    }
    CollectOf(refs, Resolver(tss), appended, None);
    l.tileGlobalRefs := [];
    return None;
  }

  // ---------------------------------------------------------------------------------------
  // Resolving lists of layers and the group tree

  /** The two lists of a layer that resolution changes. */
  datatype Lists = Lists(refs: seq<GlobalID>, defs: seq<TileDef>)

  function ListsOf(l: TileLayer): Lists
    reads l
  {
    Lists(l.tileGlobalRefs, l.tileDefs)
  }

  /** The lists of each layer of `ls`, in order. */
  function States(ls: seq<TileLayer>): (r: seq<Lists>)
    reads set l | l in ls
    ensures |r| == |ls|
  {
    if ls == [] then [] else States(ls[..|ls| - 1]) + [ListsOf(ls[|ls| - 1])]
  }


  lemma {:induction false} StatesAppend(a: seq<TileLayer>, b: seq<TileLayer>)
    ensures States(a + b) == States(a) + States(b)
  {
    if b == [] {
      assert a + b == a;
    } else {
      var n := |b| - 1;
      assert (a + b)[..|a + b| - 1] == a + b[..n];
      StatesAppend(a, b[..n]);
    }
  }


  /** What `decodeTileDefs` makes of a layer's lists: the cells of its references appended;
      the references released on success and kept on failure; and the error, if any. */
  function ResolveLayer(s: Lists, tss: seq<Tileset>): (Lists, Option<Error>)
  {
    var (cells, e) := ResolveRefs(s.refs, tss);
    (Lists(if e.None? then [] else s.refs, s.defs + cells), e)
  }

  /** `step` applied to each state in order until it reports an error: the states it
      produced, the states after the failing one left as they were, and the error. */
  function InOrder<S>(ss: seq<S>, step: S -> (S, Option<Error>)): (r: (seq<S>, Option<Error>))
    ensures |r.0| == |ss|
  {
    if ss == [] then ([], None)
    else
      var (first, e) := step(ss[0]);
      if e.Some? then ([first] + ss[1..], e)
      else
        var (rest, e2) := InOrder(ss[1..], step);
        ([first] + rest, e2)
  }

  /** The position of the first state on which `step` fails, or the number of states. */
  function FirstFailure<S>(ss: seq<S>, step: S -> (S, Option<Error>)): (f: nat)
    ensures f <= |ss|
    ensures forall k :: 0 <= k < f ==> step(ss[k]).1.None?
    ensures f < |ss| ==> step(ss[f]).1.Some?
  {
    if ss == [] || step(ss[0]).1.Some? then 0 else 1 + FirstFailure(ss[1..], step)
  }

  /** What InOrder does to each state: those before the first failure are stepped, the
      failing one is stepped too, the ones after it are left as they were, and the error is
      the failing step's. */
  lemma {:induction false} InOrderSpec<S>(ss: seq<S>, step: S -> (S, Option<Error>))
    ensures var (out, e) := InOrder(ss, step);
      var f := FirstFailure(ss, step);
      (e.None? <==> f == |ss|) &&
      (forall k :: 0 <= k <= f && k < |ss| ==> out[k] == step(ss[k]).0) &&
      (f < |ss| ==> e == step(ss[f]).1) &&
      (forall k :: f < k < |ss| ==> out[k] == ss[k])
  {
    if ss != [] && step(ss[0]).1.None? {
      InOrderSpec(ss[1..], step);
    }
  }

  /** When InOrder over `a` succeeds, InOrder over `a + b` goes on over `b`. */
  lemma {:induction false} InOrderThen<S>(a: seq<S>, b: seq<S>, step: S -> (S, Option<Error>))
    requires InOrder(a, step).1.None?
    ensures InOrder(a + b, step) == (InOrder(a, step).0 + InOrder(b, step).0, InOrder(b, step).1)
  {
    if a == [] {
      assert a + b == b && [] + InOrder(b, step).0 == InOrder(b, step).0;
    } else {
      assert (a + b)[0] == a[0] && (a + b)[1..] == a[1..] + b;
      var first := step(a[0]).0;
      InOrderThen(a[1..], b, step);
      var rest, rb := InOrder(a[1..], step).0, InOrder(b, step).0;
      assert [first] + rest + rb == [first] + (rest + rb);
    }
  }

  /** When InOrder over `a` fails, InOrder over `a + b` fails the same way and leaves `b`. */
  lemma {:induction false} InOrderStops<S>(a: seq<S>, b: seq<S>, step: S -> (S, Option<Error>))
    requires InOrder(a, step).1.Some?
    ensures InOrder(a + b, step) == (InOrder(a, step).0 + b, InOrder(a, step).1)
  {
    assert (a + b)[0] == a[0] && (a + b)[1..] == a[1..] + b;
    var first := step(a[0]).0;
    if step(a[0]).1.Some? {
      assert [first] + a[1..] + b == [first] + (a[1..] + b);
    } else {
      InOrderStops(a[1..], b, step);
      var rest := InOrder(a[1..], step).0;
      assert [first] + rest + b == [first] + (rest + b);
    }
  }

  /** InOrder over `a + b` is InOrder over `a`, then, only if that succeeds, over `b`. */
  lemma InOrderAppend<S>(a: seq<S>, b: seq<S>, step: S -> (S, Option<Error>))
    ensures InOrder(a, step).1.Some? ==>
      InOrder(a + b, step) == (InOrder(a, step).0 + b, InOrder(a, step).1)
    ensures InOrder(a, step).1.None? ==>
      InOrder(a + b, step) == (InOrder(a, step).0 + InOrder(b, step).0, InOrder(b, step).1)
  {
    if InOrder(a, step).1.Some? {
      InOrderStops(a, b, step);
    } else {
      InOrderThen(a, b, step);
    }
  }

  /** InOrder over one state is that state's step. */
  lemma InOrderOne<S>(x: S, step: S -> (S, Option<Error>))
    ensures InOrder([x], step) == ([step(x).0], step(x).1)
  {
    assert [x][1..] == [];
    assert [step(x).0] + [] == [step(x).0];
  }

  /** When every step succeeds, InOrder gives exactly their results and no error. */
  lemma {:induction false} InOrderAllOk<S>(ss: seq<S>, outs: seq<S>, step: S -> (S, Option<Error>))
    requires |outs| == |ss|
    requires forall k :: 0 <= k < |ss| ==> step(ss[k]) == (outs[k], None)
    ensures InOrder(ss, step) == (outs, None)
  {
    if ss != [] {
      assert forall k :: 0 <= k < |ss| - 1 ==> ss[1..][k] == ss[k + 1] && outs[1..][k] == outs[k + 1];
      InOrderAllOk(ss[1..], outs[1..], step);
      assert outs == [outs[0]] + outs[1..];
    }
  }

  /** When the steps before position i succeed and the one at i fails, InOrder gives their
      results, the failing step's state, the states after it unchanged, and its error. */
  lemma {:induction false} InOrderFails<S>(ss: seq<S>, outs: seq<S>, i: nat, step: S -> (S, Option<Error>))
    requires i < |ss| && |outs| == i
    requires forall k :: 0 <= k < i ==> step(ss[k]) == (outs[k], None)
    requires step(ss[i]).1.Some?
    ensures InOrder(ss, step) == (outs + [step(ss[i]).0] + ss[i + 1..], step(ss[i]).1)
  {
    if i > 0 {
      assert forall k :: 0 <= k < i - 1 ==> ss[1..][k] == ss[k + 1] && outs[1..][k] == outs[k + 1];
      assert step(ss[0]) == (outs[0], None) && ss[1..][i - 1] == ss[i];
      InOrderFails(ss[1..], outs[1..], i - 1, step);
      assert ss[1..][i..] == ss[i + 1..];
      assert outs + [step(ss[i]).0] + ss[i + 1..] ==
        [outs[0]] + (outs[1..] + [step(ss[i]).0] + ss[i + 1..]);
    } else {
      assert outs + [step(ss[0]).0] + ss[1..] == [step(ss[0]).0] + ss[1..];
    }
  }

  /** The resolution of one layer's lists, as a step of InOrder. */
  function Resolution(tss: seq<Tileset>): Lists -> (Lists, Option<Error>)
  {
    s => ResolveLayer(s, tss)
  }

  /** Resolving layers in order against the tilesets, stopping at the first failure: the
      lists each layer ends with, and the error that stopped the work. */
  function ResolveInOrder(ss: seq<Lists>, tss: seq<Tileset>): (seq<Lists>, Option<Error>)
  {
    InOrder(ss, Resolution(tss))
  }

  /** What resolving in order does to each layer: the layers before the first failing one are
      resolved (every reference turned into a cell and the references released), the failing
      one has the cells before its bad reference appended and keeps its references, the ones
      after it are untouched, and the error is the failing layer's. */
  lemma ResolveInOrderSpec(ss: seq<Lists>, tss: seq<Tileset>)
    ensures var (out, e) := ResolveInOrder(ss, tss);
      var f := FirstFailure(ss, Resolution(tss));
      |out| == |ss| && f <= |ss| && (e.None? <==> f == |ss|) &&
      (forall k :: 0 <= k < f ==>
        ResolveRefs(ss[k].refs, tss).1.None? &&
        out[k] == Lists([], ss[k].defs + ResolveRefs(ss[k].refs, tss).0)) &&
      (f < |ss| ==> (e == ResolveRefs(ss[f].refs, tss).1 && e.Some? &&
                     out[f] == Lists(ss[f].refs, ss[f].defs + ResolveRefs(ss[f].refs, tss).0))) &&
      (forall k :: f < k < |ss| ==> out[k] == ss[k])
  {
    InOrderSpec(ss, Resolution(tss));
    var f := FirstFailure(ss, Resolution(tss));
    forall k | 0 <= k <= f && k < |ss|
      ensures Resolution(tss)(ss[k]) == ResolveLayer(ss[k], tss)
    {
    }
  }

  /** The loop over a layer list (`for _, tl := range ...` in `Map.UnmarshalXML` and
      `decodeGroupTileDefs`): resolve each layer in order, returning the first error. */
  method DecodeLayerList(ls: seq<TileLayer>, tss: seq<Tileset>) returns (err: Option<Error>)
    requires Distinct(ls)
    modifies set l | l in ls
    ensures (States(ls), err) == ResolveInOrder(old(States(ls)), tss)
  {
    ghost var start := States(ls);
    assert start[..0] == [] && [] + start[0..] == start;
    var i := 0;
    while i < |ls|
      invariant 0 <= i <= |ls|
      invariant InOrder(start[..i], Resolution(tss)).1.None?
      invariant States(ls) == InOrder(start[..i], Resolution(tss)).0 + start[i..]
    {
      ghost var outs := InOrder(start[..i], Resolution(tss)).0;
      assert (outs + start[i..])[i] == start[i];
      err := DecodeLayerAt(ls, i, tss);
      ReplaceNext(outs, ListsOf(ls[i]), start, i);
      InOrderStep(start, i, Resolution(tss));
      if err.Some? {
        return;
      }
      i := i + 1;
    }
    assert start[..i] == start;
    assert InOrder(start, Resolution(tss)).0 + start[i..] == InOrder(start, Resolution(tss)).0;
    err := None;
  }

  /** The body of the loop over a layer list, at position i: layer i is resolved and the
      others keep their lists. */
  method DecodeLayerAt(ls: seq<TileLayer>, i: nat, tss: seq<Tileset>) returns (err: Option<Error>)
    requires i < |ls| && Distinct(ls)
    modifies ls[i]
    ensures States(ls) == old(States(ls))[i := ListsOf(ls[i])]
    ensures (ListsOf(ls[i]), err) == Resolution(tss)(old(States(ls))[i])
  {
    ghost var start := States(ls);
    ghost var before, after := ls[..i], ls[i + 1..];
    DistinctAt(ls, i);
    StatesSplit(before, [ls[i]], after);
    StatesOne(ls[i]);
    ghost var pre := ListsOf(ls[i]);
    assert start == States(before) + [pre] + States(after);
    assert start[i] == pre;
    err := DecodeTileDefs(ls[i], tss);
    ghost var now := ListsOf(ls[i]);
    StatesOne(ls[i]);
    StatesSplit(before, [ls[i]], after);
    assert States(ls) == States(before) + [now] + States(after);
    ReplaceMiddle(States(before), pre, now, States(after));
  }

  /** Replacing the entry between two parts. */
  lemma ReplaceMiddle<T>(p: seq<T>, x: T, y: T, q: seq<T>)
    ensures (p + [x] + q)[|p| := y] == p + [y] + q
  {
  }

  /** Replacing the entry after a prefix of i new entries, in front of the old ones from i. */
  lemma ReplaceNext<T>(done: seq<T>, x: T, s: seq<T>, i: nat)
    requires |done| == i < |s|
    ensures (done + s[i..])[i := x] == done + [x] + s[i + 1..]
  {
    assert s[i..] == [s[i]] + s[i + 1..];
    ReplaceMiddle(done, s[i], x, s[i + 1..]);
  }

  /** InOrder one state further: the prefix up to i + 1 after the prefix up to i succeeded,
      and the outcome for the whole sequence when the step at i fails. */
  lemma InOrderStep<S>(ss: seq<S>, i: nat, step: S -> (S, Option<Error>))
    requires i < |ss| && InOrder(ss[..i], step).1.None?
    ensures InOrder(ss[..i + 1], step) ==
      (InOrder(ss[..i], step).0 + [step(ss[i]).0], step(ss[i]).1)
    ensures step(ss[i]).1.Some? ==>
      InOrder(ss, step) == (InOrder(ss[..i], step).0 + [step(ss[i]).0] + ss[i + 1..], step(ss[i]).1)
  {
    SplitAt(ss, i);
    InOrderOne(ss[i], step);
    InOrderNext(ss[..i], [ss[i]], ss[i + 1..], step);
  }

  /** A sequence around its position i. */
  lemma SplitAt<T>(s: seq<T>, i: nat)
    requires i < |s|
    ensures s[..i + 1] == s[..i] + [s[i]]
    ensures s == s[..i] + [s[i]] + s[i + 1..]
  {
    assert s == s[..i] + s[i..];
  }

  lemma StatesOne(l: TileLayer)
    ensures States([l]) == [ListsOf(l)]
  {
    assert [l][..0] == [];
  }

  /** Position i of a list without repeats: the list is what comes before it, it, and what
      comes after it, and it occurs in neither part. */
  lemma DistinctAt(ls: seq<TileLayer>, i: nat)
    requires i < |ls| && Distinct(ls)
    ensures ls == ls[..i] + [ls[i]] + ls[i + 1..]
    ensures ls[i] !in ls[..i] && ls[i] !in ls[i + 1..]
  {
    assert ls == ls[..i] + [ls[i]] + ls[i + 1..];
    var rest := ls[i + 1..];
    assert forall k :: 0 <= k < |rest| ==> rest[k] == ls[i + 1 + k];
  }

  /** A tile layer list and then a group list, the shape `Map.UnmarshalXML` and the body of
      the `decodeGroupTileDefs` loop share: resolve the layers of the list in order, then walk
      the groups; the first error ends the work. */
  method DecodeTree(ls: seq<TileLayer>, gl: seq<Group>, tss: seq<Tileset>) returns (err: Option<Error>)
    requires Distinct(ls + Layers(gl))
    modifies set l | l in ls + Layers(gl)
    ensures (States(ls + Layers(gl)), err) == ResolveInOrder(old(States(ls + Layers(gl))), tss)
    decreases gl, 2
  {
    ghost var nested := Layers(gl);
    ghost var before := States(nested);
    StatesAppend(ls, nested);
    DistinctSplit(ls, nested);
    InOrderAppend(States(ls), before, Resolution(tss));
    err := DecodeLayerList(ls, tss);
    assert States(nested) == before;
    StatesAppend(ls, nested);
    if err.Some? {
      return;
    }
    ghost var between := States(ls);
    err := DecodeGroupTileDefs(gl, tss);
    assert States(ls) == between;
    StatesAppend(ls, nested);
  }

  /** `decodeGroupTileDefs`: for each group in order, resolve its own tile layers, then walk
      its nested groups; the first error ends the walk. The layers are visited in the order
      of Layers. */
  method DecodeGroupTileDefs(gl: seq<Group>, tss: seq<Tileset>) returns (err: Option<Error>)
    requires Distinct(Layers(gl))
    modifies set l | l in Layers(gl)
    ensures (States(Layers(gl)), err) == ResolveInOrder(old(States(Layers(gl))), tss)
    decreases gl, 1
  {
    ghost var start := States(Layers(gl));
    WalkBegins(gl, start, tss);
    var i := 0;
    while i < |gl|
      invariant 0 <= i <= |gl|
      invariant Walked(gl, i, start, tss)
    {
      ghost var cur := States(Layers(gl));
      ghost var n, m := |LayersUpTo(gl, i)|, |LayersUpTo(gl, i + 1)|;
      err := DecodeGroupAt(gl, i, tss);
      WalkStep(cur, start, n, m, tss);
      if err.Some? {
        return;
      }
      i := i + 1;
    }
    WalkEnds(gl, start, tss);
    err := None;
  }

  /** Before any group, nothing is resolved. */
  lemma WalkBegins(gl: seq<Group>, start: seq<Lists>, tss: seq<Tileset>)
    requires start == States(Layers(gl))
    ensures Walked(gl, 0, start, tss)
  {
    assert start[..0] == [] && [] + start[0..] == start;
  }

  /** After every group, every layer is resolved. */
  lemma WalkEnds(gl: seq<Group>, start: seq<Lists>, tss: seq<Tileset>)
    requires Walked(gl, |gl|, start, tss)
    ensures (States(Layers(gl)), None) == ResolveInOrder(start, tss)
  {
    var n := |Layers(gl)|;
    assert start[..n] == start;
    assert ResolveInOrder(start, tss).0 + start[n..] == ResolveInOrder(start, tss).0;
  }

  /** Where the walk over a group list stands before group i: the layers of the groups before
      it are resolved, without error, and the others untouched. */
  ghost predicate Walked(gl: seq<Group>, i: nat, start: seq<Lists>, tss: seq<Tileset>)
    reads set l | l in Layers(gl)
  {
    i <= |gl| &&
    var n := |LayersUpTo(gl, i)|;
    |start| == |Layers(gl)| && n <= |Layers(gl)| &&
    ResolveInOrder(start[..n], tss).1.None? &&
    States(Layers(gl)) == ResolveInOrder(start[..n], tss).0 + start[n..]
  }

  /** The layers of a group list split at group i: those of the groups before it, those of
      group i, and the rest; on a list without repeats the three share no layer. */
  lemma GroupStep(gl: seq<Group>, i: nat) returns (rest: seq<TileLayer>)
    requires i < |gl| && Distinct(Layers(gl))
    ensures var done := LayersUpTo(gl, i);
      var group := OwnLayers(gl[i]) + Layers(gl[i].groups);
      LayersUpTo(gl, i + 1) == done + group && Layers(gl) == done + group + rest &&
      Distinct(group) &&
      (forall l :: l in group ==> l !in done && l !in rest && l in Layers(gl)) &&
      (forall l :: l in done ==> l !in rest)
  {
    var all := Layers(gl);
    var done := LayersUpTo(gl, i);
    var group := OwnLayers(gl[i]) + Layers(gl[i].groups);
    GroupSplit(gl, i);
    rest := all[|done + group|..];
    DistinctSplit(done + group, rest);
    DistinctSplit(done, group);
    assert forall l :: l in group ==> l in done + group;
    assert forall l :: l in done ==> l in done + group;
  }

  /** The states of three consecutive parts of a list. */
  lemma StatesSplit(a: seq<TileLayer>, b: seq<TileLayer>, c: seq<TileLayer>)
    ensures States(a + b + c) == States(a) + States(b) + States(c)
  {
    StatesAppend(a + b, c);
    StatesAppend(a, b);
  }

  /** Two ways of cutting the same sequence agree piece by piece. */
  lemma Cut3<T>(w: seq<T>, s: seq<T>, d: seq<T>, g: seq<T>, r: seq<T>)
    requires |w| == |d| <= |d| + |g| <= |s| && w + s[|w|..] == d + g + r
    ensures d == w && g == s[|d|..|d| + |g|] && r == s[|d| + |g|..]
  {
    var x := d + g + r;
    assert forall k :: 0 <= k < |d| ==> d[k] == x[k];
    assert forall k :: 0 <= k < |g| ==> g[k] == x[|d| + k];
    assert forall k :: 0 <= k < |r| ==> r[k] == x[|d| + |g| + k];
  }

  /** Continuing InOrder from a prefix `p` that succeeded, over the next part `q`: the
      prefix grows by that part's outcome, and a failure there is the outcome for the whole
      sequence, whatever follows. */
  lemma InOrderNext<S>(p: seq<S>, q: seq<S>, r: seq<S>, step: S -> (S, Option<Error>))
    requires InOrder(p, step).1.None?
    ensures InOrder(p + q, step) == (InOrder(p, step).0 + InOrder(q, step).0, InOrder(q, step).1)
    ensures InOrder(q, step).1.Some? ==>
      InOrder(p + q + r, step) == (InOrder(p, step).0 + InOrder(q, step).0 + r, InOrder(q, step).1)
  {
    InOrderThen(p, q, step);
    if InOrder(q, step).1.Some? {
      InOrderStops(p + q, r, step);
    }
  }

  /** The body of the `decodeGroupTileDefs` loop, for group i: the layers of that group (the
      positions n to m of the list's layers) are resolved in order, the others keep their
      lists. */
  method DecodeGroupAt(gl: seq<Group>, i: nat, tss: seq<Tileset>) returns (err: Option<Error>)
    requires i < |gl| && Distinct(Layers(gl))
    modifies set l | l in Layers(gl)
    ensures var s := old(States(Layers(gl)));
      var n, m := |LayersUpTo(gl, i)|, |LayersUpTo(gl, i + 1)|;
      n <= m <= |s| &&
      States(Layers(gl)) == s[..n] + ResolveInOrder(s[n..m], tss).0 + s[m..] &&
      err == ResolveInOrder(s[n..m], tss).1
    decreases gl, 0
  {
    ghost var s := States(Layers(gl));
    ghost var done := LayersUpTo(gl, i);
    ghost var group := OwnLayers(gl[i]) + Layers(gl[i].groups);
    ghost var rest := GroupStep(gl, i);
    ghost var n, m := |done|, |done| + |group|;
    StatesSplit(done, group, rest);
    Cut3(s[..n], s, States(done), States(group), States(rest));
    err := DecodeTree(OwnLayers(gl[i]), gl[i].groups, tss);
    assert States(done) == s[..n] && States(rest) == s[m..];
    StatesSplit(done, group, rest);
  }

  /** The walk one group further, on values: from the lists `cur` the layers held before group
      i, whose layers are the positions n to m, to those after it. */
  lemma WalkStep(cur: seq<Lists>, start: seq<Lists>, n: nat, m: nat, tss: seq<Tileset>)
    requires n <= m <= |start| == |cur|
    requires ResolveInOrder(start[..n], tss).1.None?
    requires cur == ResolveInOrder(start[..n], tss).0 + start[n..]
    ensures var (g, e) := ResolveInOrder(cur[n..m], tss);
      var next := cur[..n] + g + cur[m..];
      (e.None? ==> ResolveInOrder(start[..m], tss).1.None? &&
                   next == ResolveInOrder(start[..m], tss).0 + start[m..]) &&
      (e.Some? ==> (next, e) == ResolveInOrder(start, tss))
  {
    var w := ResolveInOrder(start[..n], tss).0;
    assert cur[..n] == w && cur[n..m] == start[n..m] && cur[m..] == start[m..];
    assert start[..m] == start[..n] + start[n..m];
    assert start == start[..n] + start[n..m] + start[m..];
    InOrderNext(start[..n], start[n..m], start[m..], Resolution(tss));
  }

  // ---------------------------------------------------------------------------------------
  // The map

  /** `sort.Sort(byFirstGlobalID(...))`: reorder the tilesets in place into ascending order of
      first global ID. */
  method SortByFirstGlobalID(a: array<Tileset>)
    modifies a
    ensures SortedByFirstGlobalID(a[..])
    ensures multiset(a[..]) == multiset(old(a[..]))
  {
    var i := 0;
    while i < a.Length
      invariant 0 <= i <= a.Length
      invariant SortedByFirstGlobalID(a[..i])
      invariant multiset(a[..]) == multiset(old(a[..]))
    {
      InsertLast(a, i);
      i := i + 1;
    }
    assert a[..i] == a[..];
  }

  /** One insertion step: move a[i] left past the larger first global IDs before it, so that
      the sorted prefix a[..i] grows to a[..i + 1]. */
  method InsertLast(a: array<Tileset>, i: int)
    requires 0 <= i < a.Length && SortedByFirstGlobalID(a[..i])
    modifies a
    ensures SortedByFirstGlobalID(a[..i + 1])
    ensures multiset(a[..]) == multiset(old(a[..]))
    ensures a[i + 1..] == old(a[i + 1..])
  {
    var j := i;
    while j > 0 && a[j - 1].firstGlobalID > a[j].firstGlobalID
      invariant 0 <= j <= i
      invariant multiset(a[..]) == multiset(old(a[..]))
      invariant a[i + 1..] == old(a[i + 1..])
      invariant Inserting(a[..], j, i)
    {
      ghost var s := a[..];
      InsertingSwap(s, j, i);
      SwapKeepsElements(s, j - 1, j);
      a[j - 1], a[j] := a[j], a[j - 1];
      assert a[..] == s[j - 1 := s[j]][j := s[j - 1]];
      j := j - 1;
    }
    InsertingDone(a[..], j, i);
  }

  /** The state of an insertion step: the element at j is being moved into a[..i + 1]; the
      others are in order and all after it are larger. */
  ghost predicate Inserting(s: seq<Tileset>, j: int, i: int)
  {
    0 <= j <= i < |s| &&
    (forall p, q :: 0 <= p < q <= i && p != j && q != j ==>
      s[p].firstGlobalID <= s[q].firstGlobalID) &&
    (forall q :: j < q <= i ==> s[j].firstGlobalID < s[q].firstGlobalID)
  }

  /** Swapping the moving element with a larger left neighbour keeps the insertion state. */
  lemma InsertingSwap(s: seq<Tileset>, j: int, i: int)
    requires Inserting(s, j, i) && 0 < j && s[j - 1].firstGlobalID > s[j].firstGlobalID
    ensures Inserting(s[j - 1 := s[j]][j := s[j - 1]], j - 1, i)
  {
  }

  /** Swapping two entries keeps the same elements. */
  lemma SwapKeepsElements<T>(s: seq<T>, x: int, y: int)
    requires 0 <= x < |s| && 0 <= y < |s|
    ensures multiset(s[x := s[y]][y := s[x]]) == multiset(s)
  {
  }

  /** Once the left neighbour is not larger, the first i + 1 elements are in order. */
  lemma InsertingDone(s: seq<Tileset>, j: int, i: int)
    requires Inserting(s, j, i)
    requires j == 0 || s[j - 1].firstGlobalID <= s[j].firstGlobalID
    ensures SortedByFirstGlobalID(s[..i + 1])
  {
  }

  /** A <map> as the XML decoder leaves it; only the tileset order and the layers' reference
      and cell lists change afterwards. */
  class Map {
    const version: string
    const className: string
    const orientation: Orientation
    const renderOrder: RenderOrder
    const width: int
    const height: int
    const tileWidth: int
    const tileHeight: int
    const infinite: bool
    const properties: Option<seq<Property>>
    const tilesets: array<Tileset>
    const tileLayers: Option<seq<TileLayer>>
    const objectLayers: Option<seq<ObjectLayer>>
    const groups: seq<Group>

    constructor (version: string, className: string, orientation: Orientation,
                 renderOrder: RenderOrder, width: int, height: int, tileWidth: int,
                 tileHeight: int, infinite: bool, properties: Option<seq<Property>>,
                 tilesets: array<Tileset>, tileLayers: Option<seq<TileLayer>>,
                 objectLayers: Option<seq<ObjectLayer>>, groups: seq<Group>)
      ensures this.version == version && this.className == className
      ensures this.orientation == orientation && this.renderOrder == renderOrder
      ensures this.width == width && this.height == height
      ensures this.tileWidth == tileWidth && this.tileHeight == tileHeight
      ensures this.infinite == infinite && this.properties == properties
      ensures this.tilesets == tilesets && this.tileLayers == tileLayers
      ensures this.objectLayers == objectLayers && this.groups == groups
    {
      this.version := version;
      this.className := className;
      this.orientation := orientation;
      this.renderOrder := renderOrder;
      this.width := width;
      this.height := height;
      this.tileWidth := tileWidth;
      this.tileHeight := tileHeight;
      this.infinite := infinite;
      this.properties := properties;
      this.tilesets := tilesets;
      this.tileLayers := tileLayers;
      this.objectLayers := objectLayers;
      this.groups := groups;
    }

    /** The top-level tile layers; a missing list has none. */
    function TopLayers(): seq<TileLayer>
    {
      if tileLayers.Some? then tileLayers.value else []
    }

    /** Every tile layer of the map in resolution order: the top-level ones, then those of the
        group tree. */
    function AllLayers(): seq<TileLayer>
    {
      TopLayers() + Layers(groups)
    }

    /** The steps of `Map.UnmarshalXML` after XML decoding: sort the tilesets, resolve the
        top-level tile layers, then those of the groups, against the sorted tilesets; the first
        error ends the work. */
    method Finish() returns (err: Option<Error>)
      requires Distinct(AllLayers())
      modifies tilesets, set l | l in AllLayers()
      ensures SortedByFirstGlobalID(tilesets[..])
      ensures multiset(tilesets[..]) == multiset(old(tilesets[..]))
      ensures (States(AllLayers()), err) == ResolveInOrder(old(States(AllLayers())), tilesets[..])
    {
      ghost var start := States(AllLayers());
      SortByFirstGlobalID(tilesets);
      assert States(AllLayers()) == start;
      var tss := tilesets[..];
      err := DecodeTree(TopLayers(), groups, tss);
      assert tilesets[..] == tss;
    }
  }
}
