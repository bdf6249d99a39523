/** Groups (tiled/group.go): the tree of <group> elements, each holding its own tile and object
    layers and its nested groups, and the shallow name lookup. The tile layers a group tree
    holds, in the order the loader visits them, are given by Layers. */
module Groups {
  import opened Wrappers
  import opened Properties
  import opened ObjectLayers
  import opened TileLayers
  import Lookup

  /** A <group> element. A missing nested group list and an empty one are the same here: the
      loader treats both as nothing to visit. */
  datatype Group = Group(
    id: string,
    name: string,
    className: string,
    visible: bool,
    offsetX: int,
    offsetY: int,
    properties: Option<seq<Property>>,
    tileLayers: Option<seq<TileLayer>>,
    objectLayers: Option<seq<ObjectLayer>>,
    groups: seq<Group>)

  /** `Groups.WithName`: the first group of the list itself with the name, or nothing; nested
      groups are not searched. */
  function GroupsWithName(gl: seq<Group>, name: string): (r: Option<Group>)
    ensures r.None? <==> forall j :: 0 <= j < |gl| ==> gl[j].name != name
    ensures r.Some? ==> exists i :: 0 <= i < |gl| && gl[i] == r.value && r.value.name == name &&
                                    forall j :: 0 <= j < i ==> gl[j].name != name
  {
    Lookup.FirstMatch(gl, (g: Group) => g.name == name)
  }

  /** A group whose own name differs is not found, whatever its nested groups are called. */
  lemma GroupsWithNameIsShallow(g: Group, name: string)
    requires g.name != name && |g.groups| > 0 && g.groups[0].name == name
    ensures GroupsWithName([g], name).None?
    ensures GroupsWithName(g.groups, name) == Some(g.groups[0])
  {
  }

  /** The group's own tile layers. */
  function OwnLayers(g: Group): seq<TileLayer>
  {
    if g.tileLayers.Some? then g.tileLayers.value else []
  }

  /** The tile layers of a group list in visiting order: for each group in turn, its own tile
      layers, then those of its nested groups. */
  function Layers(gl: seq<Group>): seq<TileLayer>
    decreases gl, 1
  {
    LayersUpTo(gl, |gl|)
  }

  /** The tile layers of the first n groups of the list, in visiting order. */
  function LayersUpTo(gl: seq<Group>, n: nat): seq<TileLayer>
    requires n <= |gl|
    decreases gl, 0, n
  {
    if n == 0 then []
    else LayersUpTo(gl, n - 1) + OwnLayers(gl[n - 1]) + Layers(gl[n - 1].groups)
  }

  /** The layers of the first i groups come first in the layers of the first j >= i groups. */
  lemma {:induction false} LayersUpToPrefix(gl: seq<Group>, i: nat, j: nat)
    requires i <= j <= |gl|
    ensures |LayersUpTo(gl, i)| <= |LayersUpTo(gl, j)|
    ensures LayersUpTo(gl, j)[..|LayersUpTo(gl, i)|] == LayersUpTo(gl, i)
    decreases j - i
  {
    if i < j {
      LayersUpToPrefix(gl, i, j - 1);
      var p := LayersUpTo(gl, j - 1);
      assert LayersUpTo(gl, j)[..|p|] == p;
    }
  }

  /** No tile layer object occurs twice in the list. */
  predicate Distinct(ls: seq<TileLayer>)
  {
    forall i, j :: 0 <= i < j < |ls| ==> ls[i] != ls[j]
  }

  /** The parts of a list without repeats have none, and share no layer. */
  lemma DistinctSplit(a: seq<TileLayer>, b: seq<TileLayer>)
    requires Distinct(a + b)
    ensures Distinct(a) && Distinct(b)
    ensures forall l :: l in a ==> l !in b
  {
    var ab := a + b;
    assert forall i :: 0 <= i < |a| ==> ab[i] == a[i];
    assert forall j :: 0 <= j < |b| ==> ab[|a| + j] == b[j];
  }

  /** The layers of a list split at group i: those of the groups before it, those of group i
      (its own, then its nested groups'), and those after. */
  lemma GroupSplit(gl: seq<Group>, i: nat)
    requires i < |gl|
    ensures var done := LayersUpTo(gl, i);
      var group := OwnLayers(gl[i]) + Layers(gl[i].groups);
      LayersUpTo(gl, i + 1) == done + group &&
      |done + group| <= |Layers(gl)| &&
      Layers(gl) == (done + group) + Layers(gl)[|done + group|..] &&
      Layers(gl)[..|done + group|] == done + group
  {
    var done := LayersUpTo(gl, i);
    var own := OwnLayers(gl[i]);
    var nested := Layers(gl[i].groups);
    assert LayersUpTo(gl, i + 1) == done + own + nested;
    assert done + own + nested == done + (own + nested);
    LayersUpToPrefix(gl, i + 1, |gl|);
    var all := Layers(gl);
    var upTo := LayersUpTo(gl, i + 1);
    assert all == all[..|upTo|] + all[|upTo|..];
  }
}
