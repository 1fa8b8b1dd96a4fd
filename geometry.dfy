/** Value types of the solid-colour quad: vectors, colours, sizes, vertices and the
    vertex buffer they form, with the colour maths the quad component relies on.
    Coordinates and colour channels are `real`: the model is about placement and equality,
    not about IEEE rounding. */
module Geometry {

  datatype Vec4 = Vec4(x: real, y: real, z: real, w: real)

  datatype Vec2 = Vec2(x: real, y: real)

  const ZeroVec2: Vec2 := Vec2(0.0, 0.0)

  datatype Color = Color(r: real, g: real, b: real, a: real)

  datatype Size = Size(width: real, height: real)

  /** One vertex of the renderer's buffer: a position, two texture-coordinate slots and a colour. */
  datatype Vertex = Vertex(position: Vec4, texCoord1: Vec2, texCoord2: Vec2, color: Color)

  /** A vertex buffer and an index buffer. */
  datatype Geometry = Geometry(vertices: seq<Vertex>, indices: seq<int>)

  /** The positions of a buffer, in vertex order. */
  function Positions(g: Geometry): (ps: seq<Vec4>)
    ensures |ps| == |g.vertices|
    ensures forall i :: 0 <= i < |ps| ==> ps[i] == g.vertices[i].position
  {
    seq(|g.vertices|, i requires 0 <= i < |g.vertices| => g.vertices[i].position)
  }

  /** The colours of a buffer, in vertex order. */
  function Colors(g: Geometry): (cs: seq<Color>)
    ensures |cs| == |g.vertices|
    ensures forall i :: 0 <= i < |cs| ==> cs[i] == g.vertices[i].color
  {
    seq(|g.vertices|, i requires 0 <= i < |g.vertices| => g.vertices[i].color)
  }

  /** Every vertex of `g` has colour `c`. */
  predicate UniformColor(g: Geometry, c: Color)
  {
    forall i :: 0 <= i < |g.vertices| ==> g.vertices[i].color == c
  }

  /** Assigning the buffer's positions: vertex `i` takes position `ps[i]` and keeps its
      texture coordinates and colour; the index buffer is untouched. */
  function WithPositions(g: Geometry, ps: seq<Vec4>): (r: Geometry)
    requires |ps| == |g.vertices|
    ensures |r.vertices| == |g.vertices| && r.indices == g.indices
    ensures Positions(r) == ps
    ensures Colors(r) == Colors(g)
    ensures forall i :: 0 <= i < |r.vertices| ==>
              r.vertices[i].texCoord1 == g.vertices[i].texCoord1 &&
              r.vertices[i].texCoord2 == g.vertices[i].texCoord2
  {
    var vs := seq(|ps|, i requires 0 <= i < |ps| => g.vertices[i].(position := ps[i]));
    Geometry(vs, g.indices)
  }

  /** Assigning the buffer's colour: every vertex takes colour `c` and keeps its position and
      texture coordinates; the index buffer is untouched. */
  function WithColor(g: Geometry, c: Color): (r: Geometry)
    ensures |r.vertices| == |g.vertices| && r.indices == g.indices
    ensures UniformColor(r, c)
    ensures Positions(r) == Positions(g)
    ensures forall i :: 0 <= i < |r.vertices| ==>
              r.vertices[i].texCoord1 == g.vertices[i].texCoord1 &&
              r.vertices[i].texCoord2 == g.vertices[i].texCoord2
  {
    var vs := seq(|g.vertices|, i requires 0 <= i < |g.vertices| => g.vertices[i].(color := c));
    Geometry(vs, g.indices)
  }

  /** The corners of the rectangle from (0,0) to (width,height), bottom-left, bottom-right,
      top-right, top-left, each in the plane z = 0 with homogeneous w = 1. */
  function QuadCorners(size: Size): (ps: seq<Vec4>)
    ensures |ps| == 4
    ensures forall i :: 0 <= i < 4 ==> ps[i].z == 0.0 && ps[i].w == 1.0
    ensures forall i :: 0 <= i < 4 ==>
              (ps[i].x == 0.0 || ps[i].x == size.width) && (ps[i].y == 0.0 || ps[i].y == size.height)
  {
    [Vec4(0.0, 0.0, 0.0, 1.0),
     Vec4(size.width, 0.0, 0.0, 1.0),
     Vec4(size.width, size.height, 0.0, 1.0),
     Vec4(0.0, size.height, 0.0, 1.0)]
  }

  /** The buffer the quad component is built with: four vertices on the corners of `size`,
      zero texture coordinates, colour `color`, and an empty index buffer. */
  function QuadGeometry(size: Size, color: Color): Geometry
  {
    var corners := QuadCorners(size);
    Geometry(seq(4, i requires 0 <= i < 4 => Vertex(corners[i], ZeroVec2, ZeroVec2, color)), [])
  }

  /** The shape every quad buffer keeps: exactly four vertices. */
  predicate IsQuad(g: Geometry)
  {
    |g.vertices| == 4
  }

  /** Twice the signed area of the closed polygon through `ps` (the shoelace sum);
      positive when the corners run counter-clockwise. */
  function TwiceSignedArea(ps: seq<Vec4>): real
  {
    if |ps| < 2 then 0.0 else ShoelaceSum(ps, ps[0])
  }

  /** Sum of the cross terms of consecutive points of `ps`, closing back to `first`. */
  function ShoelaceSum(ps: seq<Vec4>, first: Vec4): real
    requires |ps| >= 1
    decreases |ps|
  {
    var next := if |ps| == 1 then first else ps[1];
    ps[0].x * next.y - next.x * ps[0].y + (if |ps| == 1 then 0.0 else ShoelaceSum(ps[1..], first))
  }

  // ----- colour maths (the node side of the colour pipeline) -----

  /** The colour a node shows: its own RGB with the displayed opacity as alpha. Only opacity
      cascades from ancestors; the colour itself is not inherited. */
  function DisplayedColor(color: Color, displayedOpacity: real): Color
  {
    Color(color.r, color.g, color.b, displayedOpacity)
  }

  /** A colour with its RGB channels scaled by its alpha. */
  function PremultiplyingAlpha(c: Color): Color
  {
    Color(c.r * c.a, c.g * c.a, c.b * c.a, c.a)
  }

  // ----- properties -----

  /** The quad component's constructor yields exactly four vertices in corner order, every
      texture coordinate zero, every colour the given one, and no indices. */
  lemma QuadGeometryShape(size: Size, color: Color)
    ensures IsQuad(QuadGeometry(size, color))
    ensures Positions(QuadGeometry(size, color)) ==
            [Vec4(0.0, 0.0, 0.0, 1.0), Vec4(size.width, 0.0, 0.0, 1.0),
             Vec4(size.width, size.height, 0.0, 1.0), Vec4(0.0, size.height, 0.0, 1.0)]
    ensures UniformColor(QuadGeometry(size, color), color)
    ensures forall i :: 0 <= i < 4 ==>
              QuadGeometry(size, color).vertices[i].texCoord1 == ZeroVec2 &&
              QuadGeometry(size, color).vertices[i].texCoord2 == ZeroVec2
    ensures QuadGeometry(size, color).indices == []
  {
  }

  /** The corner order winds counter-clockwise: the enclosed signed area is width * height,
      positive for every non-degenerate size. */
  lemma QuadCornersWinding(size: Size)
    ensures TwiceSignedArea(QuadCorners(size)) == 2.0 * size.width * size.height
    ensures size.width > 0.0 && size.height > 0.0 ==> TwiceSignedArea(QuadCorners(size)) > 0.0
  {
    var ps := QuadCorners(size);
    assert ShoelaceSum(ps[3..], ps[0]) == 0.0;
    assert ShoelaceSum(ps[2..], ps[0]) == size.width * size.height;
    assert ShoelaceSum(ps[1..], ps[0]) == 2.0 * size.width * size.height;
  }

  /** Overwriting positions with a size's corners forgets the previous positions: two buffers
      that agree on colours and texture coordinates end equal, whatever their positions were. */
  lemma RepositionForgetsPrior(g1: Geometry, g2: Geometry, size: Size)
    requires IsQuad(g1) && IsQuad(g2)
    requires Colors(g1) == Colors(g2)
    requires forall i :: 0 <= i < 4 ==>
               g1.vertices[i].texCoord1 == g2.vertices[i].texCoord1 &&
               g1.vertices[i].texCoord2 == g2.vertices[i].texCoord2
    requires g1.indices == g2.indices
    ensures WithPositions(g1, QuadCorners(size)) == WithPositions(g2, QuadCorners(size))
  {
  }

  /** Repositioning for the same size twice is the same as once. */
  lemma RepositionIdempotent(g: Geometry, size: Size)
    requires IsQuad(g)
    ensures WithPositions(WithPositions(g, QuadCorners(size)), QuadCorners(size))
         == WithPositions(g, QuadCorners(size))
  {
  }

  /** The size handler puts the corners in the order the quad was built with: after a
      resize, the positions are those a freshly built quad of the new size would have. */
  lemma RepositionMatchesConstruction(g: Geometry, size: Size, color: Color)
    requires IsQuad(g)
    ensures Positions(WithPositions(g, QuadCorners(size))) == Positions(QuadGeometry(size, color))
  {
    QuadGeometryShape(size, color);
  }

  /** Recolouring keeps the positions, and recolouring twice keeps only the last colour. */
  lemma RecolorLastWins(g: Geometry, c1: Color, c2: Color)
    ensures WithColor(WithColor(g, c1), c2) == WithColor(g, c2)
  {
  }

  /** The premultiplied displayed colour scales RGB by the displayed opacity and carries it as
      alpha: full red at opacity 0.5 is (0.5, 0, 0, 0.5), and any colour at opacity 0 is
      transparent black. */
  lemma PremultipliedDisplayedColor(color: Color, opacity: real)
    ensures PremultiplyingAlpha(DisplayedColor(color, opacity)) ==
            Color(color.r * opacity, color.g * opacity, color.b * opacity, opacity)
    ensures PremultiplyingAlpha(DisplayedColor(Color(1.0, 0.0, 0.0, 1.0), 0.5)) == Color(0.5, 0.0, 0.0, 0.5)
    ensures PremultiplyingAlpha(DisplayedColor(color, 0.0)) == Color(0.0, 0.0, 0.0, 0.0)
  {
  }
}
