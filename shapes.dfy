/** The value a shape key stands for: a shape of up to four layers, each
    layer four quadrant slots, each slot empty or a coloured sub-shape; and the
    short-key text each of them is written as. */
module Shapes {
  import opened Wrappers
  import opened Bytes

  /** Most layers a shape may have. */
  const MaxLayers := 4
  /** Quadrant slots in every layer. */
  const QuadsAmount := 4

  datatype Subshape = Circle | Square | Rectangle | Windmill

  datatype Color = Red | Green | Blue | Yellow | Purple | Cyan | White | Uncolored

  /** A filled quadrant. */
  datatype Quad = Quad(subshape: Subshape, color: Color)

  /** One layer: exactly four slots, in quadrant order. */
  type Layer = s: seq<Option<Quad>> | |s| == QuadsAmount witness [None, None, None, None]

  /** Layer 0 is the bottom layer. */
  datatype Shape = Shape(layers: seq<Layer>)

  /** A layer must hold something. */
  predicate ValidLayer(l: Layer) {
    exists q :: 0 <= q < QuadsAmount && l[q].Some?
  }

  /** What a shape key can describe: one to four layers, none of them empty. */
  predicate ValidShape(sh: Shape) {
    1 <= |sh.layers| <= MaxLayers && forall i :: 0 <= i < |sh.layers| ==> ValidLayer(sh.layers[i])
  }

  const Dash: byte := '-' as byte
  const Colon: byte := ':' as byte

  /** The short-key letter of each sub-shape. */
  function SubshapeCode(s: Subshape): byte {
    match s
    case Circle => 'C' as byte
    case Square => 'S' as byte
    case Rectangle => 'R' as byte
    case Windmill => 'W' as byte
  }

  /** The short-key letter of each colour. */
  function ColorCode(c: Color): byte {
    match c
    case Red => 'r' as byte
    case Green => 'g' as byte
    case Blue => 'b' as byte
    case Yellow => 'y' as byte
    case Purple => 'p' as byte
    case Cyan => 'c' as byte
    case White => 'w' as byte
    case Uncolored => 'u' as byte
  }

  /** The two bytes of a slot: "--" when empty, else sub-shape letter then colour letter. */
  function EncodeSlot(o: Option<Quad>): (r: seq<byte>)
    ensures |r| == 2 && Colon !in r
    ensures r == [Dash, Dash] <==> o.None?
  {
    match o
    case None => [Dash, Dash]
    case Some(Quad(s, c)) => [SubshapeCode(s), ColorCode(c)]
  }

  /** The eight bytes of a layer; quad q is written at bytes 2q and 2q+1. */
  function EncodeLayer(l: Layer): (r: seq<byte>)
    ensures |r| == 2 * QuadsAmount && Colon !in r
    ensures forall q :: 0 <= q < QuadsAmount ==> r[2 * q] == EncodeSlot(l[q])[0] && r[2 * q + 1] == EncodeSlot(l[q])[1]
  {
    EncodeSlot(l[0]) + EncodeSlot(l[1]) + EncodeSlot(l[2]) + EncodeSlot(l[3])
  }

  /** The texts of the given layers, in order. */
  function LayerTexts(layers: seq<Layer>): (r: seq<seq<byte>>)
    ensures |r| == |layers| && forall i :: 0 <= i < |layers| ==> r[i] == EncodeLayer(layers[i])
  {
    if layers == [] then [] else [EncodeLayer(layers[0])] + LayerTexts(layers[1..])
  }

  /** The short key of a shape: its layers' texts, bottom first, joined by
      ':'. Splitting it on ':' gives the texts back. */
  function ShortKey(sh: Shape): (r: seq<byte>)
    ensures sh.layers != [] ==> Split(r, Colon) == LayerTexts(sh.layers)
  {
    if sh.layers == [] then []
    else
      var texts := LayerTexts(sh.layers);
      SplitJoin(texts, Colon);
      Join(texts, Colon)
  }
}
