/** The shape-key macro: validates a short key such as "RuCrSgWw:Rr------"
    and generates either the shape or compile errors. The checks run from the
    outside in: the empty key, then the number of ':'-separated layers, then
    each layer's length, then each two-byte quad, whose bytes are looked up in
    their alphabets. The members below are written from the innermost level out. */
module ShapeKey {
  import opened Wrappers
  import opened Bytes
  import opened Shapes
  import opened Diagnostics
  import opened Tokens

  /** The sub-shape a letter stands for; any other byte is an invalid
      sub-shape at the given layer and quad. */
  function GetSubshape(subShape: byte, layerIndex: nat, quadIndex: nat): (r: Result<Subshape, Diagnostic>)
  {
    if subShape == 'C' as byte then Success(Circle)
    else if subShape == 'S' as byte then Success(Square)
    else if subShape == 'R' as byte then Success(Rectangle)
    else if subShape == 'W' as byte then Success(Windmill)
    else Failure(InvalidSubshape(layerIndex, quadIndex, subShape))
  }

  /** The colour a letter stands for; any other byte is an invalid colour at
      the given layer and quad. */
  function GetColor(color: byte, layerIndex: nat, quadIndex: nat): (r: Result<Color, Diagnostic>)
  {
    if color == 'r' as byte then Success(Red)
    else if color == 'g' as byte then Success(Green)
    else if color == 'b' as byte then Success(Blue)
    else if color == 'y' as byte then Success(Yellow)
    else if color == 'p' as byte then Success(Purple)
    else if color == 'c' as byte then Success(Cyan)
    else if color == 'w' as byte then Success(White)
    else if color == 'u' as byte then Success(Uncolored)
    else Failure(InvalidColor(layerIndex, quadIndex, color))
  }

  /** The sub-shape alphabet is exactly "CSRW"; an accepted letter is the
      letter of the sub-shape it gives, and any other byte is reported at the
      given layer and quad. */
  lemma SubshapeAlphabet(b: byte, layerIndex: nat, quadIndex: nat)
    ensures GetSubshape(b, layerIndex, quadIndex).Success?
      <==> b == 'C' as byte || b == 'S' as byte || b == 'R' as byte || b == 'W' as byte
    ensures GetSubshape(b, layerIndex, quadIndex).Success? ==>
      SubshapeCode(GetSubshape(b, layerIndex, quadIndex).value) == b
    ensures GetSubshape(b, layerIndex, quadIndex).Failure? ==>
      GetSubshape(b, layerIndex, quadIndex).error == InvalidSubshape(layerIndex, quadIndex, b)
  {
  }

  /** The colour alphabet is exactly "rgbypcwu"; an accepted letter is the
      letter of the colour it gives, and any other byte is reported at the
      given layer and quad. */
  lemma ColorAlphabet(b: byte, layerIndex: nat, quadIndex: nat)
    ensures GetColor(b, layerIndex, quadIndex).Success?
      <==> (b == 'r' as byte || b == 'g' as byte || b == 'b' as byte || b == 'y' as byte ||
            b == 'p' as byte || b == 'c' as byte || b == 'w' as byte || b == 'u' as byte)
    ensures GetColor(b, layerIndex, quadIndex).Success? ==>
      ColorCode(GetColor(b, layerIndex, quadIndex).value) == b
    ensures GetColor(b, layerIndex, quadIndex).Failure? ==>
      GetColor(b, layerIndex, quadIndex).error == InvalidColor(layerIndex, quadIndex, b)
  {
  }

  /** No two sub-shapes, and no two colours, share a letter. */
  lemma CodesInjective(s: Subshape, t: Subshape, c: Color, d: Color)
    ensures SubshapeCode(s) == SubshapeCode(t) ==> s == t
    ensures ColorCode(c) == ColorCode(d) ==> c == d
  {
  }

  /** Each sub-shape's letter reads back as that sub-shape. */
  lemma SubshapeRoundTrip(s: Subshape, layerIndex: nat, quadIndex: nat)
    ensures GetSubshape(SubshapeCode(s), layerIndex, quadIndex) == Success(s)
  {
  }

  /** Each colour's letter reads back as that colour. */
  lemma ColorRoundTrip(c: Color, layerIndex: nat, quadIndex: nat)
    ensures GetColor(ColorCode(c), layerIndex, quadIndex) == Success(c)
  {
  }

  /** A quad: "--" is the empty slot; anything else is a quad whose sub-shape
      and colour are looked up independently, so one quad can carry two errors. */
  function CheckQuad(subShape: byte, color: byte, layerIndex: nat, quadIndex: nat): (r: Option<QuadToken>)
    ensures r.None? <==> subShape == Dash && color == Dash
  {
    if subShape == Dash && color == Dash then None
    else Some(QuadToken(GetSubshape(subShape, layerIndex, quadIndex), GetColor(color, layerIndex, quadIndex)))
  }

  /** The quads of a layer, checked two bytes at a time from its start; the
      first pair is quad `first`. */
  function ChunkQuads(bytes: seq<byte>, layerIndex: nat, first: nat): (qs: seq<Option<QuadToken>>)
    ensures |qs| == |bytes| / 2
    ensures forall q {:trigger qs[q]} :: 0 <= q < |bytes| / 2 ==>
      qs[q] == CheckQuad(bytes[2 * q], bytes[2 * q + 1], layerIndex, first + q)
    decreases |bytes|
  {
    if |bytes| < 2 then []
    else [CheckQuad(bytes[0], bytes[1], layerIndex, first)] + ChunkQuads(bytes[2..], layerIndex, first + 1)
  }

  /** The four quads of an eight-byte layer; quad q is bytes 2q and 2q+1. */
  function LayerQuadsOf(layer: seq<byte>, layerIndex: nat): (qs: seq<Option<QuadToken>>)
    requires |layer| == QuadsAmount * 2
    ensures |qs| == QuadsAmount
  {
    ChunkQuads(layer, layerIndex, 0)
  }

  /** What the layer check generates: a length error chosen by parity and
      size, the empty-layer error, or the layer's four quads. */
  function LayerOutput(layer: seq<byte>, layerIndex: nat): (r: LayerToken)
    ensures r.LayerQuads? ==> |r.quads| == QuadsAmount
  {
    if |layer| != QuadsAmount * 2 then
      LayerError(
        if |layer| % 2 == 0 then
          (if |layer| > QuadsAmount * 2 then LayerTooLong(layerIndex) else LayerTooShort(layerIndex))
        else OddLayerLength(layerIndex))
    else
      var qs := LayerQuadsOf(layer, layerIndex);
      if forall q :: 0 <= q < QuadsAmount ==> qs[q].None? then LayerError(EmptyLayer(layerIndex))
      else LayerQuads(qs)
  }

  /** Number of empty slots. */
  function CountNone(qs: seq<Option<QuadToken>>): (n: nat)
    ensures n <= |qs|
    ensures n == |qs| <==> forall q :: 0 <= q < |qs| ==> qs[q].None?
  {
    if qs == [] then 0 else CountNone(qs[..|qs| - 1]) + (if qs[|qs| - 1].None? then 1 else 0)
  }

  /** The quads checked so far, followed by the next one, are the quads up to that one. */
  lemma LayerQuadsStep(layer: seq<byte>, layerIndex: nat, quadIndex: nat, done: seq<Option<QuadToken>>)
    requires |layer| == QuadsAmount * 2 && quadIndex < QuadsAmount
    requires done == LayerQuadsOf(layer, layerIndex)[..quadIndex]
    ensures done + [CheckQuad(layer[2 * quadIndex], layer[2 * quadIndex + 1], layerIndex, quadIndex)]
      == LayerQuadsOf(layer, layerIndex)[..quadIndex + 1]
  {
  }

  lemma CountNoneStep(qs: seq<Option<QuadToken>>, quad: Option<QuadToken>)
    ensures CountNone(qs + [quad]) == CountNone(qs) + (if quad.None? then 1 else 0)
  {
    assert (qs + [quad])[..|qs|] == qs;
  }

  /** Checks one layer: its length, then every quad in order, counting the
      empty ones, and rejects a layer whose quads are all empty. */
  method CheckLayer(layer: seq<byte>, layerIndex: nat) returns (r: LayerToken)
    ensures r == LayerOutput(layer, layerIndex)
  {
    if |layer| != QuadsAmount * 2 {
      if |layer| % 2 == 0 {
        if |layer| > QuadsAmount * 2 {
          return LayerError(LayerTooLong(layerIndex));
        } else {
          return LayerError(LayerTooShort(layerIndex));
        }
      } else {
        return LayerError(OddLayerLength(layerIndex));
      }
    }
    ghost var expected := LayerQuadsOf(layer, layerIndex);
    var noneCount := 0;
    var quadTokens: seq<Option<QuadToken>> := [];
    for quadIndex := 0 to QuadsAmount
      invariant quadTokens == expected[..quadIndex]
      invariant noneCount == CountNone(quadTokens)
    {
      var quad := CheckQuad(layer[2 * quadIndex], layer[2 * quadIndex + 1], layerIndex, quadIndex);
      LayerQuadsStep(layer, layerIndex, quadIndex, quadTokens);
      CountNoneStep(quadTokens, quad);
      quadTokens := quadTokens + [quad];
      if quad.None? {
        noneCount := noneCount + 1;
      }
    }
    assert quadTokens == expected;
    if noneCount == QuadsAmount {
      return LayerError(EmptyLayer(layerIndex));
    }
    return LayerQuads(quadTokens);
  }

  /** The layer outputs of consecutive segments; the first is layer `first`. */
  function LayersOutput(segments: seq<seq<byte>>, first: nat): (r: seq<LayerToken>)
    ensures |r| == |segments|
    ensures forall i :: 0 <= i < |segments| ==> r[i] == LayerOutput(segments[i], first + i)
  {
    if segments == [] then [] else [LayerOutput(segments[0], first)] + LayersOutput(segments[1..], first + 1)
  }

  /** What the key check generates: the too-many-layers error, or one layer
      output per ':'-separated segment, in order. */
  function KeyOutput(key: seq<byte>): (r: KeyToken)
    ensures WellShaped(r)
  {
    var layers := Split(key, Colon);
    if |layers| > MaxLayers then KeyError(TooManyLayers)
    else KeyLayers(LayersOutput(layers, 0))
  }

  /** Checks the key: refuses more than four segments before looking at any
      of them, then checks every segment, without stopping at a bad one. */
  method CheckKey(key: seq<byte>) returns (r: KeyToken)
    ensures r == KeyOutput(key)
  {
    var layers := Split(key, Colon);
    if |layers| > MaxLayers {
      return KeyError(TooManyLayers);
    }
    var layerTokens: seq<LayerToken> := [];
    for layerIndex := 0 to |layers|
      invariant |layerTokens| == layerIndex
      invariant forall i :: 0 <= i < layerIndex ==> layerTokens[i] == LayerOutput(layers[i], i)
    {
      var layerToken := CheckLayer(layers[layerIndex], layerIndex);
      layerTokens := layerTokens + [layerToken];
    }
    assert layerTokens == LayersOutput(layers, 0);
    return KeyLayers(layerTokens);
  }

  /** The meaning of the macro: the shape a key describes, or every
      diagnostic it draws. */
  function Parse(key: seq<byte>): (r: Result<Shape, seq<Diagnostic>>)
    ensures r.Failure? ==> r.error != []
    ensures r.Success? ==> key != [] && |r.value.layers| == Count(key, Colon) + 1
  {
    if key == [] then Failure([EmptyInput]) else Expand(KeyOutput(key))
  }

  /** The macro's entry point: refuses the empty key, then checks it and
      compiles what the check generates. */
  method ShapezShape(key: seq<byte>) returns (r: Result<Shape, seq<Diagnostic>>)
    ensures r == Parse(key)
    ensures key == [] ==> r == Failure([EmptyInput])
    ensures r.Failure? ==> |r.error| > 0
  {
    if key == [] {
      return Failure([EmptyInput]);
    }
    var shapeTokens := CheckKey(key);
    r := Expand(shapeTokens);
  }
}
