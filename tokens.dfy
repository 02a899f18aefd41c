/** The code the macro generates, as values, and what compiling it yields.
    A layer or a layer list that fails a check is generated as a compile
    error in place of its value. Inside a quad, the sub-shape and the colour
    are each either their value or a compile error, so one quad can carry
    two. Compiling the generated code reports every such error, in the order
    it appears, and otherwise produces the shape. */
module Tokens {
  import opened Wrappers
  import opened Bytes
  import opened Shapes
  import opened Diagnostics

  /** `Quad(sub, color)`, where each part is its value or a compile error. */
  datatype QuadToken = QuadToken(sub: Result<Subshape, Diagnostic>, color: Result<Color, Diagnostic>)

  /** A layer is a compile error or the list of its quad slots. */
  datatype LayerToken = LayerError(error: Diagnostic) | LayerQuads(quads: seq<Option<QuadToken>>)

  /** The layer list is a compile error or the list of its layers. */
  datatype KeyToken = KeyError(error: Diagnostic) | KeyLayers(layers: seq<LayerToken>)

  /** The only shape of token the macro can build: every layer list has four slots. */
  predicate WellShaped(t: KeyToken) {
    t.KeyLayers? ==> forall i :: 0 <= i < |t.layers| ==> t.layers[i].LayerQuads? ==> |t.layers[i].quads| == QuadsAmount
  }

  function SlotErrors(s: Option<QuadToken>): seq<Diagnostic> {
    match s
    case None => []
    case Some(QuadToken(sub, color)) =>
      (if sub.Failure? then [sub.error] else []) + (if color.Failure? then [color.error] else [])
  }

  /** The errors of each slot, slot by slot. */
  function QuadsErrors(qs: seq<Option<QuadToken>>): (r: seq<seq<Diagnostic>>)
    ensures |r| == |qs| && forall i :: 0 <= i < |qs| ==> r[i] == SlotErrors(qs[i])
  {
    if qs == [] then [] else [SlotErrors(qs[0])] + QuadsErrors(qs[1..])
  }

  function LayerErrors(t: LayerToken): seq<Diagnostic> {
    match t
    case LayerError(d) => [d]
    case LayerQuads(qs) => Concat(QuadsErrors(qs))
  }

  /** The errors of each layer, layer by layer. */
  function LayersErrors(ls: seq<LayerToken>): (r: seq<seq<Diagnostic>>)
    ensures |r| == |ls| && forall i :: 0 <= i < |ls| ==> r[i] == LayerErrors(ls[i])
  {
    if ls == [] then [] else [LayerErrors(ls[0])] + LayersErrors(ls[1..])
  }

  function KeyErrors(t: KeyToken): seq<Diagnostic> {
    match t
    case KeyError(d) => [d]
    case KeyLayers(ls) => Concat(LayersErrors(ls))
  }

  function SlotValue(s: Option<QuadToken>): Option<Quad>
    requires SlotErrors(s) == []
  {
    match s
    case None => None
    case Some(QuadToken(sub, color)) => Some(Quad(sub.value, color.value))
  }

  function LayerValue(t: LayerToken): Layer
    requires LayerErrors(t) == [] && (t.LayerQuads? ==> |t.quads| == QuadsAmount)
  {
    var qs := t.quads;
    assert forall q :: 0 <= q < QuadsAmount ==> SlotErrors(qs[q]) == [] by {
      forall q | 0 <= q < QuadsAmount ensures SlotErrors(qs[q]) == [] {
        assert QuadsErrors(qs)[q] == SlotErrors(qs[q]);
      }
    }
    [SlotValue(qs[0]), SlotValue(qs[1]), SlotValue(qs[2]), SlotValue(qs[3])]
  }

  function LayersValue(ls: seq<LayerToken>): (r: seq<Layer>)
    requires forall i :: 0 <= i < |ls| ==> LayerErrors(ls[i]) == [] && (ls[i].LayerQuads? ==> |ls[i].quads| == QuadsAmount)
    ensures |r| == |ls| && forall i :: 0 <= i < |ls| ==> r[i] == LayerValue(ls[i])
  {
    if ls == [] then [] else [LayerValue(ls[0])] + LayersValue(ls[1..])
  }

  /** The result of compiling the generated layer list: all its errors, or the shape. */
  function Expand(t: KeyToken): (r: Result<Shape, seq<Diagnostic>>)
    requires WellShaped(t)
    ensures r.Failure? <==> KeyErrors(t) != []
    ensures r.Failure? ==> r.error == KeyErrors(t)
    ensures r.Success? ==> t.KeyLayers? && |r.value.layers| == |t.layers|
  {
    var errors := KeyErrors(t);
    if errors != [] then Failure(errors)
    else
      var ls := t.layers;
      assert forall i :: 0 <= i < |ls| ==> LayerErrors(ls[i]) == [] by {
        forall i | 0 <= i < |ls| ensures LayerErrors(ls[i]) == [] {
          assert LayersErrors(ls)[i] == LayerErrors(ls[i]);
        }
      }
      Success(Shape(LayersValue(ls)))
  }
}
