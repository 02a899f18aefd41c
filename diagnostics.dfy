/** The errors a shape key can draw, as structured values, and the message
    text each one is reported with. Positions are 0-based; the messages show
    them as ordinals. */
module Diagnostics {
  import opened Bytes
  import opened Shapes
  import opened Ordinals

  datatype Diagnostic =
    | EmptyInput
    | TooManyLayers
      /** the layer's byte length is odd */
    | OddLayerLength(layer: nat)
      /** the layer's byte length is even and above 8 */
    | LayerTooLong(layer: nat)
      /** the layer's byte length is even and below 8 */
    | LayerTooShort(layer: nat)
    | InvalidSubshape(layer: nat, quad: nat, found: byte)
    | InvalidColor(layer: nat, quad: nat, found: byte)
      /** all four quads of the layer are "--" */
    | EmptyLayer(layer: nat)

  /** The diagnostic names a layer (and a quad, where it has one) that a
      shape can have. */
  predicate Positioned(d: Diagnostic) {
    && (d.EmptyInput? || d.TooManyLayers? || d.layer < MaxLayers)
    && ((d.InvalidSubshape? || d.InvalidColor?) ==> d.quad < QuadsAmount)
  }

  /** The text the diagnostic is reported with. */
  function Message(d: Diagnostic): string {
    match d
    case EmptyInput => "Empty input"
    case TooManyLayers => "Input has more than " + Decimal(MaxLayers) + " layers"
    case OddLayerLength(l) => Ordinal(l) + " layer has odd number of characters"
    case LayerTooLong(l) => Ordinal(l) + " layer has more than " + Decimal(QuadsAmount * 2) + " characters"
    case LayerTooShort(l) => Ordinal(l) + " layer has less than " + Decimal(QuadsAmount * 2) + " characters"
    case InvalidSubshape(l, q, b) =>
      "Invalid sub-shape \"" + [b as char] + "\" in " + Ordinal(l) + " layer, " + Ordinal(q) + " quad"
    case InvalidColor(l, q, b) =>
      "Invalid color \"" + [b as char] + "\" in " + Ordinal(l) + " layer, " + Ordinal(q) + " quad"
    case EmptyLayer(l) => Ordinal(l) + " layer is empty"
  }

  /** Sample messages for the whole key, with the constant filled in. */
  lemma KeyMessageSamples()
    ensures Message(EmptyInput) == "Empty input"
    ensures Message(TooManyLayers) == "Input has more than 4 layers"
  {
    assert Decimal(MaxLayers) == "4";
  }

  /** A layer diagnostic's message opens with the layer's ordinal. */
  lemma LayerMessageNamesLayer(d: Diagnostic)
    requires d.OddLayerLength? || d.LayerTooLong? || d.LayerTooShort? || d.EmptyLayer?
    ensures Ordinal(d.layer) <= Message(d)
  {
  }

  /** A quad diagnostic's message ends with the layer's and the quad's ordinals. */
  lemma QuadMessageNamesPosition(d: Diagnostic)
    requires d.InvalidSubshape? || d.InvalidColor?
    ensures var tail := Ordinal(d.layer) + " layer, " + Ordinal(d.quad) + " quad";
      |tail| <= |Message(d)| && Message(d)[|Message(d)| - |tail|..] == tail
  {
    var tail := Ordinal(d.layer) + " layer, " + Ordinal(d.quad) + " quad";
    var head := (if d.InvalidSubshape? then "Invalid sub-shape \"" else "Invalid color \"") + [d.found as char] + "\" in ";
    assert Message(d) == head + tail;
    assert (head + tail)[|head|..] == tail;
  }
}
