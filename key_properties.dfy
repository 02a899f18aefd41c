/** What the shape-key macro guarantees, stated over `Parse`: the keys it
    accepts are exactly the short keys of valid shapes, and every rejected
    key draws diagnostics from every faulty layer, at positions a shape has. */
module KeyProperties {
  import opened Wrappers
  import opened Bytes
  import opened Shapes
  import opened Diagnostics
  import opened Tokens
  import opened ShapeKey

  // ----- quads -----

  /** Writing a slot and checking it again gives back the slot, without error. */
  lemma QuadRoundTrip(o: Option<Quad>, layerIndex: nat, quadIndex: nat)
    ensures var e := EncodeSlot(o);
      && SlotErrors(CheckQuad(e[0], e[1], layerIndex, quadIndex)) == []
      && SlotValue(CheckQuad(e[0], e[1], layerIndex, quadIndex)) == o
  {
    match o
    case None =>
    case Some(Quad(s, c)) =>
      SubshapeRoundTrip(s, layerIndex, quadIndex);
      ColorRoundTrip(c, layerIndex, quadIndex);
  }

  /** A quad other than "--" draws an error for its sub-shape byte exactly
      when that byte is outside the sub-shape alphabet, and one for its
      colour byte exactly when that byte is outside the colour alphabet,
      each whatever the other byte is, in that order. */
  lemma QuadChecksIndependently(subShape: byte, color: byte, layerIndex: nat, quadIndex: nat)
    requires subShape != Dash || color != Dash
    ensures SlotErrors(CheckQuad(subShape, color, layerIndex, quadIndex))
      == (if GetSubshape(subShape, layerIndex, quadIndex).Success? then [] else [InvalidSubshape(layerIndex, quadIndex, subShape)])
       + (if GetColor(color, layerIndex, quadIndex).Success? then [] else [InvalidColor(layerIndex, quadIndex, color)])
  {
  }

  /** Every diagnostic of a quad names its layer and its quad. */
  lemma QuadDiagnosticsLocal(subShape: byte, color: byte, layerIndex: nat, quadIndex: nat)
    ensures forall d :: d in SlotErrors(CheckQuad(subShape, color, layerIndex, quadIndex)) ==>
      d == InvalidSubshape(layerIndex, quadIndex, subShape) || d == InvalidColor(layerIndex, quadIndex, color)
  {
  }

  /** A quad accepted without error is the encoding of the slot it yields. */
  lemma QuadAccepted(subShape: byte, color: byte, layerIndex: nat, quadIndex: nat)
    requires SlotErrors(CheckQuad(subShape, color, layerIndex, quadIndex)) == []
    ensures EncodeSlot(SlotValue(CheckQuad(subShape, color, layerIndex, quadIndex))) == [subShape, color]
  {
  }

  // ----- layers -----

  /** A layer of the wrong length draws exactly one diagnostic, chosen by
      parity and then by size, and none of its quads is looked at. */
  lemma LayerLengthChecked(layer: seq<byte>, layerIndex: nat)
    requires |layer| != QuadsAmount * 2
    ensures |layer| % 2 == 1 ==> LayerErrors(LayerOutput(layer, layerIndex)) == [OddLayerLength(layerIndex)]
    ensures |layer| % 2 == 0 && |layer| > QuadsAmount * 2 ==> LayerErrors(LayerOutput(layer, layerIndex)) == [LayerTooLong(layerIndex)]
    ensures |layer| % 2 == 0 && |layer| < QuadsAmount * 2 ==> LayerErrors(LayerOutput(layer, layerIndex)) == [LayerTooShort(layerIndex)]
  {
  }

  /** The layer of four empty slots. */
  function DashLayer(): (r: seq<byte>)
    ensures |r| == QuadsAmount * 2
  {
    seq(QuadsAmount * 2, _ => Dash)
  }

  /** A layer is rejected as empty exactly when it is "--------". */
  lemma EmptyLayerIffAllDashes(layer: seq<byte>, layerIndex: nat)
    ensures LayerOutput(layer, layerIndex) == LayerError(EmptyLayer(layerIndex)) <==> layer == DashLayer()
  {
    if LayerOutput(layer, layerIndex) == LayerError(EmptyLayer(layerIndex)) {
      var qs := LayerQuadsOf(layer, layerIndex);
      forall k | 0 <= k < QuadsAmount * 2 ensures layer[k] == Dash {
        var q := k / 2;
        assert qs[q].None?;
        assert k == 2 * q || k == 2 * q + 1;
      }
    }
  }

  /** In a layer of the right length, a quad that is not "--" is reported for
      its sub-shape byte and for its colour byte, each independently, at its
      own layer and quad position. */
  lemma QuadDiagnosticsReported(layer: seq<byte>, layerIndex: nat, quadIndex: nat)
    requires |layer| == QuadsAmount * 2 && quadIndex < QuadsAmount
    requires layer[2 * quadIndex] != Dash || layer[2 * quadIndex + 1] != Dash
    ensures GetSubshape(layer[2 * quadIndex], layerIndex, quadIndex).Failure? ==>
      InvalidSubshape(layerIndex, quadIndex, layer[2 * quadIndex]) in LayerErrors(LayerOutput(layer, layerIndex))
    ensures GetColor(layer[2 * quadIndex + 1], layerIndex, quadIndex).Failure? ==>
      InvalidColor(layerIndex, quadIndex, layer[2 * quadIndex + 1]) in LayerErrors(LayerOutput(layer, layerIndex))
  {
    var b0, b1 := layer[2 * quadIndex], layer[2 * quadIndex + 1];
    var qs := LayerQuadsOf(layer, layerIndex);
    assert qs[quadIndex] == CheckQuad(b0, b1, layerIndex, quadIndex);
    assert LayerOutput(layer, layerIndex) == LayerQuads(qs);
    assert QuadsErrors(qs)[quadIndex] == SlotErrors(qs[quadIndex]);
    QuadChecksIndependently(b0, b1, layerIndex, quadIndex);
    if GetSubshape(b0, layerIndex, quadIndex).Failure? {
      ConcatKeeps(QuadsErrors(qs), quadIndex, InvalidSubshape(layerIndex, quadIndex, b0));
    }
    if GetColor(b1, layerIndex, quadIndex).Failure? {
      ConcatKeeps(QuadsErrors(qs), quadIndex, InvalidColor(layerIndex, quadIndex, b1));
    }
  }

  /** Every diagnostic a layer draws names that layer, and a quad of it where
      it names a quad. */
  ghost predicate AboutLayer(d: Diagnostic, layerIndex: nat) {
    && !d.EmptyInput? && !d.TooManyLayers?
    && d.layer == layerIndex
    && ((d.InvalidSubshape? || d.InvalidColor?) ==> d.quad < QuadsAmount)
  }

  lemma LayerDiagnosticsLocal(layer: seq<byte>, layerIndex: nat)
    ensures forall d :: d in LayerErrors(LayerOutput(layer, layerIndex)) ==> AboutLayer(d, layerIndex)
  {
    var t := LayerOutput(layer, layerIndex);
    if t.LayerQuads? {
      assert |layer| == QuadsAmount * 2;
      var qs := LayerQuadsOf(layer, layerIndex);
      assert t.quads == qs;
      forall d | d in Concat(QuadsErrors(qs)) ensures AboutLayer(d, layerIndex) {
        QuadsDiagnosticLocal(layer, layerIndex, d);
      }
    }
  }

  /** One step of the above: a diagnostic of the quads comes from one quad. */
  lemma QuadsDiagnosticLocal(layer: seq<byte>, layerIndex: nat, d: Diagnostic)
    requires |layer| == QuadsAmount * 2
    requires d in Concat(QuadsErrors(LayerQuadsOf(layer, layerIndex)))
    ensures AboutLayer(d, layerIndex)
  {
    var qs := LayerQuadsOf(layer, layerIndex);
    ConcatOrigin(QuadsErrors(qs), d);
    var q :| 0 <= q < |qs| && d in QuadsErrors(qs)[q];
    LayerQuadDiagnosticsLocal(layer, layerIndex, q);
  }

  /** Every diagnostic of quad q of a layer names that layer and quad q. */
  lemma LayerQuadDiagnosticsLocal(layer: seq<byte>, layerIndex: nat, q: nat)
    requires |layer| == QuadsAmount * 2 && q < QuadsAmount
    ensures forall d :: d in SlotErrors(LayerQuadsOf(layer, layerIndex)[q]) ==> AboutLayer(d, layerIndex)
  {
    QuadDiagnosticsLocal(layer[2 * q], layer[2 * q + 1], layerIndex, q);
  }

  /** A layer's diagnostics are those of its four quads, first quad first. */
  lemma LayerDiagnosticsInQuadOrder(qs: seq<Option<QuadToken>>)
    requires |qs| == QuadsAmount
    ensures LayerErrors(LayerQuads(qs)) == SlotErrors(qs[0]) + SlotErrors(qs[1]) + SlotErrors(qs[2]) + SlotErrors(qs[3])
  {
    ConcatFour(QuadsErrors(qs));
  }

  /** The same for the layer check itself: an eight-byte layer other than
      "--------" reports the diagnostics of its quads, bytes 0-1 first. */
  lemma LayerErrorsByQuad(layer: seq<byte>, layerIndex: nat)
    requires |layer| == QuadsAmount * 2 && layer != DashLayer()
    ensures LayerErrors(LayerOutput(layer, layerIndex)) ==
      SlotErrors(CheckQuad(layer[0], layer[1], layerIndex, 0)) + SlotErrors(CheckQuad(layer[2], layer[3], layerIndex, 1)) +
      SlotErrors(CheckQuad(layer[4], layer[5], layerIndex, 2)) + SlotErrors(CheckQuad(layer[6], layer[7], layerIndex, 3))
  {
    var qs := LayerQuadsOf(layer, layerIndex);
    EmptyLayerIffAllDashes(layer, layerIndex);
    assert LayerOutput(layer, layerIndex) == LayerQuads(qs);
    assert qs[0] == CheckQuad(layer[0], layer[1], layerIndex, 0);
    assert qs[1] == CheckQuad(layer[2], layer[3], layerIndex, 1);
    assert qs[2] == CheckQuad(layer[4], layer[5], layerIndex, 2);
    assert qs[3] == CheckQuad(layer[6], layer[7], layerIndex, 3);
    LayerDiagnosticsInQuadOrder(qs);
  }

  /** Quads none of which has an error make a layer without error. */
  lemma CleanQuads(qs: seq<Option<QuadToken>>)
    requires forall q :: 0 <= q < |qs| ==> SlotErrors(qs[q]) == []
    ensures LayerErrors(LayerQuads(qs)) == []
  {
    assert forall q :: 0 <= q < |qs| ==> QuadsErrors(qs)[q] == [];
  }

  /** A layer's quads without error, read slot by slot, give back the layer. */
  lemma CleanQuadsValue(qs: seq<Option<QuadToken>>, l: Layer)
    requires |qs| == QuadsAmount
    requires forall q :: 0 <= q < QuadsAmount ==> SlotErrors(qs[q]) == [] && SlotValue(qs[q]) == l[q]
    ensures LayerErrors(LayerQuads(qs)) == [] && LayerValue(LayerQuads(qs)) == l
  {
    CleanQuads(qs);
  }

  /** Writing a valid layer and checking it again gives back the layer, without error. */
  lemma LayerRoundTrip(l: Layer, layerIndex: nat)
    requires ValidLayer(l)
    ensures var t := LayerOutput(EncodeLayer(l), layerIndex);
      && t.LayerQuads?
      && LayerErrors(t) == []
      && LayerValue(t) == l
  {
    var e := EncodeLayer(l);
    var qs := LayerQuadsOf(e, layerIndex);
    forall q | 0 <= q < QuadsAmount
      ensures SlotErrors(qs[q]) == [] && SlotValue(qs[q]) == l[q] && (l[q].Some? ==> qs[q].Some?)
    {
      QuadRoundTrip(l[q], layerIndex, q);
    }
    var q :| 0 <= q < QuadsAmount && l[q].Some?;
    assert qs[q].Some?;
    assert LayerOutput(e, layerIndex) == LayerQuads(qs);
    CleanQuadsValue(qs, l);
  }

  /** A layer list without error has no error in any slot, and its value
      is read slot by slot. */
  lemma CleanLayerSlots(qs: seq<Option<QuadToken>>)
    requires |qs| == QuadsAmount && LayerErrors(LayerQuads(qs)) == []
    ensures forall q :: 0 <= q < QuadsAmount ==>
      SlotErrors(qs[q]) == [] && LayerValue(LayerQuads(qs))[q] == SlotValue(qs[q])
  {
    forall q | 0 <= q < QuadsAmount ensures SlotErrors(qs[q]) == [] {
      assert QuadsErrors(qs)[q] == SlotErrors(qs[q]);
    }
  }

  /** A layer whose slots are written as the bytes of `layer`, two by two, is
      written as `layer`. */
  lemma EncodeLayerBySlots(v: Layer, layer: seq<byte>)
    requires |layer| == QuadsAmount * 2
    requires forall q :: 0 <= q < QuadsAmount ==> EncodeSlot(v[q]) == [layer[2 * q], layer[2 * q + 1]]
    ensures EncodeLayer(v) == layer
  {
    var e := EncodeLayer(v);
    forall k | 0 <= k < QuadsAmount * 2 ensures e[k] == layer[k] {
      var q := k / 2;
      assert k == 2 * q || k == 2 * q + 1;
    }
  }

  /** Quad q of a layer, accepted without error, is written as bytes 2q and 2q+1. */
  lemma LayerQuadAccepted(layer: seq<byte>, layerIndex: nat, q: nat)
    requires |layer| == QuadsAmount * 2 && q < QuadsAmount
    requires SlotErrors(LayerQuadsOf(layer, layerIndex)[q]) == []
    ensures EncodeSlot(SlotValue(LayerQuadsOf(layer, layerIndex)[q])) == [layer[2 * q], layer[2 * q + 1]]
  {
    QuadAccepted(layer[2 * q], layer[2 * q + 1], layerIndex, q);
  }

  /** A layer accepted without error is a valid layer, and is exactly that layer's text. */
  lemma LayerAcceptedIsEncoding(layer: seq<byte>, layerIndex: nat)
    requires LayerErrors(LayerOutput(layer, layerIndex)) == []
    ensures var t := LayerOutput(layer, layerIndex);
      && t.LayerQuads?
      && ValidLayer(LayerValue(t))
      && EncodeLayer(LayerValue(t)) == layer
  {
    var t := LayerOutput(layer, layerIndex);
    assert |layer| == QuadsAmount * 2;
    var qs := LayerQuadsOf(layer, layerIndex);
    assert t == LayerQuads(qs);
    CleanLayerSlots(qs);
    var v := LayerValue(t);
    forall q | 0 <= q < QuadsAmount
      ensures EncodeSlot(v[q]) == [layer[2 * q], layer[2 * q + 1]]
      ensures qs[q].Some? ==> v[q].Some?
    {
      LayerQuadAccepted(layer, layerIndex, q);
    }
    var q :| 0 <= q < QuadsAmount && qs[q].Some?;
    assert v[q].Some?;
    EncodeLayerBySlots(v, layer);
  }

  // ----- the whole key -----

  /** More than three ':' means more than four layers: the key is refused
      with that one diagnostic, whatever its layers hold. */
  lemma ParseTooManyLayers(key: seq<byte>)
    requires key != [] && Count(key, Colon) >= MaxLayers
    ensures Parse(key) == Failure([TooManyLayers])
  {
  }

  /** Every valid shape's short key parses back to that shape. */
  lemma ParseShortKey(sh: Shape)
    requires ValidShape(sh)
    ensures Parse(ShortKey(sh)) == Success(sh)
  {
    var ls := sh.layers;
    var texts := LayerTexts(ls);
    var key := ShortKey(sh);
    SplitJoin(texts, Colon);
    var tokens := LayersOutput(texts, 0);
    assert KeyOutput(key) == KeyLayers(tokens);
    forall i | 0 <= i < |ls|
      ensures LayerErrors(tokens[i]) == [] && tokens[i].LayerQuads? && LayerValue(tokens[i]) == ls[i]
    {
      LayerRoundTrip(ls[i], i);
    }
    CleanLayers(tokens, ls);
  }

  /** Layers none of which has an error, each of whose value is the matching
      layer of `ls`, compile to the shape of `ls`. */
  lemma CleanLayers(tokens: seq<LayerToken>, ls: seq<Layer>)
    requires |tokens| == |ls|
    requires forall i :: 0 <= i < |ls| ==>
      LayerErrors(tokens[i]) == [] && tokens[i].LayerQuads? && |tokens[i].quads| == QuadsAmount && LayerValue(tokens[i]) == ls[i]
    ensures Expand(KeyLayers(tokens)) == Success(Shape(ls))
  {
    assert forall i :: 0 <= i < |ls| ==> LayersErrors(tokens)[i] == [];
    assert LayersValue(tokens) == ls;
  }

  /** The compiled shape of a key without error has, as layer i, the value of layer i's output. */
  lemma CleanKeyLayers(tokens: seq<LayerToken>)
    requires WellShaped(KeyLayers(tokens)) && Expand(KeyLayers(tokens)).Success?
    ensures forall i :: 0 <= i < |tokens| ==> LayerErrors(tokens[i]) == []
    ensures Expand(KeyLayers(tokens)).value == Shape(LayersValue(tokens))
  {
    forall i | 0 <= i < |tokens| ensures LayerErrors(tokens[i]) == [] {
      assert LayersErrors(tokens)[i] == LayerErrors(tokens[i]);
    }
  }

  /** A key that parses is the short key of the valid shape it parses to:
      no two keys give the same shape, and nothing is normalised away. */
  lemma ParsedShapeEncodesKey(key: seq<byte>)
    requires Parse(key).Success?
    ensures ValidShape(Parse(key).value)
    ensures ShortKey(Parse(key).value) == key
  {
    var segs := Split(key, Colon);
    var t := KeyOutput(key);
    assert t.KeyLayers? && t.layers == LayersOutput(segs, 0);
    var tokens := t.layers;
    CleanKeyLayers(tokens);
    var ls := LayersValue(tokens);
    forall i | 0 <= i < |ls| ensures ValidLayer(ls[i]) && EncodeLayer(ls[i]) == segs[i] {
      LayerAcceptedIsEncoding(segs[i], i);
    }
    assert LayerTexts(ls) == segs;
    JoinSplit(key, Colon);
  }

  /** A key without ':' is a single layer, layer 0, and when that layer has
      diagnostics they are exactly the key's diagnostics. */
  lemma ParseSingleLayer(key: seq<byte>)
    requires key != [] && Colon !in key
    ensures KeyOutput(key) == KeyLayers([LayerOutput(key, 0)])
    ensures LayerErrors(LayerOutput(key, 0)) != [] ==> Parse(key) == Failure(LayerErrors(LayerOutput(key, 0)))
  {
    SplitWithoutSeparator(key, Colon);
    var t := LayerOutput(key, 0);
    assert LayersOutput([key], 0) == [t];
    assert LayersErrors([t]) == [LayerErrors(t)];
    assert Concat([LayerErrors(t)]) == LayerErrors(t);
  }

  /** The keys the macro accepts are exactly the short keys of valid shapes. */
  lemma ParseAcceptsExactlyShortKeys(key: seq<byte>, sh: Shape)
    ensures Parse(key) == Success(sh) <==> ValidShape(sh) && ShortKey(sh) == key
  {
    if Parse(key) == Success(sh) {
      ParsedShapeEncodesKey(key);
    }
    if ValidShape(sh) && ShortKey(sh) == key {
      ParseShortKey(sh);
    }
  }

  /** Layers are not checked fail-fast: with at most four layers, every
      diagnostic of every layer is reported, whatever the other layers hold. */
  lemma ParseCollectsEveryLayer(key: seq<byte>, layerIndex: nat, d: Diagnostic)
    requires key != [] && Count(key, Colon) < MaxLayers
    requires layerIndex <= Count(key, Colon)
    requires d in LayerErrors(LayerOutput(Split(key, Colon)[layerIndex], layerIndex))
    ensures Parse(key).Failure? && d in Parse(key).error
  {
    var t := KeyOutput(key);
    assert LayersErrors(t.layers)[layerIndex] == LayerErrors(LayerOutput(Split(key, Colon)[layerIndex], layerIndex));
    ConcatKeeps(LayersErrors(t.layers), layerIndex, d);
  }

  /** And every diagnostic of such a key comes from one of its layers. */
  lemma ParseErrorsComeFromLayers(key: seq<byte>, d: Diagnostic)
    requires key != [] && Count(key, Colon) < MaxLayers
    requires Parse(key).Failure? && d in Parse(key).error
    ensures exists j :: 0 <= j <= Count(key, Colon) && d in LayerErrors(LayerOutput(Split(key, Colon)[j], j))
  {
    var t := KeyOutput(key);
    ConcatOrigin(LayersErrors(t.layers), d);
    var j :| 0 <= j < |t.layers| && d in LayersErrors(t.layers)[j];
    assert d in LayerErrors(LayerOutput(Split(key, Colon)[j], j));
  }

  /** Every diagnostic names at most the 4th layer and the 4th quad, so the
      only ordinals a message can hold are "1st" to "4th". */
  lemma ParseDiagnosticsPositioned(key: seq<byte>)
    requires Parse(key).Failure?
    ensures forall d :: d in Parse(key).error ==> Positioned(d)
  {
    if key != [] && Count(key, Colon) < MaxLayers {
      forall d | d in Parse(key).error ensures Positioned(d) {
        ParseErrorsComeFromLayers(key, d);
        var j :| 0 <= j <= Count(key, Colon) && d in LayerErrors(LayerOutput(Split(key, Colon)[j], j));
        LayerDiagnosticsLocal(Split(key, Colon)[j], j);
      }
    }
  }
}
