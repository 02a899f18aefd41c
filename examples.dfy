/** Concrete keys: the documented example and keys that draw the key-level,
    layer-level and quad-level diagnostics, with what the macro makes of them. */
module Examples {
  import opened Wrappers
  import opened Bytes
  import opened Shapes
  import opened Diagnostics
  import opened Tokens
  import opened ShapeKey
  import opened KeyProperties

  /** The bytes of an ASCII string, as the macro sees a string literal
      (each character's code, which for ASCII is below 128). */
  function Ascii(s: string): (r: seq<byte>)
    ensures |r| == |s| && forall i :: 0 <= i < |s| ==> r[i] as int == s[i] as int % 256
  {
    seq(|s|, i requires 0 <= i < |s| => (s[i] as int % 256) as byte)
  }

  /** The shape of the documented example "RuCrSgWw:Rr------". */
  function DocShape(): (sh: Shape)
    ensures ValidShape(sh)
  {
    var bottom: Layer := [Some(Quad(Rectangle, Uncolored)), Some(Quad(Circle, Red)),
                          Some(Quad(Square, Green)), Some(Quad(Windmill, White))];
    var top: Layer := [Some(Quad(Rectangle, Red)), None, None, None];
    assert bottom[0].Some? && top[0].Some?;
    Shape([bottom, top])
  }

  lemma DocBottomText()
    ensures EncodeLayer(DocShape().layers[0]) == Ascii("RuCrSgWw")
  {
  }

  lemma DocTopText()
    ensures EncodeLayer(DocShape().layers[1]) == Ascii("Rr------")
  {
  }

  lemma DocKeyText()
    ensures Ascii("RuCrSgWw:Rr------") == Ascii("RuCrSgWw") + [Colon] + Ascii("Rr------")
  {
  }

  /** The documented example expands to its two layers. */
  lemma DocExample()
    ensures Parse(Ascii("RuCrSgWw:Rr------")) == Success(DocShape())
  {
    var sh := DocShape();
    var bottom, top := Ascii("RuCrSgWw"), Ascii("Rr------");
    DocBottomText();
    DocTopText();
    DocKeyText();
    assert LayerTexts(sh.layers) == [bottom, top];
    assert Join([bottom, top], Colon) == bottom + [Colon] + top;
    ParseShortKey(sh);
  }

  /** The empty key is refused before anything else. */
  lemma EmptyKeyExample()
    ensures Parse([]) == Failure([EmptyInput])
  {
  }

  /** Five layers, even empty ones, are one too many. */
  lemma FiveLayersExample()
    ensures Parse(Ascii("::::")) == Failure([TooManyLayers])
  {
    var key := Ascii("::::");
    assert key == [Colon, Colon, Colon, Colon];
    assert Count(key[3..], Colon) == 1;
    assert Count(key[2..], Colon) == 2;
    assert Count(key[1..], Colon) == 3;
    ParseTooManyLayers(key);
  }

  /** A layer of four empty quads is refused. */
  lemma EmptyLayerExample()
    ensures Parse(Ascii("--------")) == Failure([EmptyLayer(0)])
  {
    var key := Ascii("--------");
    assert key == DashLayer();
    EmptyLayerIffAllDashes(key, 0);
    ParseSingleLayer(key);
  }

  /** The bytes of "XuCw----", one by one. */
  lemma BadLetterBytes(key: seq<byte>)
    requires key == Ascii("XuCw----")
    ensures |key| == QuadsAmount * 2
    ensures key[0] == 'X' as byte && key[1] == 'u' as byte && key[2] == 'C' as byte && key[3] == 'w' as byte
    ensures key[4] == Dash && key[5] == Dash && key[6] == Dash && key[7] == Dash
  {
  }

  /** Its quads: "Xu" has a bad sub-shape and a good colour, "Cw" is a quad,
      and the rest are empty. */
  lemma BadLetterQuads()
    ensures SlotErrors(CheckQuad('X' as byte, 'u' as byte, 0, 0)) == [InvalidSubshape(0, 0, 'X' as byte)]
    ensures SlotErrors(CheckQuad('C' as byte, 'w' as byte, 0, 1)) == []
    ensures CheckQuad(Dash, Dash, 0, 2) == None && CheckQuad(Dash, Dash, 0, 3) == None
  {
  }

  /** A layer whose first quad has a letter outside the sub-shape alphabet
      is reported at that layer and quad. */
  lemma BadLetterParse(key: seq<byte>)
    requires |key| == QuadsAmount * 2
    requires key[0] == 'X' as byte && key[1] == 'u' as byte && key[2] == 'C' as byte && key[3] == 'w' as byte
    requires key[4] == Dash && key[5] == Dash && key[6] == Dash && key[7] == Dash
    ensures Parse(key) == Failure([InvalidSubshape(0, 0, 'X' as byte)])
  {
    assert key[0] != DashLayer()[0];
    assert Colon !in key by {
      forall k | 0 <= k < |key| ensures key[k] != Colon {
        assert k < 8;
      }
    }
    assert LayerErrors(LayerOutput(key, 0)) == [InvalidSubshape(0, 0, 'X' as byte)] by {
      LayerErrorsByQuad(key, 0);
      BadLetterQuads();
    }
    ParseSingleLayer(key);
  }

  /** "XuCw----" draws exactly one diagnostic: the sub-shape 'X' of the 1st quad. */
  lemma BadSubshapeExample()
    ensures Parse(Ascii("XuCw----")) == Failure([InvalidSubshape(0, 0, 'X' as byte)])
  {
    BadLetterBytes(Ascii("XuCw----"));
    BadLetterParse(Ascii("XuCw----"));
  }

  /** A key ending in ':' has an empty last layer, which is too short; a
      clean layer before it adds nothing. */
  lemma TrailingColonParse(layer: seq<byte>)
    requires Colon !in layer && LayerErrors(LayerOutput(layer, 0)) == []
    ensures Parse(layer + [Colon]) == Failure([LayerTooShort(1)])
  {
    var segs: seq<seq<byte>> := [layer, []];
    var tokens := LayersOutput(segs, 0);
    assert KeyOutput(layer + [Colon]) == KeyLayers(tokens) by {
      assert Join(segs, Colon) == layer + [Colon] by {
        assert Join(segs[1..], Colon) == [];
      }
      SplitJoin(segs, Colon);
    }
    assert KeyErrors(KeyLayers(tokens)) == [LayerTooShort(1)] by {
      assert LayersErrors(tokens) == [[], [LayerTooShort(1)]];
      assert Concat([[LayerTooShort(1)]]) == [LayerTooShort(1)];
    }
  }

  lemma DocBottomKeyText()
    ensures Ascii("RuCrSgWw:") == Ascii("RuCrSgWw") + [Colon]
  {
  }

  /** "RuCrSgWw:" has a valid 1st layer and an empty 2nd one, which is
      reported as too short. */
  lemma TooShortExample()
    ensures Parse(Ascii("RuCrSgWw:")) == Failure([LayerTooShort(1)])
  {
    var bottom := DocShape().layers[0];
    DocBottomText();
    DocBottomKeyText();
    LayerRoundTrip(bottom, 0);
    TrailingColonParse(EncodeLayer(bottom));
  }
}
