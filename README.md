# shapez short keys, modelled in Dafny

The `shapez_shape!` procedural macro reads a shapez *short key* such as
`RuCrSgWw:Rr------` at compile time and expands it into a `Shape` value, or
into compile errors that say what is wrong with the key.

A key holds up to four layers separated by `:`, bottom layer first. Each layer
is eight characters: four quads of two characters each. A quad is `--` for an
empty quadrant. Otherwise it is a sub-shape letter (`C`, `S`, `R`, `W`)
followed by a colour letter (`r`, `g`, `b`, `y`, `p`, `c`, `w`, `u`).

The macro checks the key from the outside in: the empty key, then the layer
count, then each layer's length, then each quad. Within `ShapeKey` the
members are written from the innermost level out. The modules are:

- `Ordinals` models `ordinal`, which writes positions as "1st", "2nd", ...
- `ShapeKey` models `get_sub_shape`, `get_color` and `check_quad` as functions.
  It models `check_layer` and `check_key` as methods with loops, and
  `shapez_shape` as a method. Each method is proved equal to a specification
  function: `LayerOutput`, `KeyOutput` and `Parse`.
- `Tokens` holds what the macro generates. A layer or a layer list is either
  its value or a compile error. Inside a quad, the sub-shape and the colour are
  each either their value or a compile error. `Expand` is what compiling that code
  yields: every compile error in the order it appears, or else the shape.
- `Diagnostics` holds the structured errors: kind, layer index, quad index and
  offending byte. `Message` gives each error's text.
- `Shapes` holds the shape a key stands for and `ShortKey`, which writes a
  shape back as its key. `ShortKey` is the independent reference the parser is
  proved against.
- `KeyProperties` holds the properties proved about the parser.
- `Examples` holds the documented example and a few concrete keys.
- `Bytes` and `Wrappers` hold shared helpers: splitting on a byte, flattening,
  and `Option`/`Result`.

The main theorem is `KeyProperties.ParseAcceptsExactlyShortKeys`. A key
parses to a shape exactly when the shape is valid and the key is that shape's
short key. Valid means one to four layers, none of them empty.

A faulty layer, whether of the wrong length or with bad letters, does not
stop the check. `check_key` (src/lib.rs:150-154) runs `check_layer` on every
segment and splices in every result, so each faulty layer reports its own
errors; see `KeyProperties.ParseCollectsEveryLayer`.

## Model

| member | source | states |
|---|---|---|
| Ordinals.Ordinal | src/lib.rs:17-26 | the position written 1-based with its suffix; its contract is carried by OrdinalFirstFour, OrdinalSuffixAfterThird and OrdinalInjective |
| Ordinals.OrdinalFirstFour | src/lib.rs:17-26 | indices 0 to 3 are written "1st", "2nd", "3rd" and "4th" |
| Ordinals.OrdinalSuffixAfterThird | src/lib.rs:19-24 | from the 4th position on the suffix is always "th", because it is chosen from the whole number (21 gives "21th") |
| Ordinals.OrdinalInjective | src/lib.rs:17-26 | different indices get different ordinals |
| Ordinals.DecimalRoundTrip | src/lib.rs:25 | the number in an ordinal is the decimal form of the 1-based position, read back without loss |
| ShapeKey.GetSubshape | src/lib.rs:28-43 | the sub-shape lookup; its contract is carried by SubshapeAlphabet, SubshapeRoundTrip and CodesInjective |
| ShapeKey.GetColor | src/lib.rs:45-61 | the colour lookup; its contract is carried by ColorAlphabet, ColorRoundTrip and CodesInjective |
| ShapeKey.SubshapeAlphabet | src/lib.rs:28-43 | the sub-shape check accepts exactly C, S, R and W; an accepted letter is the letter of the sub-shape it gives; any other byte gives an invalid-sub-shape error at that layer and quad |
| ShapeKey.ColorAlphabet | src/lib.rs:45-61 | the colour check accepts exactly r, g, b, y, p, c, w and u; an accepted letter is the letter of the colour it gives; any other byte gives an invalid-colour error at that layer and quad |
| ShapeKey.SubshapeRoundTrip | src/lib.rs:30-34 | every sub-shape's letter reads back as that sub-shape |
| ShapeKey.ColorRoundTrip | src/lib.rs:47-55 | every colour's letter reads back as that colour |
| ShapeKey.CodesInjective | src/lib.rs:28-61 | no two sub-shapes and no two colours share a letter, so both alphabets are one-to-one |
| ShapeKey.CheckQuad | src/lib.rs:63-90 | a quad is empty exactly when both bytes are '-' |
| KeyProperties.QuadChecksIndependently | src/lib.rs:85-89 | a quad other than "--" gets a sub-shape error exactly when its first byte is not a sub-shape letter, and a colour error exactly when its second byte is not a colour letter; each check ignores the other byte, the sub-shape error comes first, and one quad can have both |
| KeyProperties.QuadDiagnosticsLocal | src/lib.rs:78-87 | every error of a quad names that quad's layer and position and one of its two bytes |
| KeyProperties.QuadRoundTrip | src/lib.rs:63-90 | writing any slot and checking it again gives the slot back with no error |
| KeyProperties.QuadAccepted | src/lib.rs:63-90 | a quad that passes with no error is exactly what its slot is written as |
| ShapeKey.ChunkQuads | src/lib.rs:125-127 | quad q of a layer is checked on bytes 2q and 2q+1 as position q |
| ShapeKey.LayerQuadsOf | src/lib.rs:125 | an eight-byte layer splits into four quads |
| ShapeKey.LayerOutput | src/lib.rs:92-141 | a layer that is not an error holds exactly four quad slots |
| ShapeKey.CountNone | src/lib.rs:123-136 | the empty-slot count equals the number of slots exactly when every slot is empty |
| ShapeKey.CheckLayer | src/lib.rs:92-141 | the loop over the quads, counting empty ones, produces the layer output: a length error, the empty-layer error, or the four quads |
| KeyProperties.LayerLengthChecked | src/lib.rs:94-120 | a layer of the wrong length gets exactly one error: odd length first, then more than 8, then less than 8 |
| KeyProperties.EmptyLayerIffAllDashes | src/lib.rs:136-138 | a layer is rejected as empty exactly when it is "--------" |
| KeyProperties.QuadDiagnosticsReported | src/lib.rs:126-134 | in an eight-byte layer, a non-empty quad with a bad sub-shape or colour byte has that error in the layer's errors |
| KeyProperties.LayerDiagnosticsLocal | src/lib.rs:92-141 | every error a layer check produces names that layer, and names a quad below 4 when it names one |
| KeyProperties.LayerDiagnosticsInQuadOrder | src/lib.rs:140 | splicing four quad tokens into a layer reports their errors slot by slot, first slot first |
| KeyProperties.LayerErrorsByQuad | src/lib.rs:123-140 | an eight-byte layer other than "--------" reports exactly the errors of its four quads, bytes 0-1 first, each checked at its own quad position |
| KeyProperties.LayerRoundTrip | src/lib.rs:92-141 | the text of any valid layer passes the layer check with no error and gives that layer back |
| KeyProperties.LayerAcceptedIsEncoding | src/lib.rs:92-141 | a layer that passes with no error is valid, and its text is exactly the eight bytes checked |
| ShapeKey.LayersOutput | src/lib.rs:150-154 | segment i is checked as layer i, in order, one output per segment |
| ShapeKey.KeyOutput | src/lib.rs:143-157 | every layer list the key check produces has four slots in each layer |
| ShapeKey.CheckKey | src/lib.rs:143-157 | the loop over the segments produces the key output: the too-many-layers error, or one layer output per segment |
| KeyProperties.ParseTooManyLayers | src/lib.rs:145-148 | a key with four or more ':' is rejected with only the too-many-layers error, whatever its layers hold |
| KeyProperties.ParseSingleLayer | src/lib.rs:145-156 | a key without ':' is one layer, layer 0, and that layer's errors are the key's errors |
| KeyProperties.ParseCollectsEveryLayer | src/lib.rs:150-154 | in a key of at most four layers, every error of every layer is reported, whatever the other layers hold; empty segments count as layers |
| KeyProperties.ParseErrorsComeFromLayers | src/lib.rs:150-156 | in such a key every reported error comes from one of its layers |
| KeyProperties.ParseDiagnosticsPositioned | src/lib.rs:143-157 | every reported error names a layer below 4, and a quad below 4 when it names one |
| ShapeKey.Parse | src/lib.rs:219-237 | what the macro makes of a key: a rejected key always has at least one error, and an accepted key has one layer per ':'-separated segment; the main theorem ParseAcceptsExactlyShortKeys is about this function |
| ShapeKey.ShapezShape | src/lib.rs:219-237 | the macro refuses the empty key with the empty-input error; otherwise it is the key check followed by compilation; a rejected key always has at least one error |
| KeyProperties.ParseShortKey | src/lib.rs:168-171 | the short key of every valid shape parses back to that shape |
| KeyProperties.ParsedShapeEncodesKey | src/lib.rs:168-171 | a key that parses gives a valid shape whose short key is the key itself, so nothing is normalised away |
| KeyProperties.ParseAcceptsExactlyShortKeys | src/lib.rs:168-213 | a key parses to a shape exactly when the shape is valid and the key is its short key |
| Tokens.Expand | src/lib.rs:229-236 | compiling the generated code fails exactly when some compile error was spliced in, and then reports exactly those errors in order; otherwise the shape has one layer per generated layer |
| Tokens.QuadsErrors | src/lib.rs:140 | the errors of spliced quad slots are taken slot by slot, in order |
| Tokens.LayersErrors | src/lib.rs:156 | the errors of spliced layers are taken layer by layer, in order |
| Tokens.LayersValue | src/lib.rs:156 | with no errors, the compiled layer list holds each layer's value, in order |
| Bytes.Split | src/lib.rs:145 | splitting on ':' gives one more segment than there are ':' bytes, and no segment holds ':' |
| Bytes.JoinSplit | src/lib.rs:145 | joining the segments with ':' gives back the key |
| Bytes.SplitJoin | src/lib.rs:145 | splitting ':'-free pieces joined with ':' gives back the pieces |
| Bytes.SplitWithoutSeparator | src/lib.rs:145 | a key without ':' is one segment |
| Shapes.EncodeSlot | src/lib.rs:168-170 | a slot is written as two bytes, "--" exactly when it is empty |
| Shapes.EncodeLayer | src/lib.rs:168-171 | a layer is written as eight bytes without ':', quad q at bytes 2q and 2q+1 |
| Shapes.ShortKey | src/lib.rs:168-171 | a shape is written as its layers' texts, bottom first, joined by ':', and splitting that key on ':' gives the texts back; ParseAcceptsExactlyShortKeys ties it to the parser |
| Shapes.ValidShape | src/lib.rs:170-209 | a shape a key can describe has one to four layers, none of them empty (four empty quads); the parser accepts exactly the short keys of such shapes (ParseAcceptsExactlyShortKeys) |
| Diagnostics.Message | src/lib.rs:36-226 | the text of each error, as the `format!` calls at lines 38, 58, 80, 105, 115, 137, 147 and 225 write it; its contract is carried by KeyMessageSamples, LayerMessageNamesLayer and QuadMessageNamesPosition |
| Diagnostics.KeyMessageSamples | src/lib.rs:147-225 | the key-level errors read "Empty input" and "Input has more than 4 layers" |
| Diagnostics.LayerMessageNamesLayer | src/lib.rs:102-137 | a layer error's message starts with the layer's ordinal |
| Diagnostics.QuadMessageNamesPosition | src/lib.rs:79-83 | a quad error's message ends with "<layer ordinal> layer, <quad ordinal> quad" |
| Examples.DocShape | src/lib.rs:184-199 | the documented expansion is a valid shape |
| Examples.DocExample | src/lib.rs:175-200 | "RuCrSgWw:Rr------" expands to the documented two layers |
| Examples.EmptyKeyExample | src/lib.rs:224-226 | the empty key gives exactly the empty-input error |
| Examples.FiveLayersExample | src/lib.rs:146-148 | "::::" has five layers and gives exactly the too-many-layers error |
| Examples.EmptyLayerExample | src/lib.rs:136-138 | "--------" gives exactly the empty-layer error for the 1st layer |
| Examples.TooShortExample | src/lib.rs:94-110 | "RuCrSgWw:" has a valid 1st layer and an empty 2nd one, and gives exactly the too-short error for the 2nd layer |
| Examples.BadSubshapeExample | src/lib.rs:35-41 | "XuCw----" gives exactly the invalid-sub-shape error for 'X' in the 1st layer, 1st quad |

## Left out

- Macro plumbing is not modelled: reading the token stream, the string literal
  and its escapes, `syn` spans, and `quote!`. The key is taken as its bytes.
  The generated code is taken as token values.
- How `rustc` reports compile errors is not modelled. `Expand` assumes that
  every `compile_error!` in the expansion is reported, in source order, and
  that the shape is built when there is none.
- Non-ASCII keys are not treated specially. Like `str::len` and
  `as_bytes().chunks(2)`, the model counts and pairs bytes. Like `u8 as char`,
  a message shows the offending byte as the character with that code.
- Ordinals.Ordinal: `n + 1` on `usize` could overflow at `usize::MAX`. The
  model uses unbounded integers; the macro's indices never exceed 3.
- Diagnostics.Message: every message text is modelled. Full texts are proved
  only for the two key-level errors. For layer and quad errors, only the
  ordinals they start or end with are proved.
- The `Shape`, `Quad`, `Subshape` and `Color` types the expansion names are
  defined outside the macro crate. They are modelled here as the datatypes the
  expansion builds, with no further behaviour.
