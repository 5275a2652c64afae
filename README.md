# Signature generator model

A Dafny model of `generateSignature` in `backend/utils/signatureGenerator.js`. This function turns an agent record (`name`, `model`, `theme`, `skillsCount`) into three things:

- a signed 32-bit hash;
- a hex signature id;
- an SVG "constellation" of nodes, the lines joining nearby nodes, one or two faint overlay outlines and a `#id` footer.

The model has three modules:

- `JsInt32` (`js_int32.dfy`) is the JavaScript 32-bit integer semantics the hash loop relies on. It covers ToInt32, `<<` and `&`. Bitwise AND is computed bit by bit.
- `JsText` (`js_text.dfy`) is the string semantics the generator relies on: `Number#toString` for integers (radix 10 and 16), `String#substring`, ASCII upper and lower case, and the UTF-16 code units that `charCodeAt` reads.
- `SignatureGenerator` (`signature_generator.dfy`) is the generator itself:
  - the colour table and its fallback;
  - the hash key and the rolling hash, whose loop is a method proved against a specification function;
  - the node-count clamp and the seeded random source;
  - the node, line, marker and outline loops, each a method proved against a specification function;
  - the two ids and the assembled result.

`Math.sin` is a parameter `sine: int -> real`. The random value `x - floor(x)`, with `x = 10000 * sine(seed + i)`, is then proved to lie in [0, 1) whatever `sine` returns. Geometry is computed in exact reals. The edge test `sqrt(dx*dx + dy*dy) < t` is the comparison `dx*dx + dy*dy < t*t`. The two are equivalent because the threshold `t` is at least 80.

`generateSignature` is modelled by the function `Generated`. The method `GenerateSignature` is proved equal to it, so two calls with the same input give the same hash, id and drawing. `Generated` takes its colours from the corrected lookup `SchemeFor` (see "## Findings"). `GeneratedBackgroundAsWritten` proves that it agrees with the program's background exactly when the model name is not one an object literal inherits from Object.prototype.

The code only takes `substring(0, 8)` of `Math.abs(hash).toString(16)` and never pads. `SignatureIdShape` proves that the id has one to eight digits and no leading zero unless it is `"0"`. `HexFitsEightDigits` proves that the substring never truncates. So a hash of small magnitude gives a short id.

One more observation about the code: `FirstOutlineAlignedWithNodeZero` proves that outline 0 reads random index 0 for all of its values (`0 * 10` through `0 * 15`). That is the same index node 0 reads for its x coordinate, so the first outline always shares node 0's x coordinate.

## Model

| member | source | states |
|---|---|---|
| JsInt32.ToInt32 | backend/utils/signatureGenerator.js:28 | the result is a signed 32-bit value congruent to the argument modulo 2^32 (the conversion inside `&` and `<<`) |
| JsInt32.ToInt32Unique | backend/utils/signatureGenerator.js:28 | any 32-bit value congruent to x modulo 2^32 is ToInt32(x), so the wrap is uniquely determined |
| JsInt32.ShiftLeft | backend/utils/signatureGenerator.js:27 | `x << n` equals ToInt32 of x * 2^(n mod 32), although the operand is wrapped before shifting |
| JsInt32.AndBitsSelf | backend/utils/signatureGenerator.js:28 | a value ANDed with itself bit by bit keeps exactly its low `width` bits |
| JsInt32.ToUint32 | backend/utils/signatureGenerator.js:28 | the unsigned 32-bit pattern is in [0, 2^32) and congruent to the argument |
| JsInt32.BitAnd | backend/utils/signatureGenerator.js:28 | `x & y` yields a signed 32-bit value |
| JsInt32.BitAndSelf | backend/utils/signatureGenerator.js:28 | `x & x` equals ToInt32(x): the self-AND idiom is a 32-bit wrap |
| JsText.RadixString | backend/utils/signatureGenerator.js:108 | `toString(radix)` of a non-negative integer is a non-empty numeral of that radix, in lower case, with no leading zero unless the number is 0 |
| JsText.RadixStringRoundTrip | backend/utils/signatureGenerator.js:108 | reading the numeral back gives the original number |
| JsText.RadixStringLength | backend/utils/signatureGenerator.js:108 | a number below radix^k takes at most k digits |
| JsText.IntegerString | backend/utils/signatureGenerator.js:24 | an integer in a template literal is a minus sign exactly for negatives, followed by the decimal numeral of its magnitude |
| JsText.Substring | backend/utils/signatureGenerator.js:107-108 | `substring(start, end)` with 0 <= start <= end is the slice between the bounds clamped to the length |
| JsText.PrefixSubstring | backend/utils/signatureGenerator.js:108 | `substring(0, k)` is the whole string when it has at most k characters, otherwise its first k |
| JsText.AsciiToUpper | backend/utils/signatureGenerator.js:108 | `toUpperCase` on ASCII keeps the length, leaves no lower-case letter and changes each character only in case |
| JsText.UpperNumeral | backend/utils/signatureGenerator.js:108 | `toUpperCase` keeps a numeral a numeral of the same radix and value |
| JsText.LowerOfUpper | backend/utils/signatureGenerator.js:107-108 | lower-casing undoes upper-casing on text without capitals |
| JsText.CodeUnits | backend/utils/signatureGenerator.js:27 | a character gives one UTF-16 unit (its code point) inside the BMP; above it, a high surrogate in [D800, DC00) and a low surrogate in [DC00, E000) that decode back to the code point |
| JsText.Utf16 | backend/utils/signatureGenerator.js:26-27 | the code units `charCodeAt` reads are all in [0, 65536) and at least as many as the characters |
| JsText.Utf16OfBmp | backend/utils/signatureGenerator.js:26-27 | for BMP text there is one code unit per character, equal to its code point |
| SignatureGenerator.SchemeFor | backend/utils/signatureGenerator.js:22 | the corrected lookup: a table key gets its own entry, any other model the claude-opus-4-5 entry |
| SignatureGenerator.TableSchemesValid | backend/utils/signatureGenerator.js:1-8 | every table entry consists of three #RRGGBB colours |
| SignatureGenerator.SchemeForValid | backend/utils/signatureGenerator.js:22 | the corrected lookup always yields valid colours, for every model string |
| SignatureGenerator.SchemeAsWritten | backend/utils/signatureGenerator.js:22 | the lookup as written: an inherited Object.prototype name yields the colours "undefined", and any other name yields a table entry |
| SignatureGenerator.InheritedKeyBypassesFallback | backend/utils/signatureGenerator.js:22 | the two lookups agree outside the inherited names; on them, the code as written yields an invalid scheme |
| SignatureGenerator.HashKey | backend/utils/signatureGenerator.js:24 | the key's layout: the name, '-', the model, '-', the theme, '-' at those offsets, and then the decimal skill count up to the end |
| SignatureGenerator.KeyCollision | backend/utils/signatureGenerator.js:24 | name "a-b" with model "c" and name "a" with model "b-c" give the same key |
| SignatureGenerator.RollingHash | backend/utils/signatureGenerator.js:25-29 | the hash of any code-unit sequence is a signed 32-bit value |
| SignatureGenerator.HashStep | backend/utils/signatureGenerator.js:27-28 | one loop pass as written, with `<<` and `&`, yields a signed 32-bit value |
| SignatureGenerator.HashStepWraps | backend/utils/signatureGenerator.js:27-28 | one loop pass `((h << 5) - h) + c` then `& itself` equals ToInt32(31h + c) and stays in 32 bits |
| SignatureGenerator.ComputeHash | backend/utils/signatureGenerator.js:24-29 | the loop over the key's code units returns RollingHash of them, a 32-bit value |
| SignatureGenerator.PolynomialAppend | backend/utils/signatureGenerator.js:25-29 | appending a unit to the exact polynomial multiplies it by 31 and adds the unit |
| SignatureGenerator.RollingHashIsPolynomial | backend/utils/signatureGenerator.js:25-29 | wrapping at every step equals wrapping once the exact sum of c_i * 31^(n-1-i) |
| SignatureGenerator.SameKeySameIds | backend/utils/signatureGenerator.js:24-31 | agents with equal keys get equal hash, signature id and clip id |
| SignatureGenerator.Random.At | backend/utils/signatureGenerator.js:32-35 | the seeded random value lies in [0, 1) whatever Math.sin returns |
| SignatureGenerator.NumNodes | backend/utils/signatureGenerator.js:38 | the node count lies in [4, 12]. A count of 0 gives 5, counts in [4, 12] are kept, smaller ones give 4 and larger ones give 12 |
| SignatureGenerator.NodeAt | backend/utils/signatureGenerator.js:48-54 | every node lies in the drawing region [40, 260) x [55, 140) with a radius in [2, 5) |
| SignatureGenerator.LayoutNodes | backend/utils/signatureGenerator.js:47-54 | the loop produces exactly numNodes node records, the i-th being NodeAt(i) |
| SignatureGenerator.DistanceSquared | backend/utils/signatureGenerator.js:58-60 | the squared distance is non-negative |
| SignatureGenerator.Threshold | backend/utils/signatureGenerator.js:62 | the per-pair joining threshold lies in [80, 120) |
| SignatureGenerator.Linked | backend/utils/signatureGenerator.js:58-62 | the edge test compares squares; a pair closer than 80 is always joined, and a joined pair is closer than 120 |
| SignatureGenerator.LineFor | backend/utils/signatureGenerator.js:63-70 | the line of pair (i, j) joins i to j, in the primary colour, with a stroke width in [1, 2.5) and an opacity in [0.15, 0.4) |
| SignatureGenerator.DrawLines | backend/utils/signatureGenerator.js:56-73 | the nested loops produce exactly PairLines: each pair i < j is tested once, in order |
| SignatureGenerator.RowLinesShape | backend/utils/signatureGenerator.js:57-72 | the inner loop draws at most one line per later partner, each from i, in increasing partner order |
| SignatureGenerator.PairLinesShape | backend/utils/signatureGenerator.js:56-73 | at most n(n-1)/2 lines, each joining some i < j < n, in strictly increasing pair order, so no pair is drawn twice |
| SignatureGenerator.RowLinesComplete | backend/utils/signatureGenerator.js:57-72 | the inner loop draws the line of (i, j) if and only if the pair is within its threshold |
| SignatureGenerator.LineDrawnIffLinked | backend/utils/signatureGenerator.js:56-73 | for every pair i < j, its line is drawn if and only if the pair is within its threshold |
| SignatureGenerator.CircleFor | backend/utils/signatureGenerator.js:75-81 | a node's marker is centred on the node, has the node's radius and the secondary colour, and an opacity in [0.4, 0.8) |
| SignatureGenerator.DrawNodeCircles | backend/utils/signatureGenerator.js:75-81 | the forEach produces exactly one marker per node, in node order |
| SignatureGenerator.NumShapes | backend/utils/signatureGenerator.js:83 | there are 1 or 2 outlines, and 2 exactly when random(100) >= 0.5 |
| SignatureGenerator.ShapeAt | backend/utils/signatureGenerator.js:84-105 | an outline is a circle if and only if random(14k) > 0.5, otherwise a square; it has the primary colour and opacity in [0.08, 0.2); its centre is in the drawing region; a square has a side in [15, 40) and is turned by less than 45 degrees; a circle has a radius in [7.5, 20) |
| SignatureGenerator.DrawShapes | backend/utils/signatureGenerator.js:83-105 | the loop produces exactly NumShapes outlines, the k-th being ShapeAt(k) |
| SignatureGenerator.FirstOutlineAlignedWithNodeZero | backend/utils/signatureGenerator.js:85-86 | outline 0 shares node 0's x coordinate and lies on the diagonal of the drawing region |
| SignatureGenerator.HexFitsEightDigits | backend/utils/signatureGenerator.js:108 | the hex of the magnitude of a 32-bit hash has 1 to 8 digits, so `substring(0, 8)` keeps all of it |
| SignatureGenerator.HexOf | backend/utils/signatureGenerator.js:107-108 | `Math.abs(hash).toString(16)` is a hex numeral that reads back as abs(hash) |
| SignatureGenerator.ClipId | backend/utils/signatureGenerator.js:107 | clipId has at most 6 characters and is a prefix of the lower-case hex |
| SignatureGenerator.SignatureId | backend/utils/signatureGenerator.js:108 | signatureId has at most 8 characters and no lower-case letter |
| SignatureGenerator.SignatureIdShape | backend/utils/signatureGenerator.js:108 | signatureId has 1 to 8 characters in 0-9A-F, no leading zero unless it is "0", and reads back as abs(hash) |
| SignatureGenerator.ClipIdIsIdPrefix | backend/utils/signatureGenerator.js:107-108 | clipId is the lower-case form of the first min(6, length) characters of signatureId |
| SignatureGenerator.CountLayerAppend | backend/utils/signatureGenerator.js:65-104 | element counts per layer add up over concatenation |
| SignatureGenerator.LayeredBlocks | backend/utils/signatureGenerator.js:56-105 | lines, then markers, then outlines: the per-layer counts are the block sizes and the layers never go down |
| SignatureGenerator.Generated | backend/utils/signatureGenerator.js:19-122 | the generator as a function of the agent and Math.sin: a 32-bit hash, an id of at most 8 and a clip id of at most 6 characters (its other properties are the lemmas below) |
| SignatureGenerator.GenerateSignature | backend/utils/signatureGenerator.js:19-122 | the generator returns Generated(agent, sine): a function of its input and Math.sin alone, so repeated calls agree |
| SignatureGenerator.DrawingStructure | backend/utils/signatureGenerator.js:56-105 | for any n nodes the drawing holds at most n(n-1)/2 lines, then exactly n markers, then 1 or 2 outlines, and the layers never go down |
| SignatureGenerator.GeneratedStructure | backend/utils/signatureGenerator.js:47-115 | the drawing holds, in order: at most n(n-1)/2 lines, exactly n markers (n = NumNodes) and 1 or 2 outlines. The background is that of the corrected scheme, and the footer is "#" followed by the signature id |
| SignatureGenerator.GeneratedBackgroundAsWritten | backend/utils/signatureGenerator.js:22 | the model's background equals the program's as-written background if and only if the model name is not an inherited Object.prototype name |
| SignatureGenerator.GeneratedIds | backend/utils/signatureGenerator.js:24-31 | the returned hash is 32-bit and equals the wrapped polynomial of the key. The id is derived from it, has 1 to 8 digits and reads back as abs(hash). The clip id is derived from the same hash |
| SignatureGenerator.CollidingAgentsShareSignature | backend/utils/signatureGenerator.js:22-24 | agents "a-b"/"c" and "a"/"b-c" get identical signatures: the same hash, id and drawing |

## Left out

- Floating point: coordinates, sizes, opacities and thresholds are exact reals. IEEE rounding of `+`, `*` and `Math.sqrt` is not modelled, so a pair lying within one rounding step of its threshold may be decided differently.
- `Math.sin` is a parameter. Because of that, no concrete drawing and no concrete edge set can be computed or compared with the program's.
- `toFixed` formatting and the serialisation of the SVG text are not modelled. The SVG is a record of its variable parts: the clip-path id, the background colour, the elements in drawing order and the footer text. The fixed markup around them is left out.
- JsText.AsciiToUpper and JsText.AsciiToLower only model the ASCII part of `toUpperCase`/`toLowerCase`. The generator applies them only to hex digits, where the two agree.
- JsText.Utf16: Dafny strings hold Unicode scalar values. A JavaScript string holding a lone surrogate code unit cannot be written as an input.
- SignatureGenerator.NumNodes: `skillsCount` is modelled as an integer. Strings, fractions, `NaN` and `undefined` are not modelled. These would reach `|| 5` and `Math.max` and the template literal differently.
- JsText.IntegerString: prints the full decimal of an unbounded integer. JavaScript holds integers above 2^53 inexactly and prints a Number of magnitude 10^21 or more in exponent form (`1e+21`), so such skill counts give a different key.
- SignatureGenerator.GenerateSignature: colours come from the corrected lookup `SchemeFor`. For a model name inherited from Object.prototype (`"toString"`, `"constructor"`, ...) the program writes `undefined` for the stroke, the fill and the background; the model writes the claude-opus-4-5 colours. `SchemeAsWritten` models the program's lookup and `GeneratedBackgroundAsWritten` states where the two differ.
- SignatureGenerator.GeneratedStructure: its background clause is the corrected scheme's, which differs from the program's for the inherited names above.
- The HTTP handlers (claim, vote, stats), the database client and the browser share script are not part of this model. Their decisions depend on database results and browser APIs.

## Findings

| source | as written | input that shows it | evidently intended | confidence | as-written member | corrected member |
|---|---|---|---|---|---|---|
| backend/utils/signatureGenerator.js:22 | `colorSchemes[model] \|\| colorSchemes['claude-opus-4-5']` also finds the members an object literal inherits from Object.prototype. These are functions or objects and so truthy, which means the fallback is skipped. Every colour of the SVG then reads `undefined` | model `"toString"` (also `"constructor"`, `"__proto__"`, `"valueOf"`, ...), which the claim handler passes through unchecked | unknown models, inherited names included, fall back to the claude-opus-4-5 scheme | high; not executed | SignatureGenerator.InheritedKeyBypassesFallback | SignatureGenerator.SchemeForValid |
