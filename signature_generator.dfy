/** The deterministic signature generator of
    backend/utils/signatureGenerator.js: an agent's name, model, theme and
    skill count determine a 32-bit hash, a hex identifier and an SVG
    "constellation" (nodes, the lines between close nodes, one or two faint
    overlay outlines and a `#id` label). */
module SignatureGenerator {
  import opened JsInt32
  import opened JsText

  // ---------------------------------------------------------------------
  // Colour schemes
  // ---------------------------------------------------------------------

  datatype ColorScheme = ColorScheme(primary: string, secondary: string, bg: string)

  const DefaultModel: string := "claude-opus-4-5"

  /** The `colorSchemes` table: one scheme per known model. */
  const ColorSchemes: map<string, ColorScheme> := map[
    "claude-opus-4-5" := ColorScheme("#9333EA", "#E879F9", "#FAF5FF"),
    "claude-sonnet-4-5" := ColorScheme("#3B82F6", "#06B6D4", "#EFF6FF"),
    "claude-haiku-4-5" := ColorScheme("#10B981", "#34D399", "#ECFDF5"),
    "gpt-4" := ColorScheme("#F97316", "#FBBF24", "#FFF7ED"),
    "gpt-4-turbo" := ColorScheme("#EF4444", "#FB7185", "#FEF2F2"),
    "llama-3" := ColorScheme("#14B8A6", "#0EA5E9", "#F0FDFA")
  ]

  /** The property names an object literal inherits from Object.prototype
      in Node.js: `colorSchemes[key]` finds these although the table does
      not declare them. */
  const InheritedKeys: set<string> := {
    "constructor", "__proto__", "hasOwnProperty", "isPrototypeOf",
    "propertyIsEnumerable", "toLocaleString", "toString", "valueOf",
    "__defineGetter__", "__defineSetter__", "__lookupGetter__", "__lookupSetter__"
  }

  /** What the template literals print for the colours of a value that is
      not a scheme: each `${colors.primary}` reads a missing property. */
  const UndefinedScheme: ColorScheme := ColorScheme("undefined", "undefined", "undefined")

  /** A CSS colour of the form #RRGGBB. */
  predicate IsHexColor(s: string) {
    |s| == 7 && s[0] == '#' && IsNumeral(s[1..], 16)
  }

  predicate IsValidScheme(c: ColorScheme) {
    IsHexColor(c.primary) && IsHexColor(c.secondary) && IsHexColor(c.bg)
  }

  /** `colorSchemes[model] || colorSchemes['claude-opus-4-5']` as written.
      An inherited member is a function or an object, which is truthy, so
      the fallback is skipped and its colour fields are undefined. */
  function SchemeAsWritten(model: string): (c: ColorScheme)
    ensures model in InheritedKeys ==> c == UndefinedScheme
    ensures model !in InheritedKeys ==> c in ColorSchemes.Values
  {
    if model in ColorSchemes then ColorSchemes[model]
    else if model in InheritedKeys then UndefinedScheme
    else ColorSchemes[DefaultModel]
  }

  /** The colour lookup with the fallback the table is evidently meant to
      have: a model that is not one of the table's own keys gets the
      claude-opus-4-5 scheme. */
  function SchemeFor(model: string): (c: ColorScheme)
    ensures c in ColorSchemes.Values
    ensures model in ColorSchemes ==> c == ColorSchemes[model]
    ensures model !in ColorSchemes ==> c == ColorSchemes[DefaultModel]
  {
    if model in ColorSchemes then ColorSchemes[model] else ColorSchemes[DefaultModel]
  }

  /** A #RRGGBB literal: the six characters after '#' are hex digits. */
  lemma HexColorLiteral(s: string)
    requires |s| == 7 && s[0] == '#'
    requires forall i :: 1 <= i < 7 ==> '0' <= s[i] <= '9' || 'A' <= s[i] <= 'F'
    ensures IsHexColor(s)
  {
    assert forall i :: 0 <= i < 6 ==> s[1..][i] == s[i + 1];
  }

  /** Every scheme of the table consists of three #RRGGBB colours. */
  lemma TableSchemesValid()
    ensures forall m :: m in ColorSchemes ==> IsValidScheme(ColorSchemes[m])
  {
    assert ColorSchemes.Keys == {"claude-opus-4-5", "claude-sonnet-4-5", "claude-haiku-4-5", "gpt-4", "gpt-4-turbo", "llama-3"};
    OpusEntryValid();
    SonnetEntryValid();
    HaikuEntryValid();
    Gpt4EntryValid();
    Gpt4TurboEntryValid();
    LlamaEntryValid();
  }

  lemma OpusEntryValid()
    ensures IsValidScheme(ColorSchemes["claude-opus-4-5"])
  {
    LiteralScheme("#9333EA", "#E879F9", "#FAF5FF");
  }

  lemma SonnetEntryValid()
    ensures IsValidScheme(ColorSchemes["claude-sonnet-4-5"])
  {
    LiteralScheme("#3B82F6", "#06B6D4", "#EFF6FF");
  }

  lemma HaikuEntryValid()
    ensures IsValidScheme(ColorSchemes["claude-haiku-4-5"])
  {
    LiteralScheme("#10B981", "#34D399", "#ECFDF5");
  }

  lemma Gpt4EntryValid()
    ensures IsValidScheme(ColorSchemes["gpt-4"])
  {
    LiteralScheme("#F97316", "#FBBF24", "#FFF7ED");
  }

  lemma Gpt4TurboEntryValid()
    ensures IsValidScheme(ColorSchemes["gpt-4-turbo"])
  {
    LiteralScheme("#EF4444", "#FB7185", "#FEF2F2");
  }

  lemma LlamaEntryValid()
    ensures IsValidScheme(ColorSchemes["llama-3"])
  {
    LiteralScheme("#14B8A6", "#0EA5E9", "#F0FDFA");
  }

  lemma LiteralScheme(primary: string, secondary: string, bg: string)
    requires |primary| == 7 && primary[0] == '#'
    requires forall i :: 1 <= i < 7 ==> '0' <= primary[i] <= '9' || 'A' <= primary[i] <= 'F'
    requires |secondary| == 7 && secondary[0] == '#'
    requires forall i :: 1 <= i < 7 ==> '0' <= secondary[i] <= '9' || 'A' <= secondary[i] <= 'F'
    requires |bg| == 7 && bg[0] == '#'
    requires forall i :: 1 <= i < 7 ==> '0' <= bg[i] <= '9' || 'A' <= bg[i] <= 'F'
    ensures IsValidScheme(ColorScheme(primary, secondary, bg))
  {
    HexColorLiteral(primary);
    HexColorLiteral(secondary);
    HexColorLiteral(bg);
  }

  /** The corrected lookup always yields three #RRGGBB colours. */
  lemma SchemeForValid(model: string)
    ensures IsValidScheme(SchemeFor(model))
  {
    TableSchemesValid();
    assert DefaultModel in ColorSchemes;
  }

  /** The lookup as written agrees with the corrected one except on the
      inherited names, where it yields the colour "undefined", which is
      not a colour. */
  lemma InheritedKeyBypassesFallback(model: string)
    ensures model !in InheritedKeys ==> SchemeAsWritten(model) == SchemeFor(model)
    ensures model in InheritedKeys ==>
      SchemeAsWritten(model).primary == "undefined" && !IsValidScheme(SchemeAsWritten(model))
  {
    if model in InheritedKeys {
      assert model !in ColorSchemes;
    }
  }

  // ---------------------------------------------------------------------
  // Hash
  // ---------------------------------------------------------------------

  /** The agent record the generator receives. */
  datatype AgentData = AgentData(name: string, model: string, theme: string, skillsCount: int)

  /** The template `${name}-${model}-${theme}-${skillsCount}`. */
  function HashKey(agent: AgentData): (key: string)
    ensures var n, m, t := |agent.name|, |agent.model|, |agent.theme|;
      && |key| == n + m + t + 3 + |IntegerString(agent.skillsCount)|
      && key[..n] == agent.name && key[n] == '-'
      && key[n + 1..n + 1 + m] == agent.model && key[n + 1 + m] == '-'
      && key[n + m + 2..n + m + 2 + t] == agent.theme && key[n + m + 2 + t] == '-'
      && key[n + m + t + 3..] == IntegerString(agent.skillsCount)
  {
    agent.name + "-" + agent.model + "-" + agent.theme + "-" + IntegerString(agent.skillsCount)
  }

  /** The hash after consuming `units`: each unit multiplies the running
      value by 31, adds the unit and wraps to 32 bits. */
  function RollingHash(units: seq<int>): (h: int)
    ensures IsInt32(h)
  {
    if units == [] then 0
    else ToInt32(31 * RollingHash(units[..|units| - 1]) + units[|units| - 1])
  }

  /** One pass of the loop body as written:
      `hash = ((hash << 5) - hash) + c; hash = hash & hash`. */
  function HashStep(hash: int, c: int): (h: int)
    ensures IsInt32(h)
  {
    var t := (ShiftLeft(hash, 5) - hash) + c;
    BitAnd(t, t)
  }

  /** The shift-and-subtract step is a multiplication by 31 wrapped to
      32 bits, so the hash stays a signed 32-bit value after every step. */
  lemma HashStepWraps(hash: int, c: int)
    ensures HashStep(hash, c) == ToInt32(31 * hash + c)
    ensures IsInt32(HashStep(hash, c))
  {
    var s := ShiftLeft(hash, 5);
    assert s == ToInt32(hash * 32) by {
      assert Pow2(5) == 32;
    }
    var t := (s - hash) + c;
    assert HashStep(hash, c) == ToInt32(t) by {
      BitAndSelf(t);
    }
    assert ToInt32(t) == ToInt32(31 * hash + c) by {
      assert t - (31 * hash + c) == s - hash * 32;
      ToInt32Congruent(t, 31 * hash + c);
    }
  }

  /** One more unit: the hash of units[..i + 1] is one loop pass applied
      to the hash of units[..i]. */
  lemma RollingHashStep(units: seq<int>, i: nat, hash: int)
    requires i < |units| && hash == RollingHash(units[..i])
    ensures HashStep(hash, units[i]) == RollingHash(units[..i + 1])
  {
    var next := units[..i + 1];
    assert next[..|next| - 1] == units[..i];
    assert RollingHash(next) == ToInt32(31 * hash + units[i]);
    HashStepWraps(hash, units[i]);
  }

  /** Lines 24-29: the hash of the key string, read as UTF-16 code units. */
  method ComputeHash(hashString: string) returns (hash: int)
    ensures hash == RollingHash(Utf16(hashString))
    ensures IsInt32(hash)
  {
    var units := Utf16(hashString);
    hash := 0;
    assert units[..0] == [];
    for i := 0 to |units|
      invariant hash == RollingHash(units[..i])
    {
      ghost var before := hash;
      hash := ((ShiftLeft(hash, 5)) - hash) + units[i];
      hash := BitAnd(hash, hash);
      RollingHashStep(units, i, before);
    }
    assert units[..|units|] == units;
  }

  /** c0 * 31^(n-1) + c1 * 31^(n-2) + ... + c(n-1), without wrap-around. */
  function Polynomial(units: seq<int>): int {
    if units == [] then 0
    else units[0] * Power(31, |units| - 1) + Polynomial(units[1..])
  }

  lemma {:induction false} PolynomialAppend(units: seq<int>, c: int)
    ensures Polynomial(units + [c]) == 31 * Polynomial(units) + c
    decreases |units|
  {
    var s := units + [c];
    if units == [] {
      assert s == [c];
      assert s[1..] == [];
    } else {
      var k := |units| - 1;
      assert s[1..] == units[1..] + [c];
      PolynomialAppend(units[1..], c);
      assert Power(31, k + 1) == 31 * Power(31, k);
      assert units[0] * (31 * Power(31, k)) == 31 * (units[0] * Power(31, k));
    }
  }

  /** Wrapping after every step gives the same hash as wrapping the exact
      polynomial once at the end. */
  lemma {:induction false} RollingHashIsPolynomial(units: seq<int>)
    ensures RollingHash(units) == ToInt32(Polynomial(units))
    decreases |units|
  {
    if units == [] {
      ToInt32OfInt32(0);
    } else {
      var init, c := units[..|units| - 1], units[|units| - 1];
      RollingHashIsPolynomial(init);
      assert units == init + [c];
      PolynomialAppend(init, c);
      var p := Polynomial(init);
      var w := ToInt32(p);
      assert (31 * w + c) - (31 * p + c) == 31 * (w - p);
      MultipleOfModulus(w - p, 31);
      ToInt32Congruent(31 * w + c, 31 * p + c);
    }
  }

  /** The hash depends on the key string alone: agents whose keys coincide
      receive the same hash. */
  lemma KeyCollision(theme: string, skillsCount: int)
    ensures HashKey(AgentData("a-b", "c", theme, skillsCount))
         == HashKey(AgentData("a", "b-c", theme, skillsCount))
  {
  }

  // ---------------------------------------------------------------------
  // Seeded randomness, node count and layout
  // ---------------------------------------------------------------------

  /** The `random` closure of lines 31-35. `sine` stands for Math.sin;
      the fractional part of 10000 * sine(seed + index) lies in [0, 1)
      whatever values `sine` takes. */
  datatype Random = Random(sine: int -> real, seed: nat) {
    function At(index: int): (r: real)
      ensures 0.0 <= r < 1.0
    {
      var x := sine(seed + index) * 10000.0;
      x - x.Floor as real
    }
  }

  function Abs(x: int): (r: nat)
    ensures r == x || r == -x
  {
    if x < 0 then -x else x
  }

  /** Line 38: `Math.min(Math.max(skillsCount || 5, 4), 12)`; the count 0 is
      falsy and stands for 5. */
  function NumNodes(skillsCount: int): (n: nat)
    ensures 4 <= n <= 12
    ensures skillsCount == 0 ==> n == 5
    ensures skillsCount != 0 && 4 <= skillsCount <= 12 ==> n == skillsCount
    ensures skillsCount != 0 && skillsCount < 4 ==> n == 4
    ensures skillsCount > 12 ==> n == 12
  {
    var count := if skillsCount != 0 then skillsCount else 5;
    var atLeast := if count > 4 then count else 4;
    if atLeast < 12 then atLeast else 12
  }

  const Padding: real := 40.0
  const MinX: real := Padding
  const MaxX: real := 300.0 - Padding
  const MinY: real := Padding + 15.0
  const MaxY: real := 200.0 - Padding - 20.0
  const DrawWidth: real := MaxX - MinX
  const DrawHeight: real := MaxY - MinY

  datatype Node = Node(x: real, y: real, size: real)

  /** Node `i` of lines 48-54: a point of the drawing region with a radius
      between 2 and 5. */
  function NodeAt(rng: Random, i: nat): (node: Node)
    ensures MinX <= node.x < MaxX && MinY <= node.y < MaxY
    ensures 2.0 <= node.size < 5.0
  {
    Node(MinX + rng.At(i * 2) * DrawWidth,
         MinY + rng.At(i * 2 + 1) * DrawHeight,
         2.0 + rng.At(i * 3) * 3.0)
  }

  function Nodes(rng: Random, count: nat): (nodes: seq<Node>)
    ensures |nodes| == count
  {
    seq(count, i requires 0 <= i < count => NodeAt(rng, i))
  }

  /** Lines 47-54: one node record per node, in index order. */
  method LayoutNodes(rng: Random, numNodes: nat) returns (nodes: seq<Node>)
    ensures |nodes| == numNodes
    ensures forall i :: 0 <= i < numNodes ==> nodes[i] == NodeAt(rng, i)
  {
    nodes := [];
    for i := 0 to numNodes
      invariant |nodes| == i
      invariant forall k :: 0 <= k < i ==> nodes[k] == NodeAt(rng, k)
    {
      var x := MinX + rng.At(i * 2) * DrawWidth;
      var y := MinY + rng.At(i * 2 + 1) * DrawHeight;
      var size := 2.0 + rng.At(i * 3) * 3.0;
      nodes := nodes + [Node(x, y, size)];
    }
  }

  // ---------------------------------------------------------------------
  // Elements of the drawing
  // ---------------------------------------------------------------------

  /** One element of the clipped group, before number formatting. A line
      remembers the pair of nodes it joins. */
  datatype Element =
    | Line(from: nat, to: nat, x1: real, y1: real, x2: real, y2: real,
           stroke: string, strokeWidth: real, opacity: real)
    | NodeCircle(cx: real, cy: real, r: real, fill: string, opacity: real)
    | OutlineCircle(cx: real, cy: real, r: real, stroke: string, opacity: real)
    | OutlineSquare(x: real, y: real, side: real, stroke: string, opacity: real,
                    rotation: real, cx: real, cy: real)

  /** Lines 58-60 before the square root: dx * dx + dy * dy. */
  function DistanceSquared(a: Node, b: Node): (d: real)
    ensures d >= 0.0
  {
    var dx := b.x - a.x;
    var dy := b.y - a.y;
    dx * dx + dy * dy
  }

  /** Line 62: the per-pair threshold 80 + 40 * random(i * j). */
  function Threshold(rng: Random, i: nat, j: nat): (t: real)
    ensures 80.0 <= t < 120.0
  {
    80.0 + rng.At(i * j) * 40.0
  }

  /** Line 62: nodes i and j are joined when their distance is below the
      threshold. The threshold is positive, so comparing the square root of
      the squared distance with it is comparing the squares. */
  predicate Linked(rng: Random, nodes: seq<Node>, i: nat, j: nat)
    requires i < j < |nodes|
    ensures DistanceSquared(nodes[i], nodes[j]) < Square(80.0) ==> Linked(rng, nodes, i, j)
    ensures Linked(rng, nodes, i, j) ==> DistanceSquared(nodes[i], nodes[j]) < Square(120.0)
  {
    var t := Threshold(rng, i, j);
    SquareMonotone(80.0, t);
    SquareMonotone(t, 120.0);
    DistanceSquared(nodes[i], nodes[j]) < Square(t)
  }

  function Square(t: real): real {
    t * t
  }

  lemma SquareMonotone(a: real, b: real)
    requires 0.0 <= a <= b
    ensures Square(a) <= Square(b)
  {
    assert a * a <= a * b <= b * b;
  }

  /** The `<line>` of lines 63-70 for the pair (i, j). */
  function LineFor(rng: Random, colors: ColorScheme, nodes: seq<Node>, i: nat, j: nat): (e: Element)
    requires i < j < |nodes|
    ensures e.Line? && e.from == i && e.to == j && e.stroke == colors.primary
    ensures 1.0 <= e.strokeWidth < 2.5 && 0.15 <= e.opacity < 0.4
  {
    Line(i, j, nodes[i].x, nodes[i].y, nodes[j].x, nodes[j].y, colors.primary,
         1.0 + rng.At(i * 2 + j) * 1.5, 0.15 + rng.At(i + j) * 0.25)
  }

  /** The lines the inner loop draws for node i, from partner j on. */
  function RowLines(rng: Random, colors: ColorScheme, nodes: seq<Node>, i: nat, j: nat): seq<Element>
    requires i < j <= |nodes|
    decreases |nodes| - j
  {
    if j == |nodes| then []
    else
      (if Linked(rng, nodes, i, j) then [LineFor(rng, colors, nodes, i, j)] else [])
      + RowLines(rng, colors, nodes, i, j + 1)
  }

  /** The lines the two nested loops draw for nodes i, i+1, ... */
  function PairLines(rng: Random, colors: ColorScheme, nodes: seq<Node>, i: nat): seq<Element>
    requires i <= |nodes|
    decreases |nodes| - i
  {
    if i == |nodes| then []
    else RowLines(rng, colors, nodes, i, i + 1) + PairLines(rng, colors, nodes, i + 1)
  }

  /** (a, b) comes strictly before (c, d) in the order the loops visit
      pairs. */
  predicate PairBefore(e: Element, f: Element)
    requires e.Line? && f.Line?
  {
    e.from < f.from || (e.from == f.from && e.to < f.to)
  }

  /** Number of unordered pairs of m nodes. */
  function Pairs(m: nat): nat {
    m * (m - 1) / 2
  }

  lemma PairsStep(m: nat)
    requires m >= 1
    ensures Pairs(m) == (m - 1) + Pairs(m - 1)
  {
    assert m * (m - 1) == 2 * (m - 1) + (m - 1) * (m - 2);
  }

  /** The row of node i holds at most one line per later partner, each
      joining i to a partner j' >= j, in increasing partner order. */
  lemma {:induction false} RowLinesShape(rng: Random, colors: ColorScheme, nodes: seq<Node>, i: nat, j: nat)
    requires i < j <= |nodes|
    ensures var r := RowLines(rng, colors, nodes, i, j);
      && |r| <= |nodes| - j
      && (forall k :: 0 <= k < |r| ==> r[k].Line? && r[k].from == i && j <= r[k].to < |nodes|)
      && (forall a, b :: 0 <= a < b < |r| ==> r[a].to < r[b].to)
    decreases |nodes| - j
  {
    if j < |nodes| {
      RowLinesShape(rng, colors, nodes, i, j + 1);
    }
  }

  /** A row of lines from node i, in increasing partner order, followed by
      lines between later nodes in pair order, is in pair order. */
  lemma RowThenRest(row: seq<Element>, rest: seq<Element>, i: nat, n: nat)
    requires forall k :: 0 <= k < |row| ==> row[k].Line? && row[k].from == i && i < row[k].to < n
    requires forall a, b :: 0 <= a < b < |row| ==> row[a].to < row[b].to
    requires forall k :: 0 <= k < |rest| ==> rest[k].Line? && i + 1 <= rest[k].from < rest[k].to < n
    requires forall a, b :: 0 <= a < b < |rest| ==> PairBefore(rest[a], rest[b])
    ensures var r := row + rest;
      && (forall k :: 0 <= k < |r| ==> r[k].Line? && i <= r[k].from < r[k].to < n)
      && (forall a, b :: 0 <= a < b < |r| ==> PairBefore(r[a], r[b]))
  {
    var r := row + rest;
    forall a, b | 0 <= a < b < |r|
      ensures PairBefore(r[a], r[b])
    {
      if b < |row| {
        assert r[a] == row[a] && r[b] == row[b];
      } else if a < |row| {
        assert r[a] == row[a] && r[b] == rest[b - |row|];
      } else {
        assert r[a] == rest[a - |row|] && r[b] == rest[b - |row|];
      }
    }
  }

  /** The lines of nodes i, i+1, ... are at most Pairs(n - i) lines, each
      joining a pair i <= from < to < n, in strictly increasing pair order,
      so no pair is joined twice. */
  lemma {:induction false} PairLinesShape(rng: Random, colors: ColorScheme, nodes: seq<Node>, i: nat)
    requires i <= |nodes|
    ensures var r := PairLines(rng, colors, nodes, i);
      && |r| <= Pairs(|nodes| - i)
      && (forall k :: 0 <= k < |r| ==> r[k].Line? && i <= r[k].from < r[k].to < |nodes|)
      && (forall a, b :: 0 <= a < b < |r| ==> PairBefore(r[a], r[b]))
    decreases |nodes| - i
  {
    if i < |nodes| {
      var row := RowLines(rng, colors, nodes, i, i + 1);
      var rest := PairLines(rng, colors, nodes, i + 1);
      RowLinesShape(rng, colors, nodes, i, i + 1);
      PairLinesShape(rng, colors, nodes, i + 1);
      PairsStep(|nodes| - i);
      assert PairLines(rng, colors, nodes, i) == row + rest;
      RowThenRest(row, rest, i, |nodes|);
    }
  }

  /** Lines 56-73: each pair i < j is tested once, in order, and joined by
      a line when it is Linked. */
  method DrawLines(rng: Random, colors: ColorScheme, nodes: seq<Node>) returns (lines: seq<Element>)
    ensures lines == PairLines(rng, colors, nodes, 0)
  {
    lines := [];
    var i := 0;
    assert lines + PairLines(rng, colors, nodes, 0) == PairLines(rng, colors, nodes, 0);
    while i < |nodes|
      invariant 0 <= i <= |nodes|
      invariant lines + PairLines(rng, colors, nodes, i) == PairLines(rng, colors, nodes, 0)
    {
      assert PairLines(rng, colors, nodes, i)
        == RowLines(rng, colors, nodes, i, i + 1) + PairLines(rng, colors, nodes, i + 1);
      var j := i + 1;
      while j < |nodes|
        invariant i + 1 <= j <= |nodes|
        invariant lines + RowLines(rng, colors, nodes, i, j) + PairLines(rng, colors, nodes, i + 1)
               == PairLines(rng, colors, nodes, 0)
      {
        ghost var drawn := lines;
        ghost var later := RowLines(rng, colors, nodes, i, j + 1);
        ghost var rest := PairLines(rng, colors, nodes, i + 1);
        var distanceSquared := DistanceSquared(nodes[i], nodes[j]);
        var limit := Threshold(rng, i, j);
        if distanceSquared < Square(limit) {
          var strokeWidth := 1.0 + rng.At(i * 2 + j) * 1.5;
          var opacity := 0.15 + rng.At(i + j) * 0.25;
          var line := Line(i, j, nodes[i].x, nodes[i].y, nodes[j].x, nodes[j].y,
                           colors.primary, strokeWidth, opacity);
          assert line == LineFor(rng, colors, nodes, i, j);
          assert RowLines(rng, colors, nodes, i, j) == [line] + later;
          lines := lines + [line];
          assert drawn + ([line] + later) + rest == lines + later + rest;
        } else {
          assert RowLines(rng, colors, nodes, i, j) == [] + later;
          assert [] + later == later;
        }
        j := j + 1;
      }
      assert RowLines(rng, colors, nodes, i, j) == [];
      i := i + 1;
    }
  }

  /** The row for node i holds the line of pair (i, j) exactly when the
      pair is linked. */
  lemma {:induction false} RowLinesComplete(rng: Random, colors: ColorScheme, nodes: seq<Node>,
                                             i: nat, j0: nat, j: nat)
    requires i < j0 <= j < |nodes|
    ensures LineFor(rng, colors, nodes, i, j) in RowLines(rng, colors, nodes, i, j0)
        <==> Linked(rng, nodes, i, j)
    decreases j - j0
  {
    var e := LineFor(rng, colors, nodes, i, j);
    var rest := RowLines(rng, colors, nodes, i, j0 + 1);
    if j == j0 {
      RowLinesShape(rng, colors, nodes, i, j0 + 1);
      assert e !in rest;
    } else {
      RowLinesComplete(rng, colors, nodes, i, j0 + 1, j);
    }
  }

  /** The line of pair (i, j) can only be in the row of node i: the other
      rows hold lines from other nodes. */
  lemma PairLinesStep(rng: Random, colors: ColorScheme, nodes: seq<Node>, i0: nat, i: nat, j: nat)
    requires i0 <= i < j < |nodes|
    ensures LineFor(rng, colors, nodes, i, j) in PairLines(rng, colors, nodes, i0)
        <==> if i == i0 then LineFor(rng, colors, nodes, i, j) in RowLines(rng, colors, nodes, i0, i0 + 1)
             else LineFor(rng, colors, nodes, i, j) in PairLines(rng, colors, nodes, i0 + 1)
  {
    var e := LineFor(rng, colors, nodes, i, j);
    var row := RowLines(rng, colors, nodes, i0, i0 + 1);
    var rest := PairLines(rng, colors, nodes, i0 + 1);
    assert PairLines(rng, colors, nodes, i0) == row + rest;
    assert e in row + rest <==> e in row || e in rest;
    if i == i0 {
      PairLinesShape(rng, colors, nodes, i0 + 1);
      assert e !in rest;
    } else {
      RowLinesShape(rng, colors, nodes, i0, i0 + 1);
      assert e !in row;
    }
  }

  /** A line is drawn for a pair i < j exactly when the pair is linked. */
  lemma {:induction false} LineDrawnIffLinked(rng: Random, colors: ColorScheme, nodes: seq<Node>,
                                               i0: nat, i: nat, j: nat)
    requires i0 <= i < j < |nodes|
    ensures LineFor(rng, colors, nodes, i, j) in PairLines(rng, colors, nodes, i0)
        <==> Linked(rng, nodes, i, j)
    decreases |nodes| - i0
  {
    PairLinesStep(rng, colors, nodes, i0, i, j);
    var e := LineFor(rng, colors, nodes, i, j);
    if i == i0 {
      RowLinesComplete(rng, colors, nodes, i0, i0 + 1, j);
      assert e in PairLines(rng, colors, nodes, i0) <==> e in RowLines(rng, colors, nodes, i0, i0 + 1);
    } else {
      LineDrawnIffLinked(rng, colors, nodes, i0 + 1, i, j);
      assert e in PairLines(rng, colors, nodes, i0) <==> e in PairLines(rng, colors, nodes, i0 + 1);
    }
  }

  /** The filled marker of lines 75-81 for node i. */
  function CircleFor(rng: Random, colors: ColorScheme, node: Node, i: nat): (e: Element)
    ensures e.NodeCircle? && e.cx == node.x && e.cy == node.y && e.r == node.size
    ensures e.fill == colors.secondary && 0.4 <= e.opacity < 0.8
  {
    NodeCircle(node.x, node.y, node.size, colors.secondary, 0.4 + rng.At(i * 4) * 0.4)
  }

  function NodeCircles(rng: Random, colors: ColorScheme, nodes: seq<Node>): (r: seq<Element>)
    ensures |r| == |nodes|
  {
    seq(|nodes|, i requires 0 <= i < |nodes| => CircleFor(rng, colors, nodes[i], i))
  }

  /** Lines 75-81: one filled circle per node, in node order. */
  method DrawNodeCircles(rng: Random, colors: ColorScheme, nodes: seq<Node>) returns (circles: seq<Element>)
    ensures |circles| == |nodes|
    ensures forall i :: 0 <= i < |nodes| ==> circles[i] == CircleFor(rng, colors, nodes[i], i)
  {
    circles := [];
    for i := 0 to |nodes|
      invariant |circles| == i
      invariant forall k :: 0 <= k < i ==> circles[k] == CircleFor(rng, colors, nodes[k], k)
    {
      var opacity := 0.4 + rng.At(i * 4) * 0.4;
      circles := circles + [NodeCircle(nodes[i].x, nodes[i].y, nodes[i].size, colors.secondary, opacity)];
    }
  }

  /** Line 83: `Math.floor(random(100) * 2) + 1`. */
  function NumShapes(rng: Random): (k: int)
    ensures k == 1 || k == 2
    ensures k == 2 <==> rng.At(100) >= 0.5
  {
    (rng.At(100) * 2.0).Floor + 1
  }

  /** Overlay shape k of lines 85-104: a circle outline when random(14k)
      exceeds one half, otherwise a square outline turned by up to 45
      degrees about the same centre. */
  function ShapeAt(rng: Random, colors: ColorScheme, k: nat): (e: Element)
    ensures e.OutlineCircle? <==> rng.At(k * 14) > 0.5
    ensures e.OutlineCircle? || e.OutlineSquare?
    ensures e.stroke == colors.primary && 0.08 <= e.opacity < 0.2
    ensures e.OutlineSquare? ==> 0.0 <= e.rotation < 45.0 && 15.0 <= e.side < 40.0
    ensures e.OutlineCircle? ==> 7.5 <= e.r < 20.0
    ensures MinX <= e.cx < MaxX && MinY <= e.cy < MaxY
  {
    var cx := MinX + rng.At(k * 10) * DrawWidth;
    var cy := MinY + rng.At(k * 11) * DrawHeight;
    var size := 15.0 + rng.At(k * 12) * 25.0;
    var opacity := 0.08 + rng.At(k * 13) * 0.12;
    if rng.At(k * 14) > 0.5 then OutlineCircle(cx, cy, size / 2.0, colors.primary, opacity)
    else OutlineSquare(cx - size / 2.0, cy - size / 2.0, size, colors.primary, opacity,
                       rng.At(k * 15) * 45.0, cx, cy)
  }

  function Shapes(rng: Random, colors: ColorScheme): (r: seq<Element>)
    ensures |r| == NumShapes(rng)
  {
    seq(NumShapes(rng), k requires 0 <= k < NumShapes(rng) => ShapeAt(rng, colors, k))
  }

  /** Lines 83-105: one or two overlay outlines. */
  method DrawShapes(rng: Random, colors: ColorScheme) returns (shapes: seq<Element>)
    ensures |shapes| == NumShapes(rng)
    ensures forall k :: 0 <= k < |shapes| ==> shapes[k] == ShapeAt(rng, colors, k)
  {
    var numShapes := (rng.At(100) * 2.0).Floor + 1;
    shapes := [];
    for k := 0 to numShapes
      invariant |shapes| == k
      invariant forall m :: 0 <= m < k ==> shapes[m] == ShapeAt(rng, colors, m)
    {
      var cx := MinX + rng.At(k * 10) * DrawWidth;
      var cy := MinY + rng.At(k * 11) * DrawHeight;
      var size := 15.0 + rng.At(k * 12) * 25.0;
      var opacity := 0.08 + rng.At(k * 13) * 0.12;
      if rng.At(k * 14) > 0.5 {
        shapes := shapes + [OutlineCircle(cx, cy, size / 2.0, colors.primary, opacity)];
      } else {
        var rotation := rng.At(k * 15) * 45.0;
        shapes := shapes + [OutlineSquare(cx - size / 2.0, cy - size / 2.0, size, colors.primary,
                                          opacity, rotation, cx, cy)];
      }
    }
  }

  // ---------------------------------------------------------------------
  // Identifiers
  // ---------------------------------------------------------------------

  /** `Math.abs(hash).toString(16)`. */
  function HexOf(hash: int): (hex: string)
    ensures IsNumeral(hex, 16) && NumeralValue(hex, 16) == Abs(hash)
  {
    RadixStringRoundTrip(Abs(hash), 16);
    RadixString(Abs(hash), 16)
  }

  /** Line 107: the first six characters of the lower-case hex. */
  function ClipId(hash: int): (id: string)
    ensures |id| <= 6 && |id| <= |HexOf(hash)| && id == HexOf(hash)[..|id|]
  {
    Substring(HexOf(hash), 0, 6)
  }

  /** Line 108: the first eight characters of the hex, upper-cased. */
  function SignatureId(hash: int): (id: string)
    ensures |id| <= 8
    ensures forall i :: 0 <= i < |id| ==> !('a' <= id[i] <= 'z')
  {
    AsciiToUpper(Substring(HexOf(hash), 0, 8))
  }

  predicate IsUpperHexDigit(c: char) {
    '0' <= c <= '9' || 'A' <= c <= 'F'
  }

  /** A 32-bit hash has a magnitude of at most 2^31, which takes at most
      eight hex digits, so the substring keeps the whole hex. */
  lemma HexFitsEightDigits(hash: int)
    requires IsInt32(hash)
    ensures 1 <= |HexOf(hash)| <= 8
    ensures Substring(HexOf(hash), 0, 8) == HexOf(hash)
  {
    assert Power(16, 8) == TwoTo32;
    RadixStringLength(Abs(hash), 16, 8);
    PrefixSubstring(HexOf(hash), 8);
  }

  /** signatureId is one to eight upper-case hex digits without a leading
      zero (except "0" itself) and reads back as |hash|; it is not padded
      to eight characters. */
  lemma SignatureIdShape(hash: int)
    requires IsInt32(hash)
    ensures var id := SignatureId(hash);
      && 1 <= |id| <= 8
      && (forall i :: 0 <= i < |id| ==> IsUpperHexDigit(id[i]))
      && (id[0] == '0' ==> id == "0")
      && IsNumeral(id, 16) && NumeralValue(id, 16) == Abs(hash)
  {
    var hex := HexOf(hash);
    HexFitsEightDigits(hash);
    var id := SignatureId(hash);
    assert id == AsciiToUpper(hex);
    forall i | 0 <= i < |id|
      ensures IsUpperHexDigit(id[i])
    {
      assert 0 <= DigitValue(hex[i]) < 16;
    }
    if id[0] == '0' {
      assert hex[0] == '0';
      assert hex == "0";
    }
    UpperNumeral(hex, 16);
    RadixStringRoundTrip(Abs(hash), 16);
  }

  /** clipId is the lower-case form of the first min(6, |signatureId|)
      characters of signatureId. */
  lemma ClipIdIsIdPrefix(hash: int)
    requires IsInt32(hash)
    ensures var id := SignatureId(hash);
      ClipId(hash) == AsciiToLower(id[..if |id| < 6 then |id| else 6])
  {
    var hex := HexOf(hash);
    HexFitsEightDigits(hash);
    var id := SignatureId(hash);
    var k := if |id| < 6 then |id| else 6;
    PrefixSubstring(hex, 6);
    assert ClipId(hash) == hex[..k];
    assert id[..k] == AsciiToUpper(hex[..k]);
    LowerOfUpper(hex[..k]);
  }

  // ---------------------------------------------------------------------
  // Assembly
  // ---------------------------------------------------------------------

  /** The SVG document of lines 110-115, with its variable parts: the clip
      path id, the background colour, the clipped elements in drawing order
      and the footer label. */
  datatype Svg = Svg(clipId: string, background: string, elements: seq<Element>, footer: string)

  /** The record `generateSignature` returns. */
  datatype Signature = Signature(svg: Svg, signatureId: string, hash: int)

  /** What `generateSignature` computes, as a function of its input and of
      Math.sin. */
  function Generated(agent: AgentData, sine: int -> real): (sig: Signature)
    ensures IsInt32(sig.hash)
    ensures |sig.signatureId| <= 8 && |sig.svg.clipId| <= 6
  {
    var colors := SchemeFor(agent.model);
    var hash := RollingHash(Utf16(HashKey(agent)));
    var rng := Random(sine, Abs(hash));
    var id := SignatureId(hash);
    Signature(Svg(ClipId(hash), colors.bg, Drawing(rng, colors, NumNodes(agent.skillsCount)), "#" + id), id, hash)
  }

  /** The drawn elements for `n` nodes: lines, then node markers, then
      outlines. */
  function Drawing(rng: Random, colors: ColorScheme, n: nat): seq<Element> {
    var nodes := Nodes(rng, n);
    PairLines(rng, colors, nodes, 0) + NodeCircles(rng, colors, nodes) + Shapes(rng, colors)
  }

  /** Lines 19-122: the generator. Its result is a function of the agent
      record and Math.sin alone, so repeated calls agree. */
  method GenerateSignature(agent: AgentData, sine: int -> real) returns (sig: Signature)
    ensures sig == Generated(agent, sine)
  {
    var colors := SchemeFor(agent.model);
    var hashString := HashKey(agent);
    var hash := ComputeHash(hashString);
    var rng := Random(sine, Abs(hash));
    var numNodes := NumNodes(agent.skillsCount);
    var nodes := LayoutNodes(rng, numNodes);
    assert nodes == Nodes(rng, numNodes);
    var lines := DrawLines(rng, colors, nodes);
    var circles := DrawNodeCircles(rng, colors, nodes);
    var shapes := DrawShapes(rng, colors);
    assert circles == NodeCircles(rng, colors, nodes);
    assert shapes == Shapes(rng, colors);
    var elements := lines + circles + shapes;
    assert elements == Drawing(rng, colors, numNodes);
    var clipId := Substring(RadixString(Abs(hash), 16), 0, 6);
    var signatureId := AsciiToUpper(Substring(RadixString(Abs(hash), 16), 0, 8));
    sig := Signature(Svg(clipId, colors.bg, elements, "#" + signatureId), signatureId, hash);
  }

  /** The layer an element is drawn in: lines first, then node markers,
      then the overlay outlines. */
  function Layer(e: Element): nat {
    if e.Line? then 0 else if e.NodeCircle? then 1 else 2
  }

  /** The number of elements of the given layer. */
  function CountLayer(es: seq<Element>, layer: nat): (c: nat)
    ensures c <= |es|
  {
    if es == [] then 0
    else (if Layer(es[0]) == layer then 1 else 0) + CountLayer(es[1..], layer)
  }

  lemma {:induction false} CountLayerAppend(a: seq<Element>, b: seq<Element>, layer: nat)
    ensures CountLayer(a + b, layer) == CountLayer(a, layer) + CountLayer(b, layer)
  {
    if a == [] {
      assert a + b == b;
    } else {
      assert (a + b)[0] == a[0];
      assert (a + b)[1..] == a[1..] + b;
      CountLayerAppend(a[1..], b, layer);
    }
  }

  /** In a sequence drawn in one layer, that layer counts every element and
      any other layer none. */
  lemma {:induction false} CountSingleLayer(es: seq<Element>, layer: nat, other: nat)
    requires forall k :: 0 <= k < |es| ==> Layer(es[k]) == layer
    requires other != layer
    ensures CountLayer(es, layer) == |es|
    ensures CountLayer(es, other) == 0
  {
    if es != [] {
      CountSingleLayer(es[1..], layer, other);
    }
  }

  /** Three blocks of elements drawn one layer after the other: the
      counts per layer are the block lengths and the layers never go
      down. */
  lemma LayeredBlocks(lines: seq<Element>, circles: seq<Element>, shapes: seq<Element>)
    requires forall k :: 0 <= k < |lines| ==> Layer(lines[k]) == 0
    requires forall k :: 0 <= k < |circles| ==> Layer(circles[k]) == 1
    requires forall k :: 0 <= k < |shapes| ==> Layer(shapes[k]) == 2
    ensures var e := lines + circles + shapes;
      && CountLayer(e, 0) == |lines|
      && CountLayer(e, 1) == |circles|
      && CountLayer(e, 2) == |shapes|
      && (forall a, b :: 0 <= a < b < |e| ==> Layer(e[a]) <= Layer(e[b]))
  {
    var e := lines + circles + shapes;
    forall layer | 0 <= layer <= 2
      ensures CountLayer(e, layer) == CountLayer(lines, layer) + CountLayer(circles, layer) + CountLayer(shapes, layer)
    {
      CountLayerAppend(lines + circles, shapes, layer);
      CountLayerAppend(lines, circles, layer);
    }
    CountSingleLayer(lines, 0, 1);
    CountSingleLayer(lines, 0, 2);
    CountSingleLayer(circles, 1, 0);
    CountSingleLayer(circles, 1, 2);
    CountSingleLayer(shapes, 2, 0);
    CountSingleLayer(shapes, 2, 1);
    forall a, b | 0 <= a < b < |e|
      ensures Layer(e[a]) <= Layer(e[b])
    {
      var n := |circles|;
      var la := if a < |lines| then 0 else if a < |lines| + n then 1 else 2;
      var lb := if b < |lines| then 0 else if b < |lines| + n then 1 else 2;
      assert Layer(e[a]) == la;
      assert Layer(e[b]) == lb;
    }
  }

  /** The drawing for n nodes: at most n(n-1)/2 lines, exactly n markers
      and 1 or 2 outlines, in that order. */
  lemma DrawingStructure(rng: Random, colors: ColorScheme, n: nat)
    ensures var e := Drawing(rng, colors, n);
      && CountLayer(e, 0) <= n * (n - 1) / 2
      && CountLayer(e, 1) == n
      && 1 <= CountLayer(e, 2) <= 2
      && |e| == CountLayer(e, 0) + CountLayer(e, 1) + CountLayer(e, 2)
      && (forall a, b :: 0 <= a < b < |e| ==> Layer(e[a]) <= Layer(e[b]))
  {
    var nodes := Nodes(rng, n);
    var lines := PairLines(rng, colors, nodes, 0);
    var circles := NodeCircles(rng, colors, nodes);
    var shapes := Shapes(rng, colors);
    PairLinesShape(rng, colors, nodes, 0);
    LayeredBlocks(lines, circles, shapes);
  }

  /** The drawing holds, in this order: at most n(n-1)/2 lines, exactly n
      node markers (n the clamped node count) and one or two outlines; the
      background is the scheme's and the footer reads '#' and the id. */
  lemma GeneratedStructure(agent: AgentData, sine: int -> real)
    ensures var sig := Generated(agent, sine);
      var e := sig.svg.elements;
      var n := NumNodes(agent.skillsCount);
      && CountLayer(e, 0) <= n * (n - 1) / 2
      && CountLayer(e, 1) == n
      && 1 <= CountLayer(e, 2) <= 2
      && |e| == CountLayer(e, 0) + CountLayer(e, 1) + CountLayer(e, 2)
      && (forall a, b :: 0 <= a < b < |e| ==> Layer(e[a]) <= Layer(e[b]))
      && sig.svg.footer == "#" + sig.signatureId
      && sig.svg.background == SchemeFor(agent.model).bg
  {
    var hash := RollingHash(Utf16(HashKey(agent)));
    DrawingStructure(Random(sine, Abs(hash)), SchemeFor(agent.model), NumNodes(agent.skillsCount));
  }

  /** The model colours the drawing with the corrected lookup. It agrees
      with the program's background exactly when the model name is not one
      an object literal inherits; on those names the program writes
      "undefined". */
  lemma GeneratedBackgroundAsWritten(agent: AgentData, sine: int -> real)
    ensures Generated(agent, sine).svg.background == SchemeAsWritten(agent.model).bg
        <==> agent.model !in InheritedKeys
  {
    InheritedKeyBypassesFallback(agent.model);
    if agent.model in InheritedKeys {
      assert SchemeFor(agent.model).bg == "#FAF5FF";
    }
  }

  /** Agents whose keys coincide and whose models select the same scheme
      get identical signatures: "a-b" with model "c" and "a" with model
      "b-c" share hash, id and drawing. */
  lemma CollidingAgentsShareSignature(theme: string, skillsCount: int, sine: int -> real)
    ensures Generated(AgentData("a-b", "c", theme, skillsCount), sine)
         == Generated(AgentData("a", "b-c", theme, skillsCount), sine)
  {
    KeyCollision(theme, skillsCount);
    assert "c" !in ColorSchemes && "b-c" !in ColorSchemes;
  }

  /** The hash, the signature id and the clip id depend on the key string
      alone. */
  lemma SameKeySameIds(a: AgentData, b: AgentData, sine: int -> real)
    requires HashKey(a) == HashKey(b)
    ensures Generated(a, sine).hash == Generated(b, sine).hash
    ensures Generated(a, sine).signatureId == Generated(b, sine).signatureId
    ensures Generated(a, sine).svg.clipId == Generated(b, sine).svg.clipId
  {
  }

  /** Every index the first outline reads is 0 * 10, ..., 0 * 15 = 0, the
      index node 0 reads for its x coordinate: the first outline is centred
      straight above or below node 0, on the diagonal of the drawing
      region. */
  lemma FirstOutlineAlignedWithNodeZero(rng: Random, colors: ColorScheme)
    ensures ShapeAt(rng, colors, 0).cx == NodeAt(rng, 0).x
    ensures (ShapeAt(rng, colors, 0).cx - MinX) * DrawHeight
         == (ShapeAt(rng, colors, 0).cy - MinY) * DrawWidth
  {
  }

  /** Generated is a 32-bit hash with the id derived from it. */
  lemma GeneratedIds(agent: AgentData, sine: int -> real)
    ensures var sig := Generated(agent, sine);
      && IsInt32(sig.hash)
      && sig.hash == ToInt32(Polynomial(Utf16(HashKey(agent))))
      && sig.signatureId == SignatureId(sig.hash)
      && 1 <= |sig.signatureId| <= 8
      && NumeralValue(sig.signatureId, 16) == Abs(sig.hash)
      && sig.svg.clipId == ClipId(sig.hash)
  {
    var sig := Generated(agent, sine);
    RollingHashIsPolynomial(Utf16(HashKey(agent)));
    SignatureIdShape(sig.hash);
  }
}
