/**
  The nesting-depth guard in front of the JSON parser: a one-pass scan that must agree
  with the depth of every JSON value, however it is written down.
 */
module JsonDepth {
  import opened Basics

  // ---------------------------------------------------------------------------
  // The scan
  // ---------------------------------------------------------------------------

  /** Scanner state: open brackets, inside a string, the next character is escaped. */
  datatype Scan = Scan(depth: nat, inString: bool, escape: bool)

  const START := Scan(0, false, false)

  function Next(s: Scan, ch: char): Scan {
    if s.escape then s.(escape := false)
    else if ch == '\\' && s.inString then s.(escape := true)
    else if ch == '"' then s.(inString := !s.inString)
    else if s.inString then s
    else if ch == '{' || ch == '[' then s.(depth := s.depth + 1)
    else if (ch == '}' || ch == ']') && s.depth > 0 then s.(depth := s.depth - 1)
    else s
  }

  function After(s: Scan, text: string): Scan
    decreases |text|
  {
    if text == "" then s else After(Next(s, text[0]), text[1..])
  }

  /** The highest depth from state `s` on, the starting depth included. */
  function Peak(s: Scan, text: string): nat
    decreases |text|
  {
    if text == "" then s.depth else Max(s.depth, Peak(Next(s, text[0]), text[1..]))
  }

  lemma {:induction false} PeakBounds(s: Scan, text: string)
    ensures Peak(s, text) >= s.depth
    ensures Peak(s, text) >= After(s, text).depth
    decreases |text|
  {
    if text != "" {
      PeakBounds(Next(s, text[0]), text[1..]);
    }
  }

  /** Scanning a text in two parts. */
  lemma {:induction false} ScanConcat(s: Scan, a: string, b: string)
    ensures After(s, a + b) == After(After(s, a), b)
    ensures Peak(s, a + b) == Max(Peak(s, a), Peak(After(s, a), b))
    decreases |a|
  {
    if a == "" {
      assert a + b == b;
      PeakBounds(s, b);
    } else {
      assert (a + b)[1..] == a[1..] + b;
      ScanConcat(Next(s, a[0]), a[1..], b);
    }
  }

  predicate Closers(text: string) {
    forall i :: 0 <= i < |text| ==> text[i] == ']' || text[i] == '}'
  }

  /** Closing brackets that close nothing change nothing. */
  lemma {:induction false} StrayClosers(closers: string, text: string)
    requires Closers(closers)
    ensures After(START, closers + text) == After(START, text)
    ensures Peak(START, closers + text) == Peak(START, text)
    decreases |closers|
  {
    if closers == "" {
      assert closers + text == text;
    } else {
      assert (closers + text)[1..] == closers[1..] + text;
      StrayClosers(closers[1..], text);
    }
  }

  datatype Verdict = Ok | JsonTooDeep

  /** The guard itself, with its early exit. */
  method CheckJsonDepth(input: string, maxDepth: nat) returns (v: Verdict)
    ensures v == Ok <==> Peak(START, input) <= maxDepth
  {
    var depth: nat := 0;
    var inString := false;
    var escapeNext := false;
    assert input[0..] == input;
    for i := 0 to |input|
      invariant depth <= maxDepth
      invariant Peak(START, input) <= maxDepth <==> Peak(Scan(depth, inString, escapeNext), input[i..]) <= maxDepth
    {
      var ch := input[i];
      ghost var s := Scan(depth, inString, escapeNext);
      assert input[i..][0] == ch && input[i..][1..] == input[i + 1..];
      assert Peak(s, input[i..]) == Max(depth, Peak(Next(s, ch), input[i + 1..]));
      if escapeNext {
        escapeNext := false;
        continue;
      }
      if ch == '\\' && inString {
        escapeNext := true;
        continue;
      }
      if ch == '"' {
        inString := !inString;
        continue;
      }
      if inString {
        continue;
      }
      if ch == '{' || ch == '[' {
        depth := depth + 1;
        if depth > maxDepth {
          PeakBounds(Scan(depth, inString, escapeNext), input[i + 1..]);
          return JsonTooDeep;
        }
      } else if ch == '}' || ch == ']' {
        depth := if depth > 0 then depth - 1 else 0;
      }
    }
    assert input[|input|..] == "";
    v := Ok;
  }

  /** The full-scan reference: the greatest depth seen. */
  method ReferenceMaxDepth(input: string) returns (max: nat)
    ensures max == Peak(START, input)
  {
    var s := START;
    max := 0;
    assert input[0..] == input;
    for i := 0 to |input|
      invariant Peak(START, input) == Max(max, Peak(s, input[i..])) && s.depth <= max
    {
      assert input[i..][0] == input[i] && input[i..][1..] == input[i + 1..];
      s := Next(s, input[i]);
      if s.depth > max {
        max := s.depth;
      }
      PeakBounds(s, input[i + 1..]);
    }
    assert input[|input|..] == "";
  }

  // ---------------------------------------------------------------------------
  // JSON texts (RFC 8259, sections 2 to 7)
  // ---------------------------------------------------------------------------

  /** One character of a string, as written. */
  datatype Glyph =
    | Plain(ch: char)
    | Escaped(ch: char)
    | Unicode(hex: string)

  /** A JSON value as written, with the white space around its parts. Numbers and the
      three literal names are kept as their text. */
  datatype Value =
    | Bare(text: string)
    | Text(glyphs: seq<Glyph>)
    | Array(pad: string, items: Items)
    | Object(pad: string, members: Members)

  datatype Items = NoItems | Item(before: string, value: Value, after: string, rest: Items)

  datatype Members =
    | NoMembers
    | Member(before: string, key: seq<Glyph>, colonBefore: string, colonAfter: string, value: Value, after: string,
             rest: Members)

  /** Nesting depth of the tree: one for each array or object around a part. */
  function Depth(v: Value): nat {
    match v
    case Bare(_) => 0
    case Text(_) => 0
    case Array(_, items) => 1 + ItemsDepth(items)
    case Object(_, members) => 1 + MembersDepth(members)
  }

  function ItemsDepth(items: Items): nat {
    match items
    case NoItems => 0
    case Item(_, v, _, rest) => Max(Depth(v), ItemsDepth(rest))
  }

  function MembersDepth(members: Members): nat {
    match members
    case NoMembers => 0
    case Member(_, _, _, _, v, _, rest) => Max(Depth(v), MembersDepth(rest))
  }

  predicate Hex(ch: char) {
    '0' <= ch <= '9' || 'a' <= ch <= 'f' || 'A' <= ch <= 'F'
  }

  predicate GlyphOk(g: Glyph) {
    match g
    case Plain(ch) => ch != '"' && ch != '\\'
    case Escaped(ch) => ch in "\"\\/bfnrt"
    case Unicode(hex) => |hex| == 4 && forall i :: 0 <= i < 4 ==> Hex(hex[i])
  }

  predicate GlyphsOk(gs: seq<Glyph>) {
    forall i :: 0 <= i < |gs| ==> GlyphOk(gs[i])
  }

  /** No quote and no bracket. White space, numbers and literal names are such. */
  predicate Inert(text: string) {
    forall i :: 0 <= i < |text| ==> text[i] !in "\"{}[]"
  }

  predicate ValueOk(v: Value) {
    match v
    case Bare(text) => Inert(text)
    case Text(gs) => GlyphsOk(gs)
    case Array(pad, items) => Inert(pad) && ItemsOk(items)
    case Object(pad, members) => Inert(pad) && MembersOk(members)
  }

  predicate ItemsOk(items: Items) {
    match items
    case NoItems => true
    case Item(a, v, b, rest) => Inert(a) && ValueOk(v) && Inert(b) && ItemsOk(rest)
  }

  predicate MembersOk(members: Members) {
    match members
    case NoMembers => true
    case Member(a, key, b, c, v, d, rest) =>
      Inert(a) && GlyphsOk(key) && Inert(b) && Inert(c) && ValueOk(v) && Inert(d) && MembersOk(rest)
  }

  function PrintGlyph(g: Glyph): string {
    match g
    case Plain(ch) => [ch]
    case Escaped(ch) => ['\\', ch]
    case Unicode(hex) => ['\\', 'u'] + hex
  }

  function PrintGlyphs(gs: seq<Glyph>): string {
    if gs == [] then "" else PrintGlyph(gs[0]) + PrintGlyphs(gs[1..])
  }

  function Quoted(gs: seq<Glyph>): string {
    "\"" + (PrintGlyphs(gs) + "\"")
  }

  function Print(v: Value): string {
    match v
    case Bare(text) => text
    case Text(gs) => Quoted(gs)
    case Array(pad, items) => "[" + (pad + (PrintItems(items) + "]"))
    case Object(pad, members) => "{" + (pad + (PrintMembers(members) + "}"))
  }

  function PrintItems(items: Items): string {
    match items
    case NoItems => ""
    case Item(a, v, b, rest) =>
      a + (Print(v) + (b + ((if rest.NoItems? then "" else ",") + PrintItems(rest))))
  }

  function PrintMembers(members: Members): string {
    match members
    case NoMembers => ""
    case Member(a, key, b, c, v, d, rest) =>
      a + (Quoted(key) + (b + (":" + (c + (Print(v) +
        (d + ((if rest.NoMembers? then "" else ",") + PrintMembers(rest))))))))
  }

  // ---------------------------------------------------------------------------
  // The scan measures the tree
  // ---------------------------------------------------------------------------

  /** Text that returns the scanner to where it was, rising by `n` on the way. */
  ghost predicate Rises(s: Scan, text: string, n: nat) {
    After(s, text) == s && Peak(s, text) == s.depth + n
  }

  lemma RisesConcat(s: Scan, a: string, m: nat, b: string, n: nat)
    requires Rises(s, a, m) && Rises(s, b, n)
    ensures Rises(s, a + b, Max(m, n))
  {
    ScanConcat(s, a, b);
  }

  predicate Outside(s: Scan) {
    !s.inString && !s.escape
  }

  lemma {:induction false} InertRises(s: Scan, text: string)
    requires Outside(s) && Inert(text)
    ensures Rises(s, text, 0)
    decreases |text|
  {
    if text != "" {
      assert text[0] !in "\"{}[]";
      InertRises(s, text[1..]);
    }
  }

  /** Inside a string nothing rises, and a glyph leaves the scanner inside it. */
  lemma GlyphRises(s: Scan, g: Glyph)
    requires s.inString && !s.escape && GlyphOk(g)
    ensures Rises(s, PrintGlyph(g), 0)
  {
    match g
    case Plain(ch) => OneChar(s, ch);
    case Escaped(ch) =>
      assert PrintGlyph(g) == ['\\'] + [ch];
      OneChar(s, '\\');
      OneChar(s.(escape := true), ch);
      ScanConcat(s, ['\\'], [ch]);
    case Unicode(hex) =>
      assert PrintGlyph(g) == ['\\'] + (['u'] + hex);
      OneChar(s, '\\');
      OneChar(s.(escape := true), 'u');
      HexRises(s, hex);
      ScanConcat(s.(escape := true), ['u'], hex);
      ScanConcat(s, ['\\'], ['u'] + hex);
  }

  lemma OneChar(s: Scan, ch: char)
    ensures After(s, [ch]) == Next(s, ch)
    ensures Peak(s, [ch]) == Max(s.depth, Next(s, ch).depth)
  {
    assert [ch][1..] == "";
  }

  lemma {:induction false} HexRises(s: Scan, hex: string)
    requires s.inString && !s.escape && forall i :: 0 <= i < |hex| ==> Hex(hex[i])
    ensures Rises(s, hex, 0)
    decreases |hex|
  {
    if hex != "" {
      assert Hex(hex[0]);
      HexRises(s, hex[1..]);
    }
  }

  lemma {:induction false} GlyphsRise(s: Scan, gs: seq<Glyph>)
    requires s.inString && !s.escape && GlyphsOk(gs)
    ensures Rises(s, PrintGlyphs(gs), 0)
    decreases |gs|
  {
    if gs != [] {
      GlyphRises(s, gs[0]);
      GlyphsRise(s, gs[1..]);
      RisesConcat(s, PrintGlyph(gs[0]), 0, PrintGlyphs(gs[1..]), 0);
    }
  }

  lemma QuotedRises(s: Scan, gs: seq<Glyph>)
    requires Outside(s) && GlyphsOk(gs)
    ensures Rises(s, Quoted(gs), 0)
  {
    var inside := s.(inString := true);
    OneChar(s, '"');
    GlyphsRise(inside, gs);
    OneChar(inside, '"');
    ScanConcat(inside, PrintGlyphs(gs), "\"");
    ScanConcat(s, "\"", PrintGlyphs(gs) + "\"");
  }

  /** A bracketed text rises one above its inside. */
  lemma BracketRises(s: Scan, open: char, inner: string, n: nat, close: char)
    requires Outside(s) && open in "[{" && close in "]}"
    requires Rises(s.(depth := s.depth + 1), inner, n)
    ensures Rises(s, [open] + (inner + [close]), n + 1)
  {
    var up := s.(depth := s.depth + 1);
    OneChar(s, open);
    OneChar(up, close);
    ScanConcat(up, inner, [close]);
    ScanConcat(s, [open], inner + [close]);
  }

  lemma PaddedRises(s: Scan, open: char, pad: string, body: string, n: nat, close: char)
    requires Outside(s) && open in "[{" && close in "]}" && Inert(pad)
    requires Rises(s.(depth := s.depth + 1), body, n)
    ensures Rises(s, [open] + (pad + (body + [close])), n + 1)
  {
    var up := s.(depth := s.depth + 1);
    InertRises(up, pad);
    RisesConcat(up, pad, 0, body, n);
    BracketRises(s, open, pad + body, n, close);
    assert (pad + body) + [close] == pad + (body + [close]);
  }

  lemma {:induction false} ValueRises(s: Scan, v: Value)
    requires Outside(s) && ValueOk(v)
    ensures Rises(s, Print(v), Depth(v))
    decreases v
  {
    var up := s.(depth := s.depth + 1);
    match v
    case Bare(text) => InertRises(s, text);
    case Text(gs) => QuotedRises(s, gs);
    case Array(pad, items) =>
      ItemsRise(up, items);
      PaddedRises(s, '[', pad, PrintItems(items), ItemsDepth(items), ']');
    case Object(pad, members) =>
      MembersRise(up, members);
      PaddedRises(s, '{', pad, PrintMembers(members), MembersDepth(members), '}');
  }

  lemma {:induction false} ItemsRise(s: Scan, items: Items)
    requires Outside(s) && ItemsOk(items)
    ensures Rises(s, PrintItems(items), ItemsDepth(items))
    decreases items
  {
    match items
    case NoItems =>
    case Item(a, v, b, rest) =>
      var comma := if rest.NoItems? then "" else ",";
      InertRises(s, a);
      ValueRises(s, v);
      InertRises(s, b);
      InertRises(s, comma);
      ItemsRise(s, rest);
      RisesConcat(s, comma, 0, PrintItems(rest), ItemsDepth(rest));
      RisesConcat(s, b, 0, comma + PrintItems(rest), ItemsDepth(rest));
      RisesConcat(s, Print(v), Depth(v), b + (comma + PrintItems(rest)), ItemsDepth(rest));
      RisesConcat(s, a, 0, Print(v) + (b + (comma + PrintItems(rest))), ItemsDepth(items));
  }

  lemma {:induction false} MembersRise(s: Scan, members: Members)
    requires Outside(s) && MembersOk(members)
    ensures Rises(s, PrintMembers(members), MembersDepth(members))
    decreases members
  {
    match members
    case NoMembers =>
    case Member(a, key, b, c, v, d, rest) =>
      var comma := if rest.NoMembers? then "" else ",";
      InertRises(s, a);
      QuotedRises(s, key);
      InertRises(s, b);
      InertRises(s, ":");
      InertRises(s, c);
      ValueRises(s, v);
      InertRises(s, d);
      InertRises(s, comma);
      MembersRise(s, rest);
      var t0, n0 := comma + PrintMembers(rest), MembersDepth(rest);
      RisesConcat(s, comma, 0, PrintMembers(rest), n0);
      RisesConcat(s, d, 0, t0, n0);
      var t1, n1 := Print(v) + (d + t0), Max(Depth(v), n0);
      RisesConcat(s, Print(v), Depth(v), d + t0, n0);
      RisesConcat(s, c, 0, t1, n1);
      RisesConcat(s, ":", 0, c + t1, n1);
      RisesConcat(s, b, 0, ":" + (c + t1), n1);
      RisesConcat(s, Quoted(key), 0, b + (":" + (c + t1)), n1);
      RisesConcat(s, a, 0, Quoted(key) + (b + (":" + (c + t1))), n1);
  }

  /** For every JSON value, however escaped and spaced, the scan's peak is the depth of
      the tree. */
  lemma ScanMeasuresDepth(before: string, v: Value, after: string)
    requires ValueOk(v) && Inert(before) && Inert(after)
    ensures Peak(START, before + (Print(v) + after)) == Depth(v)
    ensures After(START, before + (Print(v) + after)) == START
  {
    InertRises(START, before);
    ValueRises(START, v);
    InertRises(START, after);
    RisesConcat(START, Print(v), Depth(v), after, 0);
    RisesConcat(START, before, 0, Print(v) + after, Depth(v));
  }

  /** The guard lets a JSON text through exactly when its tree is shallow enough. */
  method GuardValue(before: string, v: Value, after: string, maxDepth: nat) returns (verdict: Verdict)
    requires ValueOk(v) && Inert(before) && Inert(after)
    ensures verdict == Ok <==> Depth(v) <= maxDepth
  {
    ScanMeasuresDepth(before, v, after);
    verdict := CheckJsonDepth(before + (Print(v) + after), maxDepth);
  }
}
