/** Breaking text into lines of a given width: greedy, at words or at characters, finding each
    break by binary search; a word too wide for a line of its own is broken at characters.

    How wide a piece of text is drawn is left open: any function that does not shrink when text
    is appended. */
module LineBreak {

  datatype Option<T> = None | Some(value: T)
  datatype Mode = Word | Char
  datatype Piece = Piece(width: real, text: string)

  type Width = string -> real

  ghost predicate Monotone(width: Width) { forall a: string, b: string | a <= b :: width(a) <= width(b) }

  ghost predicate Strict(width: Width) { forall a: string, b: string | a < b :: width(a) < width(b) }

  // ---- Text ----

  /** The White_Space property of Unicode. */
  predicate IsSpace(c: char) {
    var n := c as int;
    || 0x09 <= n <= 0x0d || n == 0x20 || n == 0x85 || n == 0xa0 || n == 0x1680
    || 0x2000 <= n <= 0x200a || n == 0x2028 || n == 0x2029 || n == 0x202f || n == 0x205f || n == 0x3000
  }

  function TrimEnd(s: string): (t: string)
    ensures t <= s
    ensures t != [] ==> !IsSpace(t[|t| - 1])
    ensures forall k | |t| <= k < |s| :: IsSpace(s[k])
  {
    if s != [] && IsSpace(s[|s| - 1]) then TrimEnd(s[..|s| - 1]) else s
  }

  /** Spaces before a word wrap point do not count. */
  function TrimFor(mode: Mode, s: string): string { if mode == Word then TrimEnd(s) else s }

  lemma TrimIsMonotone(mode: Mode, a: string, b: string)
    requires a <= b
    ensures TrimFor(mode, a) <= TrimFor(mode, b)
  {
    var t, u := TrimEnd(a), TrimEnd(b);
    assert |t| > 0 ==> a[|t| - 1] == b[|t| - 1];
  }

  predicate OneLine(s: string) { '\n' !in s }

  function NewlineAt(text: string): (n: nat)
    ensures n <= |text| && (n < |text| ==> text[n] == '\n') && '\n' !in text[..n]
  {
    if text == [] || text[0] == '\n' then 0 else
      var n := NewlineAt(text[1..]);
      assert text[..n + 1] == [text[0]] + text[1..][..n];
      n + 1
  }

  /** A line ends at a line feed, together with a carriage return before it. */
  function Lines(text: string): (lines: seq<string>)
    ensures forall i | 0 <= i < |lines| :: OneLine(lines[i])
  {
    if text == [] then [] else
      var n := NewlineAt(text);
      if n == |text| then
        assert text == text[..n];
        [text]
      else
        [if n > 0 && text[n - 1] == '\r' then text[..n - 1] else text[..n]] + Lines(text[n + 1..])
  }

  lemma SingleLine(text: string)
    requires OneLine(text)
    ensures Lines(text) == if text == [] then [] else [text]
  {}

  /** A line and what ends it: a line feed, or a carriage return and a line feed; or nothing, for a last
      line that is not empty. */
  predicate EndsWith(line: string, end: string, last: bool) {
    && OneLine(line)
    && (|| end == "\r\n"
        || (end == "\n" && (line == "" || line[|line| - 1] != '\r'))
        || (end == "" && last && line != ""))
  }

  function Joined(lines: seq<string>, ends: seq<string>): string
    requires |lines| == |ends|
  {
    if lines == [] then "" else lines[0] + ends[0] + Joined(lines[1..], ends[1..])
  }

  /** The text is these lines, each with its end. */
  predicate IsSplit(text: string, lines: seq<string>, ends: seq<string>) {
    && |lines| == |ends| && text == Joined(lines, ends)
    && forall i | 0 <= i < |lines| :: EndsWith(lines[i], ends[i], i == |lines| - 1)
  }

  lemma {:induction false} LinesSplit(text: string) returns (ends: seq<string>)
    ensures IsSplit(text, Lines(text), ends)
    decreases |text|
  {
    if text == [] { return []; }
    var n := NewlineAt(text);
    if n == |text| {
      assert text == text[..n];
      LastLine(text);
      return [""];
    }
    var line, end := FirstOfLines(text, n);
    hide IsSplit, Lines, OneLine, NewlineAt, EndsWith;
    var rest := LinesSplit(text[n + 1..]);
    ends := [end] + rest;
    OneMoreLine(line, end, text[n + 1..], Lines(text[n + 1..]), rest);
  }

  lemma FirstOfLines(text: string, n: nat) returns (line: string, end: string)
    requires n == NewlineAt(text) < |text|
    ensures EndsWith(line, end, false) && text == line + end + text[n + 1..] && Lines(text) == [line] + Lines(text[n + 1..])
  {
    if n > 0 && text[n - 1] == '\r' {
      line, end := text[..n - 1], "\r\n";
      assert forall c | c in line :: c in text[..n];
    } else {
      line, end := text[..n], "\n";
    }
  }

  lemma LastLine(text: string)
    requires OneLine(text) && text != ""
    ensures IsSplit(text, [text], [""])
  {
    assert text + "" + "" == text;
  }

  lemma OneMoreLine(line: string, end: string, rest: string, lines: seq<string>, ends: seq<string>)
    requires EndsWith(line, end, false) && IsSplit(rest, lines, ends)
    ensures IsSplit(line + end + rest, [line] + lines, [end] + ends)
  {
    var all, allEnds := [line] + lines, [end] + ends;
    assert all[1..] == lines && allEnds[1..] == ends;
    forall i | 0 <= i < |all| ensures EndsWith(all[i], allEnds[i], i == |all| - 1) {
      if i > 0 { assert EndsWith(lines[i - 1], ends[i - 1], i - 1 == |lines| - 1); }
    }
  }

  /** A text is split in one way only. */
  lemma {:induction false} SplitIsUnique(text: string, lines: seq<string>, ends: seq<string>)
    requires IsSplit(text, lines, ends)
    ensures lines == Lines(text)
    decreases |lines|
  {
    if lines != [] {
      var line, end, rest := lines[0], ends[0], Joined(lines[1..], ends[1..]);
      assert EndsWith(line, end, 0 == |lines| - 1);
      if end == "" {
        assert lines[1..] == [] && text == line;
      } else {
        assert text == line + end + rest;
        FirstLine(line, end, rest);
        forall i | 0 <= i < |lines[1..]| ensures EndsWith(lines[1..][i], ends[1..][i], i == |lines[1..]| - 1) {
          assert EndsWith(lines[i + 1], ends[i + 1], i + 1 == |lines| - 1);
        }
        SplitIsUnique(rest, lines[1..], ends[1..]);
      }
    }
  }

  lemma FirstLine(line: string, end: string, rest: string)
    requires EndsWith(line, end, false)
    ensures Lines(line + end + rest) == [line] + Lines(rest)
  {
    var text := line + end + rest;
    var n := |line| + |end| - 1;
    forall k | 0 <= k < n ensures text[k] != '\n' { assert k < |line| ==> text[k] == line[k]; }
    NewlineIs(text, n);
    hide NewlineAt;
    assert text[n + 1..] == rest;
    if end == "\r\n" {
      assert text[..n - 1] == line;
    } else {
      assert text[..n] == line && (|line| > 0 ==> text[|line| - 1] == line[|line| - 1]);
    }
  }

  lemma NewlineIs(text: string, n: nat)
    requires n < |text| && text[n] == '\n' && forall k | 0 <= k < n :: text[k] != '\n'
    ensures NewlineAt(text) == n
  {}

  // ---- What a good breaking is ----

  /** A place where the line may be wrapped: before the first letter of a word, or anywhere. */
  predicate IsPoint(line: string, mode: Mode, p: nat) {
    p == |line| || (0 < p < |line| && (mode == Char || (IsSpace(line[p - 1]) && !IsSpace(line[p]))))
  }

  function Measure(width: Width, line: string, mode: Mode, lo: nat, hi: nat): real
    requires lo <= hi <= |line|
  {
    width(TrimFor(mode, line[lo..hi]))
  }

  lemma MeasureGrows(width: Width, line: string, mode: Mode, lo: nat, hi: nat, q: nat)
    requires Monotone(width) && lo <= hi <= q <= |line|
    ensures Measure(width, line, mode, lo, hi) <= Measure(width, line, mode, lo, q)
  {
    assert line[lo..hi] == line[lo..q][..hi - lo];
    TrimIsMonotone(mode, line[lo..hi], line[lo..q]);
  }

  /** The part of a line a piece comes from; in word mode possibly part of a word [from, to)
      that had to be broken. */
  datatype Span = InLine(lo: nat, hi: nat) | InWord(lo: nat, hi: nat, from: nat, to: nat)

  /** Breaking later would not have fitted, or not have been better than an exact fit. */
  ghost predicate Maximal(width: Width, line: string, mode: Mode, wrap: real, lo: nat, hi: nat)
    requires lo <= hi <= |line|
  {
    forall q: nat | IsPoint(line, mode, q) && q > hi ::
      NoBetter(Measure(width, line, mode, lo, hi), Measure(width, line, mode, lo, q), wrap)
  }

  predicate NoBetter(chosen: real, other: real, wrap: real) { other > wrap || (other == wrap && chosen == wrap) }

  /** A word starts and ends at neighbouring wrap points. */
  predicate IsWord(line: string, from: nat, to: nat) {
    && from < to <= |line| && (from == 0 || IsPoint(line, Word, from)) && IsPoint(line, Word, to)
    && forall p: nat | from < p < to :: !IsPoint(line, Word, p)
  }

  ghost predicate LinePieceOk(width: Width, line: string, mode: Mode, wrap: real, lo: nat, hi: nat, p: Piece) {
    && lo <= hi <= |line| && (lo < hi || line == []) && p.width == width(p.text) && IsPoint(line, mode, hi)
    && p.text == (if hi == |line| then line[lo..hi] else TrimFor(mode, line[lo..hi]))
    && (Measure(width, line, mode, lo, hi) <= wrap || (mode == Char && hi <= lo + 1))
    && Maximal(width, line, mode, wrap, lo, hi)
  }

  ghost predicate PieceOk(width: Width, line: string, mode: Mode, wrap: real, s: Span, p: Piece) {
    match s
    case InLine(lo, hi) => LinePieceOk(width, line, mode, wrap, lo, hi, p)
    case InWord(lo, hi, from, to) =>
      && mode == Word && from <= lo < hi <= to && IsWord(line, from, to)
      && Measure(width, line, Word, from, to) > wrap
      && LinePieceOk(width, line[from..to], Char, wrap, lo - from, hi - from, p)
  }

  /** What makes a piece that comes from a span good. */
  type Rule = (Span, Piece) -> bool

  ghost function Good(width: Width, line: string, mode: Mode, wrap: real): Rule {
    (s, p) => PieceOk(width, line, mode, wrap, s, p)
  }

  /** Spans one after the other, from the start of the line up to `end`. */
  predicate Tile(spans: seq<Span>, end: nat) {
    && (if spans == [] then end == 0 else spans[0].lo == 0 && spans[|spans| - 1].hi == end)
    && forall i | 0 <= i < |spans| - 1 :: spans[i].hi == spans[i + 1].lo
  }

  ghost predicate PiecesOk(good: Rule, spans: seq<Span>, pieces: seq<Piece>) {
    |spans| == |pieces| && forall i | 0 <= i < |spans| :: good(spans[i], pieces[i])
  }

  /** The pieces are good, and come from the line up to `end`. */
  ghost predicate SoFar(good: Rule, end: nat, pieces: seq<Piece>) {
    exists spans: seq<Span> :: Tile(spans, end) && PiecesOk(good, spans, pieces)
  }

  /** The pieces are a good breaking of the line. */
  ghost predicate WellBroken(width: Width, line: string, mode: Mode, wrap: real, pieces: seq<Piece>) {
    SoFar(Good(width, line, mode, wrap), |line|, pieces)
  }

  // ---- What a good breaking means ----

  function Texts(pieces: seq<Piece>): string {
    if pieces == [] then "" else Texts(pieces[..|pieces| - 1]) + pieces[|pieces| - 1].text
  }

  function Ink(s: string): string {
    if s == [] then "" else Ink(s[..|s| - 1]) + (if IsSpace(s[|s| - 1]) then [] else [s[|s| - 1]])
  }

  lemma {:induction false} InkConcat(a: string, b: string)
    ensures Ink(a + b) == Ink(a) + Ink(b)
  {
    if b == [] {
      assert a + b == a;
    } else {
      InkConcat(a, b[..|b| - 1]);
      assert (a + b)[..|a + b| - 1] == a + b[..|b| - 1];
    }
  }

  lemma {:induction false} InkOfTrimmed(s: string)
    ensures Ink(TrimEnd(s)) == Ink(s)
  {
    if s != [] && IsSpace(s[|s| - 1]) { InkOfTrimmed(s[..|s| - 1]); }
  }

  /** The text is the span, or in word mode the span without the spaces at its end. */
  predicate IsCut(line: string, mode: Mode, s: Span, text: string) {
    s.lo <= s.hi <= |line| && (text == line[s.lo..s.hi] || (mode == Word && text == TrimEnd(line[s.lo..s.hi])))
  }

  lemma PieceText(width: Width, line: string, mode: Mode, wrap: real, s: Span, p: Piece)
    requires PieceOk(width, line, mode, wrap, s, p)
    ensures IsCut(line, mode, s, p.text)
  {
    hide Maximal, Measure, IsPoint, IsSpace;
    if s.InWord? { SliceOfSlice(line, s.from, s.to, s.lo, s.hi); }
  }

  lemma SliceOfSlice(line: string, from: nat, to: nat, lo: nat, hi: nat)
    requires from <= lo <= hi <= to <= |line|
    ensures line[from..to][lo - from..hi - from] == line[lo..hi]
  {
    var inner := line[from..to];
    forall i | 0 <= i < hi - lo ensures inner[lo - from..hi - from][i] == line[lo..hi][i] {
      assert inner[lo - from..hi - from][i] == inner[lo - from + i];
    }
  }

  lemma TileInit(spans: seq<Span>, end: nat)
    requires Tile(spans, end) && spans != []
    ensures Tile(spans[..|spans| - 1], spans[|spans| - 1].lo) && spans[|spans| - 1].hi == end
  {
    var n := |spans| - 1;
    assert n > 0 ==> spans[n - 1].hi == spans[n - 1 + 1].lo;
  }

  /** What breaking keeps of a text. */
  predicate Keeps(mode: Mode, broken: string, text: string) { Ink(broken) == Ink(text) && (mode == Char ==> broken == text) }

  /** One more piece. */
  lemma KeepsMore(mode: Mode, broken: string, text: string, piece: string, span: string)
    requires Keeps(mode, broken, text) && (piece == span || (mode == Word && piece == TrimEnd(span)))
    ensures Keeps(mode, broken + piece, text + span)
  {
    InkConcat(broken, piece);
    InkConcat(text, span);
    InkOfTrimmed(span);
  }

  lemma {:induction false} CutsKeepText(line: string, mode: Mode, spans: seq<Span>, pieces: seq<Piece>, end: nat)
    requires Tile(spans, end) && end <= |line| && |spans| == |pieces|
    requires forall i | 0 <= i < |spans| :: IsCut(line, mode, spans[i], pieces[i].text)
    ensures Keeps(mode, Texts(pieces), line[..end])
    decreases |spans|
  {
    hide Ink, TrimEnd, Tile;
    if spans == [] {
      NoSpans(end);
      return;
    }
    hide Keeps;
    var n := |spans| - 1;
    var lo := spans[n].lo;
    TileInit(spans, end);
    assert IsCut(line, mode, spans[n], pieces[n].text);
    CutsKeepText(line, mode, spans[..n], pieces[..n], lo);
    assert line[..end] == line[..lo] + line[lo..end];
    KeepsMore(mode, Texts(pieces[..n]), line[..lo], pieces[n].text, line[lo..end]);
  }

  lemma NoSpans(end: nat)
    requires Tile([], end)
    ensures end == 0
  {}

  /** Breaking at characters loses nothing; breaking at words loses nothing visible. */
  lemma BreakingKeepsText(width: Width, line: string, mode: Mode, wrap: real, pieces: seq<Piece>)
    requires WellBroken(width, line, mode, wrap, pieces)
    ensures Keeps(mode, Texts(pieces), line)
  {
    var good := Good(width, line, mode, wrap);
    var spans: seq<Span> :| Tile(spans, |line|) && PiecesOk(good, spans, pieces);
    forall i | 0 <= i < |spans| ensures IsCut(line, mode, spans[i], pieces[i].text) {
      assert good(spans[i], pieces[i]);
      PieceText(width, line, mode, wrap, spans[i], pieces[i]);
    }
    CutsKeepText(line, mode, spans, pieces, |line|);
    assert line[..|line|] == line;
  }

  /** A piece is its part of the line; but where a line is wrapped between words, without the spaces it
      is wrapped at. */
  lemma WrappedPieceText(width: Width, line: string, mode: Mode, wrap: real, lo: nat, hi: nat, p: Piece)
    requires PieceOk(width, line, mode, wrap, InLine(lo, hi), p)
    ensures mode == Char || hi == |line| ==> p.text == line[lo..hi]
    ensures mode == Word && hi < |line| ==>
      && p.text <= line[lo..hi] && (p.text != [] ==> !IsSpace(p.text[|p.text| - 1]))
      && forall k | lo + |p.text| <= k < hi :: IsSpace(line[k])
  {
    var s := line[lo..hi];
    forall k | lo + |TrimEnd(s)| <= k < hi ensures IsSpace(line[k]) { assert line[k] == s[k - lo] && IsSpace(s[k - lo]); }
  }

  lemma SpanEnds(width: Width, line: string, mode: Mode, wrap: real, s: Span, p: Piece)
    requires PieceOk(width, line, mode, wrap, s, p)
    ensures s.lo < s.hi <= |line| || line == []
  {}

  lemma PieceFits(width: Width, line: string, mode: Mode, wrap: real, s: Span, p: Piece)
    requires PieceOk(width, line, mode, wrap, s, p)
    ensures p.width <= wrap || |p.text| <= 1 || (mode == Word && s.hi == |line| && width(TrimEnd(p.text)) <= wrap)
  {}

  /** Every piece fits, except single characters too wide for any line, and spaces left hanging
      at the end of the last piece. */
  lemma PiecesFit(width: Width, line: string, mode: Mode, wrap: real, pieces: seq<Piece>, i: nat)
    requires WellBroken(width, line, mode, wrap, pieces) && i < |pieces|
    ensures || pieces[i].width <= wrap
            || |pieces[i].text| <= 1
            || (mode == Word && i == |pieces| - 1 && width(TrimEnd(pieces[i].text)) <= wrap)
  {
    var good := Good(width, line, mode, wrap);
    var spans: seq<Span> :| Tile(spans, |line|) && PiecesOk(good, spans, pieces);
    assert good(spans[i], pieces[i]);
    if i < |pieces| - 1 {
      assert good(spans[i + 1], pieces[i + 1]) && spans[i].hi == spans[i + 1].lo;
      SpanEnds(width, line, mode, wrap, spans[i + 1], pieces[i + 1]);
    }
    PieceFits(width, line, mode, wrap, spans[i], pieces[i]);
  }

  lemma LongerWhenTrimmed(s: string, k: nat)
    requires k < |s| && !IsSpace(s[k])
    ensures |TrimEnd(s)| > k
  {}

  /** When text never gets wider for nothing, no line could have taken one more word, or one more
      character. */
  lemma BreaksAreMaximal(width: Width, line: string, mode: Mode, wrap: real, lo: nat, hi: nat, p: Piece, q: nat)
    requires Strict(width) && PieceOk(width, line, mode, wrap, InLine(lo, hi), p)
    requires IsPoint(line, mode, q) && q > hi
    ensures Measure(width, line, mode, lo, q) > wrap
  {
    assert NoBetter(Measure(width, line, mode, lo, hi), Measure(width, line, mode, lo, q), wrap);
    var a, b := line[lo..hi], line[lo..q];
    SliceOfSlice(line, lo, q, lo, hi);
    TrimIsMonotone(mode, a, b);
    if mode == Word { LongerWhenTrimmed(b, hi - lo); }
    assert TrimFor(mode, a) < TrimFor(mode, b);
  }

  // ---- Wrap points ----

  predicate Increasing(points: seq<nat>) { forall i, j | 0 <= i < j < |points| :: points[i] < points[j] }

  ghost predicate ArePoints(line: string, mode: Mode, points: seq<nat>) {
    && points != [] && Increasing(points) && points[|points| - 1] == |line|
    && forall p :: p in points <==> IsPoint(line, mode, p)
  }

  lemma Pushed(points: seq<nat>, p: nat)
    requires Increasing(points) && forall q | q in points :: q < p
    ensures Increasing(points + [p])
  {
    forall i | 0 <= i < |points| ensures points[i] < p { assert points[i] in points; }
  }

  method Find(line: string, start: nat, space: bool) returns (at: Option<nat>)
    requires start <= |line|
    ensures at.Some? ==> start <= at.value < |line| && IsSpace(line[at.value]) == space
    ensures forall k | start <= k < (if at.Some? then at.value else |line|) :: IsSpace(line[k]) != space
  {
    for i := start to |line|
      invariant forall k | start <= k < i :: IsSpace(line[k]) != space
    {
      if IsSpace(line[i]) == space { return Some(i); }
    }
    return None;
  }

  method WordPoints(line: string) returns (points: seq<nat>)
    ensures Increasing(points)
    ensures forall p: nat :: p in points <==> p < |line| && IsPoint(line, Word, p)
  {
    points := [];
    var wordStart := 0;
    while true
      invariant wordStart <= |line| && Increasing(points)
      invariant forall p: nat :: p in points <==> p <= wordStart && p < |line| && IsPoint(line, Word, p)
      decreases |line| - wordStart
    {
      var i := Find(line, wordStart, true);
      if i.None? { break; }
      var wordEnd := i.value;
      i := Find(line, wordEnd, false);
      if i.None? { break; }
      assert IsPoint(line, Word, i.value);
      Pushed(points, i.value);
      points := points + [i.value];
      wordStart := i.value;
    }
  }

  method WrapPoints(line: string, mode: Mode) returns (points: seq<nat>)
    ensures ArePoints(line, mode, points)
  {
    if mode == Word {
      points := WordPoints(line);
    } else {
      points := [];
      var charEnd := 1;
      while charEnd < |line|
        invariant charEnd >= 1 && Increasing(points) && forall p :: p in points <==> 1 <= p < charEnd && p < |line|
      {
        Pushed(points, charEnd);
        points := points + [charEnd];
        charEnd := charEnd + 1;
      }
    }
    Pushed(points, |line|);
    points := points + [|line|];
  }

  // ---- Breaking ----

  /** Any key equal to the target or else, for sorted keys, where the target would go. */
  method BinarySearch(keys: seq<real>, target: real) returns (exact: bool, at: nat)
    requires forall i, j | 0 <= i < j < |keys| :: keys[i] <= keys[j]
    ensures at <= |keys| && (exact ==> at < |keys| && keys[at] == target)
    ensures !exact ==> forall k | 0 <= k < at :: keys[k] < target
    ensures !exact ==> forall k | at <= k < |keys| :: keys[k] > target
  {
    var a, b := 0, |keys|;
    while a < b
      invariant 0 <= a <= b <= |keys|
      invariant forall k | 0 <= k < a :: keys[k] < target
      invariant forall k | b <= k < |keys| :: keys[k] > target
    {
      var mid := (a + b) / 2;
      if keys[mid] == target { return true, mid; }
      if keys[mid] < target { a := mid + 1; } else { b := mid; }
    }
    return false, a;
  }

  /** The width of the line up to each of the points, if it starts at `lo`. */
  function Widths(width: Width, line: string, mode: Mode, lo: nat, points: seq<nat>): (keys: seq<real>)
    requires forall i | 0 <= i < |points| :: lo <= points[i] <= |line|
    ensures |keys| == |points|
    ensures forall i | 0 <= i < |points| :: keys[i] == Measure(width, line, mode, lo, points[i])
  {
    seq(|points|, i requires 0 <= i < |points| => Measure(width, line, mode, lo, points[i]))
  }

  /** The points not yet used, and where the next line starts. */
  predicate At(line: string, points: seq<nat>, next: nat, start: nat) {
    next <= |points| && start == (if next == 0 then 0 else points[next - 1]) && start <= |line|
  }

  lemma PointsAhead(line: string, mode: Mode, points: seq<nat>, next: nat, start: nat, k: nat)
    requires ArePoints(line, mode, points) && At(line, points, next, start) && next <= k < |points|
    ensures start <= points[k] <= |line| && (line != [] ==> start < points[k]) && IsPoint(line, mode, points[k])
  {
    assert points[k] in points && points[0] in points;
    assert points[0] <= points[k] <= points[|points| - 1];
  }

  lemma PointIndex(line: string, mode: Mode, points: seq<nat>, k: nat, q: nat) returns (j: nat)
    requires ArePoints(line, mode, points) && k < |points| && IsPoint(line, mode, q) && q > points[k]
    ensures k < j < |points| && points[j] == q
  {
    assert q in points;
    j :| 0 <= j < |points| && points[j] == q;
  }

  /** Binary search among the points not yet used. */
  method SearchPoints(width: Width, line: string, mode: Mode, wrap: real, points: seq<nat>, next: nat, start: nat)
      returns (exact: bool, at: nat)
    requires Monotone(width) && ArePoints(line, mode, points) && At(line, points, next, start)
    requires forall i | next <= i < |points| :: start <= points[i] <= |line|
    ensures next <= at <= |points| && (exact ==> at < |points| && Measure(width, line, mode, start, points[at]) == wrap)
    ensures !exact ==> forall k | next <= k < at :: Measure(width, line, mode, start, points[k]) < wrap
    ensures !exact ==> forall k | at <= k < |points| :: Measure(width, line, mode, start, points[k]) > wrap
  {
    hide Measure, IsPoint, Monotone;
    var ahead := points[next..];
    var keys := Widths(width, line, mode, start, ahead);
    forall i, j | 0 <= i < j < |keys| ensures keys[i] <= keys[j] {
      MeasureGrows(width, line, mode, start, ahead[i], ahead[j]);
    }
    var i;
    exact, i := BinarySearch(keys, wrap);
    at := next + i;
    forall k | next <= k < |points| ensures Measure(width, line, mode, start, points[k]) == keys[k - next] {}
  }

  lemma ChosenIsMaximal(width: Width, line: string, mode: Mode, wrap: real, points: seq<nat>, start: nat, k: nat)
    requires Monotone(width) && ArePoints(line, mode, points) && k < |points| && start <= points[k] <= |line|
    requires || Measure(width, line, mode, start, points[k]) == wrap
             || forall j | k < j < |points| && points[j] <= |line| :: Measure(width, line, mode, start, points[j]) > wrap
    ensures Maximal(width, line, mode, wrap, start, points[k])
  {
    forall q: nat | IsPoint(line, mode, q) && q > points[k]
      ensures NoBetter(Measure(width, line, mode, start, points[k]), Measure(width, line, mode, start, q), wrap)
    {
      var j := PointIndex(line, mode, points, k, q);
      MeasureGrows(width, line, mode, start, points[k], q);
    }
  }

  /** The last point at which the line still fits; if not even the next one does, `fits` is false. */
  method ChooseBreak(width: Width, line: string, mode: Mode, wrap: real, points: seq<nat>, next: nat, start: nat)
      returns (fits: bool, k: nat)
    requires Monotone(width) && ArePoints(line, mode, points) && At(line, points, next, start) && next < |points|
    ensures next <= k < |points| && start <= points[k] <= |line|
    ensures fits ==> Measure(width, line, mode, start, points[k]) <= wrap && Maximal(width, line, mode, wrap, start, points[k])
    ensures !fits ==> k == next && Measure(width, line, mode, start, points[k]) > wrap
  {
    forall i | next <= i < |points| ensures start <= points[i] <= |line| {
      PointsAhead(line, mode, points, next, start, i);
    }
    var exact, at := SearchPoints(width, line, mode, wrap, points, next, start);
    fits := exact || at > next;
    k := if exact then at else if at > next then at - 1 else next;
    if fits { ChosenIsMaximal(width, line, mode, wrap, points, start, k); }
  }

  /** A line too wide even for one character: nothing to its right fits either. */
  lemma TruncatedIsOk(width: Width, line: string, wrap: real, points: seq<nat>, next: nat, start: nat)
    requires Monotone(width) && ArePoints(line, Char, points) && At(line, points, next, start) && next < |points|
    requires start <= points[next] <= |line| && Measure(width, line, Char, start, points[next]) > wrap
    ensures Maximal(width, line, Char, wrap, start, points[next]) && points[next] <= start + 1
  {
    forall q: nat | IsPoint(line, Char, q) && q > points[next]
      ensures NoBetter(Measure(width, line, Char, start, points[next]), Measure(width, line, Char, start, q), wrap)
    {
      MeasureGrows(width, line, Char, start, points[next], q);
    }
    if points[next] > start + 1 {
      assert IsPoint(line, Char, start + 1);
      NoneBetween(line, Char, points, next, start, start + 1);
    }
  }

  lemma NoneBetween(line: string, mode: Mode, points: seq<nat>, next: nat, start: nat, p: nat)
    requires ArePoints(line, mode, points) && At(line, points, next, start) && next < |points| && start < p < points[next]
    ensures !IsPoint(line, mode, p)
  {
    assert forall j | 0 <= j < |points| :: points[j] <= start || points[j] >= points[next];
  }

  lemma NextWord(line: string, points: seq<nat>, next: nat, start: nat)
    requires line != [] && ArePoints(line, Word, points) && At(line, points, next, start) && next < |points|
    ensures IsWord(line, start, points[next])
  {
    PointsAhead(line, Word, points, next, start, next);
    if next > 0 { assert points[next - 1] in points; }
    forall p: nat | start < p < points[next] ensures !IsPoint(line, Word, p) {
      NoneBetween(line, Word, points, next, start, p);
    }
  }

  // ---- Pieces added to those there are ----

  lemma TileConcat(a: seq<Span>, m: nat, b: seq<Span>, end: nat)
    requires Tile(a, m) && b != [] && b[0].lo == m && b[|b| - 1].hi == end
    requires forall i | 0 <= i < |b| - 1 :: b[i].hi == b[i + 1].lo
    ensures Tile(a + b, end)
  {
    var c := a + b;
    forall i | 0 <= i < |c| - 1 ensures c[i].hi == c[i + 1].lo {
      if i >= |a| { assert b[i - |a|].hi == b[i - |a| + 1].lo; }
    }
  }

  lemma MorePieces(good: Rule, lo: nat, hi: nat, pieces: seq<Piece>, spans: seq<Span>, more: seq<Piece>)
    requires SoFar(good, lo, pieces) && PiecesOk(good, spans, more)
    requires spans != [] && spans[0].lo == lo && spans[|spans| - 1].hi == hi
    requires forall i | 0 <= i < |spans| - 1 :: spans[i].hi == spans[i + 1].lo
    ensures SoFar(good, hi, pieces + more)
  {
    var before: seq<Span> :| Tile(before, lo) && PiecesOk(good, before, pieces);
    TileConcat(before, lo, spans, hi);
    assert PiecesOk(good, before + spans, pieces + more);
  }

  lemma OnePiece(width: Width, line: string, mode: Mode, wrap: real, lo: nat, hi: nat, pieces: seq<Piece>, p: Piece)
    requires SoFar(Good(width, line, mode, wrap), lo, pieces) && LinePieceOk(width, line, mode, wrap, lo, hi, p)
    ensures SoFar(Good(width, line, mode, wrap), hi, pieces + [p])
  {
    var good := Good(width, line, mode, wrap);
    assert good(InLine(lo, hi), p);
    MorePieces(good, lo, hi, pieces, [InLine(lo, hi)], [p]);
  }

  function Shift(s: Span, from: nat, to: nat): Span { InWord(s.lo + from, s.hi + from, from, to) }

  function ShiftAll(spans: seq<Span>, from: nat, to: nat): (r: seq<Span>)
    ensures |r| == |spans|
  {
    seq(|spans|, i requires 0 <= i < |spans| => Shift(spans[i], from, to))
  }

  lemma ShiftIsOk(width: Width, line: string, wrap: real, from: nat, to: nat, s: Span, p: Piece)
    requires IsWord(line, from, to) && Measure(width, line, Word, from, to) > wrap
    requires PieceOk(width, line[from..to], Char, wrap, s, p)
    ensures PieceOk(width, line, Word, wrap, Shift(s, from, to), p)
  {}

  lemma ShiftedTile(spans: seq<Span>, end: nat, from: nat, to: nat)
    requires Tile(spans, end)
    ensures var moved := ShiftAll(spans, from, to);
      && (forall i | 0 <= i < |moved| - 1 :: moved[i].hi == moved[i + 1].lo)
      && (moved != [] ==> moved[0].lo == from && moved[|moved| - 1].hi == from + end)
  {
    var moved := ShiftAll(spans, from, to);
    forall i | 0 <= i < |moved| - 1 ensures moved[i].hi == moved[i + 1].lo { assert spans[i].hi == spans[i + 1].lo; }
  }

  lemma WordPieces(width: Width, line: string, wrap: real, from: nat, to: nat, pieces: seq<Piece>, parts: seq<Piece>)
    requires SoFar(Good(width, line, Word, wrap), from, pieces) && IsWord(line, from, to)
    requires Measure(width, line, Word, from, to) > wrap && WellBroken(width, line[from..to], Char, wrap, parts)
    ensures SoFar(Good(width, line, Word, wrap), to, pieces + parts)
  {
    hide LinePieceOk, IsPoint;
    var good, inGood := Good(width, line, Word, wrap), Good(width, line[from..to], Char, wrap);
    var inner: seq<Span> :| Tile(inner, to - from) && PiecesOk(inGood, inner, parts);
    var moved := ShiftAll(inner, from, to);
    forall i | 0 <= i < |parts| ensures good(moved[i], parts[i]) {
      assert inGood(inner[i], parts[i]);
      ShiftIsOk(width, line, wrap, from, to, inner[i], parts[i]);
    }
    ShiftedTile(inner, to - from, from, to);
    MorePieces(good, from, to, pieces, moved, parts);
  }

  // ---- The algorithm ----

  function Flat(perLine: seq<seq<Piece>>): seq<Piece> {
    if perLine == [] then [] else Flat(perLine[..|perLine| - 1]) + perLine[|perLine| - 1]
  }

  lemma NothingFlat()
    ensures Flat([]) == []
  {}

  lemma FlatMore(perLine: seq<seq<Piece>>, more: seq<Piece>)
    ensures Flat(perLine + [more]) == Flat(perLine) + more
  {
    assert (perLine + [more])[..|perLine|] == perLine;
  }

  ghost predicate LineOk(width: Width, line: string, wrap: Option<(real, Mode)>, pieces: seq<Piece>) {
    match wrap
    case None => pieces == [Piece(width(line), line)]
    case Some(w) => WellBroken(width, line, w.1, w.0, pieces)
  }

  ghost predicate ArePieces(width: Width, lines: seq<string>, wrap: Option<(real, Mode)>, pieces: seq<Piece>, perLine: seq<seq<Piece>>) {
    && pieces == Flat(perLine) && |perLine| == |lines|
    && forall i | 0 <= i < |lines| :: LineOk(width, lines[i], wrap, perLine[i])
  }

  /** The pieces are those of all the lines, in order, each line broken well. */
  ghost predicate AllWellBroken(width: Width, lines: seq<string>, wrap: Option<(real, Mode)>, pieces: seq<Piece>) {
    exists perLine: seq<seq<Piece>> :: ArePieces(width, lines, wrap, pieces, perLine)
  }

  function Concat(lines: seq<string>): string {
    if lines == [] then "" else Concat(lines[..|lines| - 1]) + lines[|lines| - 1]
  }

  lemma {:induction false} TextsConcat(a: seq<Piece>, b: seq<Piece>)
    ensures Texts(a + b) == Texts(a) + Texts(b)
    decreases |b|
  {
    if b == [] {
      assert a + b == a;
    } else {
      TextsConcat(a, b[..|b| - 1]);
      var c := a + b;
      assert c[..|c| - 1] == a + b[..|b| - 1] && c[|c| - 1] == b[|b| - 1];
    }
  }

  lemma KeepsBoth(mode: Mode, a: string, b: string, c: string, d: string)
    requires Keeps(mode, a, b) && Keeps(mode, c, d)
    ensures Keeps(mode, a + c, b + d)
  {
    InkConcat(a, c);
    InkConcat(b, d);
  }

  /** Breaking all lines of a text keeps what breaking one line keeps. */
  lemma {:induction false} AllLinesKept(width: Width, lines: seq<string>, wrap: real, mode: Mode, perLine: seq<seq<Piece>>)
    requires |perLine| == |lines| && forall i | 0 <= i < |lines| :: WellBroken(width, lines[i], mode, wrap, perLine[i])
    ensures Keeps(mode, Texts(Flat(perLine)), Concat(lines))
    decreases |lines|
  {
    hide WellBroken;
    if lines != [] {
      var n := |lines| - 1;
      AllLinesKept(width, lines[..n], wrap, mode, perLine[..n]);
      BreakingKeepsText(width, lines[n], mode, wrap, perLine[n]);
      TextsConcat(Flat(perLine[..n]), perLine[n]);
      KeepsBoth(mode, Texts(Flat(perLine[..n])), Concat(lines[..n]), Texts(perLine[n]), lines[n]);
    }
  }

  /** One piece a line. */
  predicate Whole(width: Width, lines: seq<string>, pieces: seq<Piece>) {
    |pieces| == |lines| && forall i | 0 <= i < |lines| :: pieces[i] == Piece(width(lines[i]), lines[i])
  }

  lemma {:induction false} FlatWhole(width: Width, lines: seq<string>, perLine: seq<seq<Piece>>)
    requires |perLine| == |lines| && forall i | 0 <= i < |lines| :: perLine[i] == [Piece(width(lines[i]), lines[i])]
    ensures Whole(width, lines, Flat(perLine))
    decreases |lines|
  {
    if lines != [] { FlatWhole(width, lines[..|lines| - 1], perLine[..|lines| - 1]); }
  }

  /** The pieces are those of the lines, and what they are put together. */
  ghost predicate LinesBroken(width: Width, lines: seq<string>, wrap: Option<(real, Mode)>, pieces: seq<Piece>) {
    && AllWellBroken(width, lines, wrap, pieces)
    && match wrap
       case None => Whole(width, lines, pieces)
       case Some(w) => Keeps(w.1, Texts(pieces), Concat(lines))
  }

  lemma BrokenText(width: Width, lines: seq<string>, wrap: Option<(real, Mode)>, pieces: seq<Piece>)
    requires AllWellBroken(width, lines, wrap, pieces)
    ensures LinesBroken(width, lines, wrap, pieces)
  {
    hide WellBroken, Keeps, Whole;
    var perLine: seq<seq<Piece>> :| ArePieces(width, lines, wrap, pieces, perLine);
    if wrap.None? {
      forall i | 0 <= i < |lines| ensures perLine[i] == [Piece(width(lines[i]), lines[i])] {
        assert LineOk(width, lines[i], wrap, perLine[i]);
      }
      FlatWhole(width, lines, perLine);
    } else {
      forall i | 0 <= i < |lines| ensures WellBroken(width, lines[i], wrap.value.1, wrap.value.0, perLine[i]) {
        assert LineOk(width, lines[i], wrap, perLine[i]);
      }
      AllLinesKept(width, lines, wrap.value.0, wrap.value.1, perLine);
    }
  }

  function Rank(wrap: Option<(real, Mode)>): nat { if wrap.Some? && wrap.value.1 == Word then 1 else 0 }

  /** Breaks one line. */
  method BreakLine(width: Width, line: string, wrap: real, mode: Mode) returns (pieces: seq<Piece>)
    requires Monotone(width) && OneLine(line)
    ensures WellBroken(width, line, mode, wrap, pieces)
    decreases Rank(Some((wrap, mode))), 1
  {
    hide Good, Monotone, ArePoints, OneLine, SoFar, WellBroken;
    var points := WrapPoints(line, mode);
    var next: nat, start: nat := 0, 0;
    ghost var good := Good(width, line, mode, wrap);
    pieces := [];
    NothingYet(good);
    while next < |points|
      invariant At(line, points, next, start) && SoFar(good, start, pieces)
    {
      var more;
      more, next, start := BreakOnce(width, line, wrap, mode, points, next, start, pieces);
      pieces := pieces + more;
    }
    Finished(width, line, mode, wrap, points, next, start, pieces);
  }

  lemma NothingYet(good: Rule)
    ensures SoFar(good, 0, [])
  {
    assert Tile([], 0) && PiecesOk(good, [], []);
  }

  lemma Finished(width: Width, line: string, mode: Mode, wrap: real, points: seq<nat>, next: nat, start: nat, pieces: seq<Piece>)
    requires ArePoints(line, mode, points) && At(line, points, next, start) && next == |points|
    requires SoFar(Good(width, line, mode, wrap), start, pieces)
    ensures WellBroken(width, line, mode, wrap, pieces)
  {}

  /** The longest piece that fits or, failing that, the next word in parts or the next character. */
  method BreakOnce(width: Width, line: string, wrap: real, mode: Mode, points: seq<nat>, next0: nat, start0: nat, ghost pieces: seq<Piece>)
      returns (more: seq<Piece>, next: nat, start: nat)
    requires Monotone(width) && OneLine(line) && ArePoints(line, mode, points)
    requires At(line, points, next0, start0) && next0 < |points| && SoFar(Good(width, line, mode, wrap), start0, pieces)
    ensures At(line, points, next, start) && next > next0 && SoFar(Good(width, line, mode, wrap), start, pieces + more)
    decreases Rank(Some((wrap, mode))), 0
  {
    hide Good, Monotone, ArePoints, OneLine, IsPoint;
    var fits, k := ChooseBreak(width, line, mode, wrap, points, next0, start0);
    if !fits && mode == Word {
      more := BreakWord(width, line, wrap, points, next0, start0, pieces);
    } else {
      var piece := TakePiece(width, line, mode, wrap, points, next0, start0, fits, k, pieces);
      more := [piece];
    }
    next, start := k + 1, points[k];
  }

  /** The piece up to the chosen point, or to the next one although it does not fit. */
  method TakePiece(width: Width, line: string, mode: Mode, wrap: real, points: seq<nat>, ghost next: nat, start: nat,
        ghost fits: bool, k: nat, ghost pieces: seq<Piece>)
      returns (piece: Piece)
    requires Monotone(width) && ArePoints(line, mode, points) && At(line, points, next, start)
    requires next <= k < |points| && start <= points[k] <= |line|
    requires fits ==> Measure(width, line, mode, start, points[k]) <= wrap && Maximal(width, line, mode, wrap, start, points[k])
    requires !fits ==> mode == Char && k == next && Measure(width, line, mode, start, points[k]) > wrap
    requires SoFar(Good(width, line, mode, wrap), start, pieces)
    ensures SoFar(Good(width, line, mode, wrap), points[k], pieces + [piece])
  {
    if !fits { TruncatedIsOk(width, line, wrap, points, next, start); }
    PointsAhead(line, mode, points, next, start, k);
    var end := points[k];
    var text := if end != |line| then TrimFor(mode, line[start..end]) else line[start..end];
    piece := Piece(width(text), text);
    assert LinePieceOk(width, line, mode, wrap, start, end, piece);
    OnePiece(width, line, mode, wrap, start, end, pieces, piece);
  }

  /** The next word does not fit on a line of its own: it is broken at characters. */
  method BreakWord(width: Width, line: string, wrap: real, points: seq<nat>, next: nat, start: nat, ghost pieces: seq<Piece>)
      returns (parts: seq<Piece>)
    requires Monotone(width) && OneLine(line)
    requires ArePoints(line, Word, points) && At(line, points, next, start) && next < |points| && start <= points[next] <= |line|
    requires Measure(width, line, Word, start, points[next]) > wrap && SoFar(Good(width, line, Word, wrap), start, pieces)
    ensures SoFar(Good(width, line, Word, wrap), points[next], pieces + parts)
    decreases 0, 5
  {
    hide Good, Monotone, SoFar, WellBroken, AllWellBroken, Lines, ArePoints, IsSplit, Keeps;
    var word := line[start..points[next]];
    parts := BreakLines(width, word, Some((wrap, Char)));
    ghost var lines, ends :| IsSplit(word, lines, ends) && LinesBroken(width, lines, Some((wrap, Char)), parts);
    SplitIsUnique(word, lines, ends);
    OnlyLine(width, word, wrap, parts);
    if line == [] {
      assert pieces + parts == pieces;
    } else {
      NextWord(line, points, next, start);
      WordPieces(width, line, wrap, start, points[next], pieces, parts);
    }
  }

  /** A text of one line. */
  lemma OnlyLine(width: Width, word: string, wrap: real, parts: seq<Piece>)
    requires OneLine(word) && AllWellBroken(width, Lines(word), Some((wrap, Char)), parts)
    ensures if word == [] then parts == [] else WellBroken(width, word, Char, wrap, parts)
  {
    hide WellBroken;
    SingleLine(word);
    var perLine: seq<seq<Piece>> :| ArePieces(width, Lines(word), Some((wrap, Char)), parts, perLine);
    if word != [] {
      assert LineOk(width, Lines(word)[0], Some((wrap, Char)), perLine[0]) && Lines(word)[0] == word;
      assert parts == perLine[0] by { assert perLine == [perLine[0]] && Flat(perLine) == Flat([]) + perLine[0]; }
    }
  }

  /** Breaks a text into lines and, given a width to wrap at, those into pieces. Without a width, the
      pieces are the lines; broken at characters, the pieces put together are the text without the ends
      of its lines; broken at words, all but spaces of that is there. */
  method BreakLines(width: Width, text: string, wrap: Option<(real, Mode)>)
      returns (pieces: seq<Piece>)
    requires Monotone(width)
    ensures exists lines, ends :: IsSplit(text, lines, ends) && LinesBroken(width, lines, wrap, pieces)
    decreases Rank(wrap), 4
  {
    hide LineOk, Monotone, IsSplit, Keeps, Whole;
    ghost var lines := Lines(text);
    ghost var ends := LinesSplit(text);
    ghost var perLine;
    pieces, perLine := BreakAll(width, Lines(text), wrap);
    assert ArePieces(width, lines, wrap, pieces, perLine);
    BrokenText(width, lines, wrap, pieces);
    assert IsSplit(text, lines, ends) && LinesBroken(width, lines, wrap, pieces);
  }

  method BreakOrKeep(width: Width, line: string, wrap: Option<(real, Mode)>) returns (pieces: seq<Piece>)
    requires Monotone(width) && OneLine(line)
    ensures LineOk(width, line, wrap, pieces)
    decreases Rank(wrap), 2
  {
    if wrap.None? {
      pieces := [Piece(width(line), line)];
    } else {
      pieces := BreakLine(width, line, wrap.value.0, wrap.value.1);
    }
  }

  method BreakAll(width: Width, lines: seq<string>, wrap: Option<(real, Mode)>)
      returns (pieces: seq<Piece>, ghost perLine: seq<seq<Piece>>)
    requires Monotone(width) && forall i | 0 <= i < |lines| :: OneLine(lines[i])
    ensures pieces == Flat(perLine) && |perLine| == |lines|
    ensures forall i | 0 <= i < |lines| :: LineOk(width, lines[i], wrap, perLine[i])
    decreases Rank(wrap), 3
  {
    hide LineOk, Monotone, OneLine, Flat;
    pieces, perLine := [], [];
    NothingFlat();
    for n := 0 to |lines|
      invariant pieces == Flat(perLine) && |perLine| == n
      invariant forall i | 0 <= i < n :: LineOk(width, lines[i], wrap, perLine[i])
    {
      var broken := BreakOrKeep(width, lines[n], wrap);
      pieces := pieces + broken;
      FlatMore(perLine, broken);
      perLine := perLine + [broken];
    }
  }
}
