/** Glyph names in a 'post' table. Looking up the glyph of a name collects all the names there
    are; looking up the name of a glyph walks the same table to one place only. */
module PostTable {

  datatype Option<T> = None | Some(value: T)

  type Byte = b: int | 0 <= b < 256

  /** A string is its UTF-8 encoding. */
  type Name = seq<Byte>

  /** The standard names, and which byte sequences are UTF-8, are left open. */
  datatype Setting = Setting(standard: seq<Name>, utf8: Name -> bool)

  const FORMAT_1 := 0x00010000
  const FORMAT_2 := 0x00020000
  const STANDARD_COUNT := 258
  const INDICES_START := 34

  function U16(data: seq<Byte>, i: nat): nat
    requires i + 2 <= |data|
  {
    data[i] as int * 0x100 + data[i + 1]
  }

  function U32(data: seq<Byte>, i: nat): nat
    requires i + 4 <= |data|
  {
    data[i] as int * 0x1000000 + data[i + 1] as int * 0x10000 + data[i + 2] as int * 0x100 + data[i + 3]
  }

  // ---- What the table says ----

  /** The strings from a position on, each after its length; an incomplete one ends the list. */
  function PascalStrings(data: seq<Byte>, pos: nat): seq<Name>
    requires pos <= |data|
    decreases |data| - pos
  {
    if pos == |data| || pos + 1 + data[pos] > |data| then []
    else [data[pos + 1..pos + 1 + data[pos]]] + PascalStrings(data, pos + 1 + data[pos])
  }

  predicate IsFormat1(data: seq<Byte>) { |data| >= 32 && U32(data, 0) == FORMAT_1 }

  /** Format 2.0 with a complete array of name indices. */
  predicate IsFormat2(data: seq<Byte>) {
    |data| >= INDICES_START && U32(data, 0) == FORMAT_2 && |data| >= INDICES_START + U16(data, 32) * 2
  }

  function GlyphCount(s: Setting, data: seq<Byte>): nat {
    if IsFormat1(data) then |s.standard| else if IsFormat2(data) then U16(data, 32) else 0
  }

  function Extras(data: seq<Byte>): seq<Name>
    requires IsFormat2(data)
  {
    PascalStrings(data, INDICES_START + U16(data, 32) * 2)
  }

  /** The name of a glyph, if it has one. */
  function NameOf(s: Setting, data: seq<Byte>, g: nat): Option<Name> {
    if g >= GlyphCount(s, data) then None
    else if IsFormat1(data) then Some(s.standard[g])
    else IndexedName(s, Extras(data), U16(data, INDICES_START + g * 2))
  }

  function IndexedName(s: Setting, extras: seq<Name>, index: nat): Option<Name> {
    if index < STANDARD_COUNT then if index < |s.standard| then Some(s.standard[index]) else None
    else
      var i := index - STANDARD_COUNT;
      if i < |extras| && s.utf8(extras[i]) then Some(extras[i]) else None
  }

  function OrEmpty(name: Option<Name>): Name { if name.Some? then name.value else [] }

  /** The first glyph from g on that has the name; a glyph without a name counts as named "". */
  function FirstNamed(s: Setting, data: seq<Byte>, name: Name, g: nat): (r: Option<nat>)
    requires g <= GlyphCount(s, data)
    ensures r.Some? ==> g <= r.value < GlyphCount(s, data) && OrEmpty(NameOf(s, data, r.value)) == name
    ensures forall h | g <= h < (if r.Some? then r.value else GlyphCount(s, data)) :: OrEmpty(NameOf(s, data, h)) != name
    decreases GlyphCount(s, data) - g
  {
    if g == GlyphCount(s, data) then None
    else if OrEmpty(NameOf(s, data, g)) == name then Some(g)
    else FirstNamed(s, data, name, g + 1)
  }

  function GlyphOf(s: Setting, data: seq<Byte>, name: Name): Option<nat> { FirstNamed(s, data, name, 0) }

  // ---- The two lookups agree ----

  /** For a name that is not empty, the lookup by name returns the least glyph whose name that is,
      and nothing exactly when no glyph has it. */
  lemma LookupsAgree(s: Setting, data: seq<Byte>, name: Name)
    requires name != []
    ensures var r := GlyphOf(s, data, name);
      && (r.None? <==> forall g: nat :: NameOf(s, data, g) != Some(name))
      && (r.Some? ==> NameOf(s, data, r.value) == Some(name) && forall g: nat | g < r.value :: NameOf(s, data, g) != Some(name))
  {
    var r := GlyphOf(s, data, name);
    forall g: nat | r.None? || g < r.value ensures NameOf(s, data, g) != Some(name) {
      if g < GlyphCount(s, data) { assert OrEmpty(NameOf(s, data, g)) != name; }
    }
  }

  /** For the empty name, the glyph found has that name exactly unless a nameless glyph comes
      first. */
  lemma EmptyNameLookup(s: Setting, data: seq<Byte>)
    ensures var r := GlyphOf(s, data, []);
      (r.Some? ==> NameOf(s, data, r.value) == Some([])) <==>
        forall g: nat | g < GlyphCount(s, data) && NameOf(s, data, g).None? :: exists h: nat | h < g :: NameOf(s, data, h) == Some([])
  {
    var r := GlyphOf(s, data, []);
    if r.Some? && NameOf(s, data, r.value).None? {
      forall h: nat | h < r.value ensures NameOf(s, data, h) != Some([]) { assert OrEmpty(NameOf(s, data, h)) != []; }
    } else {
      forall g: nat | g < GlyphCount(s, data) && NameOf(s, data, g).None?
        ensures exists h: nat | h < g :: NameOf(s, data, h) == Some([])
      {
        assert OrEmpty(NameOf(s, data, g)) == [];
        assert r.value <= g && NameOf(s, data, r.value) == Some([]);
      }
    }
  }

  /** Two glyphs, the first with an index that no string has, the second with the empty name. */
  function NamelessFirst(): seq<Byte> { [0, 2, 0, 0] + seq<Byte>(28, i => 0) + [0, 2, 3, 232, 1, 2, 0] }

  /** The glyph found for the empty name has no name; the next one has that name. */
  lemma NamelessGlyphFound(s: Setting)
    requires s.utf8([])
    ensures var data := NamelessFirst();
      GlyphOf(s, data, []) == Some(0) && NameOf(s, data, 0) == None && NameOf(s, data, 1) == Some([])
  {
    var data := NamelessFirst();
    assert |data| == 39 && U32(data, 0) == FORMAT_2 && U16(data, 32) == 2 && U16(data, 34) == 1000 && U16(data, 36) == 258;
    assert data[38] == 0 && data[39..39] == [];
    assert PascalStrings(data, 39) == [];
    assert Extras(data) == [[]];
    assert NameOf(s, data, 0) == None;
  }

  // ---- A table of one's own names reads back ----

  function Pascal(name: Name): (r: seq<Byte>)
    requires |name| < 256
    ensures |r| == 1 + |name| && r[0] == |name| && r[1..] == name
  {
    var length: Byte := |name|;
    [length] + name
  }

  function Packed(names: seq<Name>): seq<Byte>
    requires forall i | 0 <= i < |names| :: |names[i]| < 256
  {
    if names == [] then [] else Pascal(names[0]) + Packed(names[1..])
  }

  /** Where the parts of a concatenation are. */
  lemma Parts(data: seq<Byte>, at: nat, length: Byte, name: Name, rest: seq<Byte>)
    requires at <= |data| && data[at..] == [length] + name + rest
    ensures at + 1 + |name| <= |data| && data[at] == length
    ensures data[at + 1..at + 1 + |name|] == name && data[at + 1 + |name|..] == rest
  {
    var tail := data[at..];
    assert |tail| == 1 + |name| + |rest|;
    assert data[at] == tail[0];
    assert data[at + 1..at + 1 + |name|] == tail[1..1 + |name|];
    assert data[at + 1 + |name|..] == tail[1 + |name|..];
  }

  lemma {:induction false} UnpackPacked(data: seq<Byte>, at: nat, names: seq<Name>)
    requires at <= |data| && (forall i | 0 <= i < |names| :: |names[i]| < 256) && data[at..] == Packed(names)
    ensures PascalStrings(data, at) == names
    decreases |names|
  {
    if names != [] {
      var name := names[0];
      Parts(data, at, |name|, name, Packed(names[1..]));
      UnpackPacked(data, at + 1 + |name|, names[1..]);
    }
  }

  /** The array of name indices. */
  function IndexArray(indices: seq<nat>): (r: seq<Byte>)
    requires forall i | 0 <= i < |indices| :: indices[i] < 0x10000
    ensures |r| == 2 * |indices|
  {
    seq(2 * |indices|, i requires 0 <= i < 2 * |indices| => if i % 2 == 0 then indices[i / 2] / 0x100 else indices[i / 2] % 0x100)
  }

  function Header(n: nat): (r: seq<Byte>)
    requires n < 0x10000
    ensures |r| == INDICES_START
  {
    [0, 2, 0, 0] + seq(28, i => 0) + [n / 0x100, n % 0x100]
  }

  predicate Buildable(indices: seq<nat>, names: seq<Name>) {
    && |indices| < 0x10000 && (forall i | 0 <= i < |indices| :: indices[i] < 0x10000)
    && forall i | 0 <= i < |names| :: |names[i]| < 256
  }

  /** A table of format 2.0: for each glyph an index, and then strings. */
  function BuildTable(indices: seq<nat>, names: seq<Name>): seq<Byte>
    requires Buildable(indices, names)
  {
    Header(|indices|) + IndexArray(indices) + Packed(names)
  }

  lemma BuiltIndex(indices: seq<nat>, names: seq<Name>, g: nat)
    requires Buildable(indices, names) && g < |indices|
    ensures IsFormat2(BuildTable(indices, names)) && U16(BuildTable(indices, names), 32) == |indices|
    ensures U16(BuildTable(indices, names), INDICES_START + g * 2) == indices[g]
  {
    hide PascalStrings, Packed, Header, IndexArray;
    var n, data := |indices|, BuildTable(indices, names);
    HeaderSays(n);
    IndexSays(indices, g);
    var header, rest := Header(n), IndexArray(indices) + Packed(names);
    assert data == header + rest;
    forall i | 0 <= i < INDICES_START ensures data[i] == header[i] {}
    assert data[INDICES_START + g * 2] == IndexArray(indices)[g * 2];
    assert data[INDICES_START + g * 2 + 1] == IndexArray(indices)[g * 2 + 1];
  }

  lemma HeaderSays(n: nat)
    requires n < 0x10000
    ensures U32(Header(n), 0) == FORMAT_2 && U16(Header(n), 32) == n
  {
    var h := Header(n);
    assert h[0] == 0 && h[1] == 2 && h[2] == 0 && h[3] == 0 && h[32] == n / 0x100 && h[33] == n % 0x100;
  }

  lemma IndexSays(indices: seq<nat>, g: nat)
    requires g < |indices| && forall i | 0 <= i < |indices| :: indices[i] < 0x10000
    ensures U16(IndexArray(indices), g * 2) == indices[g]
  {
    assert g * 2 % 2 == 0 && (g * 2 + 1) % 2 == 1 && g * 2 / 2 == (g * 2 + 1) / 2 == g;
  }

  /** The name an index stands for: below 258 a standard name, above it one of the strings. */
  predicate IsNamed(s: Setting, names: seq<Name>, index: nat, name: Name) {
    || (index < 258 && index < |s.standard| && name == s.standard[index])
    || (258 <= index < 258 + |names| && name == names[index - 258] && s.utf8(name))
  }

  /** Any table reads back: each glyph has the name its index stands for, or none, and looking up a
      name gives the first glyph that has it. */
  lemma BuiltTableReadsBack(s: Setting, indices: seq<nat>, names: seq<Name>, g: nat, name: Name)
    requires Buildable(indices, names) && g < |indices|
    ensures var data := BuildTable(indices, names);
      && (NameOf(s, data, g) == Some(name) <==> IsNamed(s, names, indices[g], name))
      && (name != [] && IsNamed(s, names, indices[g], name) && (forall i | 0 <= i < g :: !IsNamed(s, names, indices[i], name)) ==>
            GlyphOf(s, data, name) == Some(g))
  {
    hide IsNamed;
    var data := BuildTable(indices, names);
    forall h: nat | h < |indices| ensures NameOf(s, data, h) == Some(name) <==> IsNamed(s, names, indices[h], name) {
      BuiltName(s, indices, names, h, name);
    }
    hide NameOf, BuildTable;
    if name != [] { LookupsAgree(s, data, name); }
  }

  lemma BuiltName(s: Setting, indices: seq<nat>, names: seq<Name>, g: nat, name: Name)
    requires Buildable(indices, names) && g < |indices|
    ensures NameOf(s, BuildTable(indices, names), g) == Some(name) <==> IsNamed(s, names, indices[g], name)
  {
    hide Packed, PascalStrings, Header, IndexArray;
    BuiltIndex(indices, names, g);
    UnpackPacked(BuildTable(indices, names), INDICES_START + 2 * |indices|, names);
    assert !IsFormat1(BuildTable(indices, names));
  }

  /** A table of format 1.0 gives the glyphs the standard names in order. */
  lemma Format1Names(s: Setting, data: seq<Byte>, g: nat)
    requires |data| >= 32 && data[..4] == [0, 1, 0, 0]
    ensures NameOf(s, data, g) == if g < |s.standard| then Some(s.standard[g]) else None
  {
    assert data[0] == data[..4][0] && data[1] == data[..4][1] && data[2] == data[..4][2] && data[3] == data[..4][3];
  }

  // ---- The lookups ----

  /** Collects all strings of the string table, invalid ones as "". */
  method CollectNames(s: Setting, data: seq<Byte>, start: nat) returns (extras: seq<Name>)
    requires start <= |data|
    ensures var all := PascalStrings(data, start);
      |extras| == |all| && forall i | 0 <= i < |all| :: extras[i] == if s.utf8(all[i]) then all[i] else []
  {
    hide PascalStrings;
    extras := [];
    ghost var seen: seq<Name> := [];
    var pos := start;
    while pos < |data|
      invariant start <= pos <= |data| && PascalStrings(data, start) == seen + PascalStrings(data, pos)
      invariant |extras| == |seen| && forall i | 0 <= i < |seen| :: extras[i] == if s.utf8(seen[i]) then seen[i] else []
      decreases |data| - pos
    {
      NextString(data, pos);
      var len := data[pos];
      if pos + 1 + len > |data| { break; }
      var name := data[pos + 1..pos + 1 + len];
      extras := extras + [if s.utf8(name) then name else []];
      Regroup(seen, name, PascalStrings(data, pos + 1 + len));
      seen := seen + [name];
      pos := pos + 1 + len;
    }
    if pos == |data| { NoMoreStrings(data); }
    assert seen + [] == seen;
  }

  lemma Regroup(seen: seq<Name>, name: Name, rest: seq<Name>)
    ensures seen + ([name] + rest) == (seen + [name]) + rest
  {}

  lemma NextString(data: seq<Byte>, pos: nat)
    requires pos < |data|
    ensures PascalStrings(data, pos) == if pos + 1 + data[pos] > |data| then []
            else [data[pos + 1..pos + 1 + data[pos]]] + PascalStrings(data, pos + 1 + data[pos])
  {}

  lemma NoMoreStrings(data: seq<Byte>)
    ensures PascalStrings(data, |data|) == []
  {}

  /** Goes through the glyphs of format 2.0, the strings having been collected. */
  method SearchGlyphs(s: Setting, data: seq<Byte>, name: Name, extras: seq<Name>) returns (glyph: Option<nat>)
    requires IsFormat2(data) && |extras| == |Extras(data)|
    requires forall i | 0 <= i < |extras| :: extras[i] == if s.utf8(Extras(data)[i]) then Extras(data)[i] else []
    ensures glyph == GlyphOf(s, data, name)
  {
    hide PascalStrings;
    var numGlyphs := U16(data, 32);
    for g := 0 to numGlyphs
      invariant FirstNamed(s, data, name, 0) == FirstNamed(s, data, name, g)
    {
      var index := U16(data, INDICES_START + g * 2);
      var glyphName;
      if index < STANDARD_COUNT {
        glyphName := if index < |s.standard| then s.standard[index] else [];
      } else {
        glyphName := if index - STANDARD_COUNT < |extras| then extras[index - STANDARD_COUNT] else [];
      }
      assert glyphName == OrEmpty(NameOf(s, data, g));
      if glyphName == name { return Some(g); }
    }
    return None;
  }

  method GlyphIdFromPostTable(s: Setting, data: seq<Byte>, name: Name) returns (glyph: Option<nat>)
    ensures glyph == GlyphOf(s, data, name)
  {
    hide PascalStrings;
    if |data| < 32 { return None; }
    var format := U32(data, 0);
    if format == FORMAT_1 {
      for i := 0 to |s.standard|
        invariant FirstNamed(s, data, name, 0) == FirstNamed(s, data, name, i)
      {
        if s.standard[i] == name { return Some(i); }
      }
      return None;
    } else if format == FORMAT_2 {
      if |data| < INDICES_START { return None; }
      var numGlyphs := U16(data, 32);
      var indicesEnd := INDICES_START + numGlyphs * 2;
      if |data| < indicesEnd { return None; }
      var extras := CollectNames(s, data, indicesEnd);
      glyph := SearchGlyphs(s, data, name, extras);
      return glyph;
    }
    return None;
  }

  /** Walks to the string with the given number. */
  method WalkTo(s: Setting, data: seq<Byte>, start: nat, extra: nat) returns (name: Option<Name>)
    requires start <= |data|
    ensures var all := PascalStrings(data, start);
      name == if extra < |all| && s.utf8(all[extra]) then Some(all[extra]) else None
  {
    hide PascalStrings;
    ghost var seen: seq<Name> := [];
    var pos, current := start, 0;
    while pos < |data|
      invariant start <= pos <= |data| && PascalStrings(data, start) == seen + PascalStrings(data, pos)
      invariant current == |seen| <= extra
      decreases |data| - pos
    {
      NextString(data, pos);
      var len := data[pos];
      if pos + 1 + len > |data| { break; }
      ghost var found := data[pos + 1..pos + 1 + len];
      Regroup(seen, found, PascalStrings(data, pos + 1 + len));
      if current == extra {
        var bytes := data[pos + 1..pos + 1 + len];
        return if s.utf8(bytes) then Some(bytes) else None;
      }
      seen := seen + [found];
      pos := pos + 1 + len;
      current := current + 1;
    }
    if pos == |data| { NoMoreStrings(data); }
    return None;
  }

  method GlyphNameFromPostTable(s: Setting, data: seq<Byte>, glyph: nat) returns (name: Option<Name>)
    ensures name == NameOf(s, data, glyph)
  {
    if |data| < 32 { return None; }
    var format := U32(data, 0);
    if format == FORMAT_1 {
      return if glyph < |s.standard| then Some(s.standard[glyph]) else None;
    } else if format == FORMAT_2 {
      if |data| < INDICES_START { return None; }
      var numGlyphs := U16(data, 32);
      if glyph >= numGlyphs { return None; }
      var indicesEnd := INDICES_START + numGlyphs * 2;
      if |data| < indicesEnd { return None; }
      var index := U16(data, INDICES_START + glyph * 2);
      if index < STANDARD_COUNT {
        return if index < |s.standard| then Some(s.standard[index]) else None;
      }
      name := WalkTo(s, data, indicesEnd, index - STANDARD_COUNT);
      return name;
    }
    return None;
  }
}
