/** The SMBIOS structure table: header and formatted area as in section 6.1.2 of DSP0134, followed by
    the string set of section 6.1.3. */
module Smbios {

  type Byte = x: int | 0 <= x < 256

  /** `data` is the formatted area with its header; `strings[0]` is string number 1. */
  datatype Structure = Structure(kind: Byte, data: seq<Byte>, strings: seq<seq<Byte>>)

  const END_OF_TABLE: Byte := 127

  // ----- what parsing means, from a position in the table

  /** The first NUL at or after `from`, or the end of the table. */
  function NextNul(t: seq<Byte>, from: nat): (n: nat)
    requires from <= |t|
    ensures from <= n <= |t|
    decreases |t| - from
  {
    if from == |t| || t[from] == 0 then from else NextNul(t, from + 1)
  }

  /** Strings, and the position after them. */
  datatype StringSet = StringSet(strings: seq<seq<Byte>>, next: nat)

  /** Strings up to the double NUL, or up to wherever the table stops. */
  function ReadStrings(t: seq<Byte>, from: nat): (r: StringSet)
    requires from <= |t|
    ensures from <= r.next <= |t|
    decreases |t| - from
  {
    var e := NextNul(t, from);
    if e == |t| then StringSet([], e)
    else if e + 1 == |t| then StringSet([t[from..e]], e + 1)
    else if t[e + 1] == 0 then StringSet([t[from..e]], e + 2)
    else
      var more := ReadStrings(t, e + 1);
      StringSet([t[from..e]] + more.strings, more.next)
  }

  /** A set with these strings in front. */
  function Behind(strings: seq<seq<Byte>>, more: StringSet): StringSet {
    StringSet(strings + more.strings, more.next)
  }

  lemma ReadStep(t: seq<Byte>, from: nat)
    requires from <= |t|
    ensures var e := NextNul(t, from);
            ReadStrings(t, from) ==
              if e == |t| then StringSet([], e)
              else if e + 1 == |t| || t[e + 1] == 0 then StringSet([t[from..e]], if e + 1 == |t| then e + 1 else e + 2)
              else Behind([t[from..e]], ReadStrings(t, e + 1))
  {
  }

  lemma BehindMore(strings: seq<seq<Byte>>, s: seq<Byte>, more: StringSet)
    ensures Behind(strings, Behind([s], more)) == Behind(strings + [s], more)
  {
  }

  /** An empty set takes one byte here, although its encoding has two. */
  function ReadSet(t: seq<Byte>, from: nat): (r: StringSet)
    requires from <= |t|
    ensures from <= r.next <= |t|
  {
    if from < |t| && t[from] == 0 then StringSet([], from + 1) else ReadStrings(t, from)
  }

  /** A header that the walk accepts. */
  predicate HeaderAt(t: seq<Byte>, pos: nat) {
    pos + 4 <= |t| && 4 <= t[pos + 1] && pos + t[pos + 1] <= |t|
  }

  function StructureAt(t: seq<Byte>, pos: nat): Structure
    requires HeaderAt(t, pos)
  {
    var end := pos + t[pos + 1];
    Structure(t[pos], t[pos..end], ReadSet(t, end).strings)
  }

  function ParseFrom(t: seq<Byte>, pos: nat): seq<Structure>
    requires pos <= |t|
    decreases |t| - pos
  {
    if !HeaderAt(t, pos) then []
    else
      [StructureAt(t, pos)]
        + if t[pos] == END_OF_TABLE then [] else ParseFrom(t, ReadSet(t, pos + t[pos + 1]).next)
  }

  function Parse(t: seq<Byte>): seq<Structure> {
    ParseFrom(t, 0)
  }

  /** Where the walk goes on after the structure at `pos`. */
  function After(t: seq<Byte>, pos: nat): (next: nat)
    requires HeaderAt(t, pos)
    ensures pos < next <= |t|
  {
    ReadSet(t, pos + t[pos + 1]).next
  }

  lemma ParseStep(t: seq<Byte>, pos: nat)
    requires HeaderAt(t, pos)
    ensures ParseFrom(t, pos)
              == [StructureAt(t, pos)] + if t[pos] == END_OF_TABLE then [] else ParseFrom(t, After(t, pos))
  {
  }

  lemma ParseStops(t: seq<Byte>, pos: nat)
    requires pos <= |t| && !HeaderAt(t, pos)
    ensures ParseFrom(t, pos) == []
  {
  }

  lemma MoveOver(out: seq<Structure>, s: Structure, rest: seq<Structure>)
    ensures out + ([s] + rest) == (out + [s]) + rest
  {
  }

  lemma StepReads(t: seq<Byte>, pos: nat, s: Structure, cursor: nat)
    requires HeaderAt(t, pos) && s.kind == t[pos] && s.data == t[pos..pos + t[pos + 1]]
    requires ReadSet(t, pos + t[pos + 1]) == StringSet(s.strings, cursor)
    ensures StructureAt(t, pos) == s && After(t, pos) == cursor
  {
  }

  // ----- the loops

  /** Every read is in bounds and the walk ends, whatever the bytes are. */
  method IterateStructures(table: seq<Byte>) returns (out: seq<Structure>)
    ensures out == Parse(table)
  {
    ghost var goal := Parse(table);
    out := [];
    var pos := 0;
    while pos + 4 <= |table|
      invariant pos <= |table|
      invariant goal == out + ParseFrom(table, pos)
      decreases |table| - pos
    {
      var kind := table[pos];
      var length := table[pos + 1];
      if length < 4 {
        break;
      }
      var dataEnd := pos + length;
      if dataEnd > |table| {
        break;
      }
      var data := table[pos..dataEnd];
      var strings, cursor := CollectStrings(table, dataEnd);
      var structure := Structure(kind, data, strings);
      StepReads(table, pos, structure, cursor);
      ParseStep(table, pos);
      MoveOver(out, structure, if kind == END_OF_TABLE then [] else ParseFrom(table, cursor));
      out := out + [structure];
      if kind == END_OF_TABLE {
        return;
      }
      pos := cursor;
    }
    ParseStops(table, pos);
  }

  /** The string set after a formatted area. */
  method CollectStrings(table: seq<Byte>, dataEnd: nat) returns (strings: seq<seq<Byte>>, cursor: nat)
    requires dataEnd <= |table|
    ensures ReadSet(table, dataEnd) == StringSet(strings, cursor)
  {
    ghost var goal := ReadSet(table, dataEnd);
    strings := [];
    cursor := dataEnd;
    if cursor < |table| && table[cursor] == 0 {
      cursor := cursor + 1;
      return;
    }
    while true
      invariant dataEnd <= cursor <= |table|
      invariant goal == Behind(strings, ReadStrings(table, cursor))
      decreases |table| - cursor
    {
      var start := cursor;
      cursor := SkipString(table, start);
      ReadStep(table, start);
      if cursor >= |table| {
        return;
      }
      if cursor + 1 < |table| && table[cursor + 1] != 0 {
        BehindMore(strings, table[start..cursor], ReadStrings(table, cursor + 1));
      }
      strings := strings + [table[start..cursor]];
      cursor := cursor + 1;
      if cursor == |table| {
        return;
      }
      if table[cursor] == 0 {
        cursor := cursor + 1;
        return;
      }
    }
  }

  /** Moves to the next NUL, or to the end of a table that stops inside a string. */
  method SkipString(table: seq<Byte>, start: nat) returns (cursor: nat)
    requires start <= |table|
    ensures cursor == NextNul(table, start)
  {
    cursor := start;
    while cursor < |table| && table[cursor] != 0
      invariant start <= cursor <= |table|
      invariant NextNul(table, start) == NextNul(table, cursor)
    {
      cursor := cursor + 1;
    }
  }

  // ----- section 6.1.3 encoding, and the round trip

  function EncodeStrings(strings: seq<seq<Byte>>): seq<Byte> {
    if strings == [] then [] else strings[0] + [0] + EncodeStrings(strings[1..])
  }

  /** Each string with its NUL, and one NUL more; an empty set is two NULs. */
  function EncodeSet(strings: seq<seq<Byte>>): seq<Byte> {
    if strings == [] then [0, 0] else EncodeStrings(strings) + [0]
  }

  function EncodeStructure(s: Structure): seq<Byte> {
    s.data + EncodeSet(s.strings)
  }

  function Encode(structures: seq<Structure>): seq<Byte> {
    if structures == [] then [] else EncodeStructure(structures[0]) + Encode(structures[1..])
  }

  predicate WellFormedString(s: seq<Byte>) {
    s != [] && forall i | 0 <= i < |s| :: s[i] != 0
  }

  /** The header names the kind and the length of the formatted area. */
  predicate WellFormed(s: Structure) {
    && 4 <= |s.data| == s.data[1]
    && s.data[0] == s.kind
    && forall i | 0 <= i < |s.strings| :: WellFormedString(s.strings[i])
  }

  ghost predicate AllWellFormed(structures: seq<Structure>) {
    forall i | 0 <= i < |structures| :: WellFormed(structures[i])
  }

  /** What a structure must have for the walk to find the next one after it. */
  predicate LeadsOn(s: Structure) {
    s.strings != [] && s.kind != END_OF_TABLE
  }

  /** The bytes `b` stand at `pos`. */
  ghost predicate At(t: seq<Byte>, pos: nat, b: seq<Byte>) {
    pos + |b| <= |t| && forall i | 0 <= i < |b| :: t[pos + i] == b[i]
  }

  lemma AtSplit(t: seq<Byte>, pos: nat, a: seq<Byte>, b: seq<Byte>)
    requires At(t, pos, a + b)
    ensures At(t, pos, a) && At(t, pos + |a|, b)
  {
    forall i | 0 <= i < |a| ensures t[pos + i] == a[i] {
      assert (a + b)[i] == a[i];
    }
    forall i | 0 <= i < |b| ensures t[pos + |a| + i] == b[i] {
      assert (a + b)[|a| + i] == b[i];
    }
  }

  lemma AtSlice(t: seq<Byte>, pos: nat, b: seq<Byte>)
    requires At(t, pos, b)
    ensures t[pos..pos + |b|] == b
  {
  }

  lemma AtByte(t: seq<Byte>, pos: nat, b: seq<Byte>, i: nat)
    requires At(t, pos, b) && i < |b|
    ensures pos + i < |t| && t[pos + i] == b[i]
  {
  }

  lemma WholeAt(t: seq<Byte>)
    ensures At(t, 0, t)
  {
  }

  lemma {:induction false} NextNulIs(t: seq<Byte>, from: nat, e: nat)
    requires from <= e < |t| && t[e] == 0 && forall i | from <= i < e :: t[i] != 0
    ensures NextNul(t, from) == e
    decreases e - from
  {
    if from < e {
      NextNulIs(t, from + 1, e);
    }
  }

  lemma StringAt(t: seq<Byte>, pos: nat, s: seq<Byte>)
    requires WellFormedString(s) && At(t, pos, s + [0])
    ensures NextNul(t, pos) == pos + |s| < |t| && t[pos..pos + |s|] == s
    ensures t[pos] != 0
  {
    AtSplit(t, pos, s, [0]);
    AtSlice(t, pos, s);
    AtByte(t, pos + |s|, [0], 0);
    AtByte(t, pos, s, 0);
    forall i | pos <= i < pos + |s| ensures t[i] != 0 {
      AtByte(t, pos, s, i - pos);
    }
    NextNulIs(t, pos, pos + |s|);
  }

  lemma AtGroups(t: seq<Byte>, pos: nat, all: seq<Byte>, a: seq<Byte>, b: seq<Byte>, c: seq<Byte>)
    requires all == a + b && At(t, pos, all + c)
    ensures At(t, pos, a) && At(t, pos + |a|, b + c)
  {
    assert all + c == a + (b + c);
    AtSplit(t, pos, a, b + c);
  }

  lemma StringsSplit(t: seq<Byte>, pos: nat, strings: seq<seq<Byte>>)
    requires strings != [] && At(t, pos, EncodeStrings(strings) + [0])
    ensures At(t, pos, strings[0] + [0])
    ensures At(t, pos + |strings[0]| + 1, EncodeStrings(strings[1..]) + [0])
    ensures |EncodeStrings(strings)| == |strings[0]| + 1 + |EncodeStrings(strings[1..])|
  {
    AtGroups(t, pos, EncodeStrings(strings), strings[0] + [0], EncodeStrings(strings[1..]), [0]);
  }

  lemma LastStringReads(t: seq<Byte>, pos: nat, s: seq<Byte>)
    requires WellFormedString(s) && At(t, pos, s + [0])
    requires pos + |s| + 1 < |t| && t[pos + |s| + 1] == 0
    ensures t[pos] != 0 && ReadStrings(t, pos) == StringSet([s], pos + |s| + 2)
  {
    StringAt(t, pos, s);
  }

  lemma NextStringReads(t: seq<Byte>, pos: nat, s: seq<Byte>, more: StringSet)
    requires WellFormedString(s) && At(t, pos, s + [0])
    requires pos + |s| + 1 < |t| && t[pos + |s| + 1] != 0 && ReadStrings(t, pos + |s| + 1) == more
    ensures t[pos] != 0 && ReadStrings(t, pos) == Behind([s], more)
  {
    StringAt(t, pos, s);
    ReadStep(t, pos);
  }

  /** Given that the strings behind the first read back, if there are any. */
  lemma FirstStringReads(t: seq<Byte>, pos: nat, s: seq<Byte>, more: seq<seq<Byte>>, after: nat)
    requires WellFormedString(s) && At(t, pos, s + [0]) && pos + |s| + 1 < |t|
    requires if more == [] then t[pos + |s| + 1] == 0 && after == pos + |s| + 2
             else t[pos + |s| + 1] != 0 && ReadStrings(t, pos + |s| + 1) == StringSet(more, after)
    ensures t[pos] != 0 && ReadStrings(t, pos) == StringSet([s] + more, after)
  {
    if more == [] {
      LastStringReads(t, pos, s);
    } else {
      NextStringReads(t, pos, s, StringSet(more, after));
    }
  }

  lemma {:induction false} StringsRoundTrip(t: seq<Byte>, pos: nat, strings: seq<seq<Byte>>, after: nat)
    requires strings != [] && forall i | 0 <= i < |strings| :: WellFormedString(strings[i])
    requires At(t, pos, EncodeStrings(strings) + [0]) && after == pos + |EncodeStrings(strings)| + 1
    ensures pos < |t| && t[pos] != 0
    ensures ReadStrings(t, pos) == StringSet(strings, after)
    decreases |strings|
  {
    var s, more := strings[0], strings[1..];
    var next := pos + |s| + 1;
    StringsSplit(t, pos, strings);
    if more == [] {
      AtByte(t, next, EncodeStrings(more) + [0], 0);
    } else {
      StringsRoundTrip(t, next, more, after);
    }
    FirstStringReads(t, pos, s, more, after);
    assert strings == [s] + more;
  }

  lemma SetReadsBack(t: seq<Byte>, pos: nat, strings: seq<seq<Byte>>)
    requires forall i | 0 <= i < |strings| :: WellFormedString(strings[i])
    requires At(t, pos, EncodeSet(strings))
    ensures ReadSet(t, pos) == StringSet(strings, pos + |EncodeSet(strings)| - if strings == [] then 1 else 0)
  {
    if strings == [] {
      AtByte(t, pos, [0, 0], 0);
    } else {
      StringsRoundTrip(t, pos, strings, pos + |EncodeSet(strings)|);
    }
  }

  lemma HeaderReadsBack(t: seq<Byte>, pos: nat, s: Structure)
    requires WellFormed(s) && At(t, pos, EncodeStructure(s))
    ensures HeaderAt(t, pos) && t[pos] == s.kind && t[pos + 1] == |s.data| && t[pos..pos + |s.data|] == s.data
    ensures At(t, pos + |s.data|, EncodeSet(s.strings))
  {
    AtSplit(t, pos, s.data, EncodeSet(s.strings));
    AtSlice(t, pos, s.data);
    AtByte(t, pos, s.data, 0);
    AtByte(t, pos, s.data, 1);
  }

  /** A structure reads back wherever it stands; the walk goes on behind it, one byte early when its
      string set is empty. */
  lemma StructureReadsBack(t: seq<Byte>, pos: nat, s: Structure)
    requires WellFormed(s) && At(t, pos, EncodeStructure(s))
    ensures HeaderAt(t, pos) && t[pos] == s.kind && StructureAt(t, pos) == s
    ensures After(t, pos) == pos + |EncodeStructure(s)| - if s.strings == [] then 1 else 0
  {
    HeaderReadsBack(t, pos, s);
    SetReadsBack(t, pos + |s.data|, s.strings);
    StepReads(t, pos, s, pos + |s.data| + |EncodeSet(s.strings)| - if s.strings == [] then 1 else 0);
  }

  /** Read from the leftover NUL of an empty set, the next structure is never recovered. */
  lemma MisalignedNeverMatches(t: seq<Byte>, pos: nat, structures: seq<Structure>)
    requires structures != [] && AllWellFormed(structures)
    requires pos < |t| && t[pos] == 0 && At(t, pos + 1, Encode(structures))
    ensures ParseFrom(t, pos) != structures
  {
    var s := structures[0];
    AtByte(t, pos + 1, Encode(structures), 0);
    assert t[pos + 1] == s.data[0] == s.kind;
    if HeaderAt(t, pos) {
      assert ParseFrom(t, pos)[0].kind == 0;
    }
  }

  lemma {:induction false} RoundTripAt(t: seq<Byte>, pos: nat, structures: seq<Structure>)
    requires AllWellFormed(structures)
    requires At(t, pos, Encode(structures)) && pos + |Encode(structures)| == |t|
    ensures ParseFrom(t, pos) == structures <==> forall i | 0 <= i < |structures| - 1 :: LeadsOn(structures[i])
    decreases |structures|
  {
    if structures != [] {
      var s, more := structures[0], structures[1..];
      assert structures == [s] + more;
      AtSplit(t, pos, EncodeStructure(s), Encode(more));
      var next := pos + |EncodeStructure(s)|;
      RoundTripAt(t, next, more);
      RoundTripHead(t, pos, s, structures, next);
      AllButLast(s, more);
    }
  }

  lemma RoundTripHead(t: seq<Byte>, pos: nat, s: Structure, all: seq<Structure>, next: nat)
    requires AllWellFormed(all) && all != [] && all[0] == s
    requires At(t, pos, EncodeStructure(s)) && next == pos + |EncodeStructure(s)|
    requires At(t, next, Encode(all[1..])) && next + |Encode(all[1..])| == |t|
    ensures ParseFrom(t, pos) == all <==> all[1..] == [] || (LeadsOn(s) && ParseFrom(t, next) == all[1..])
  {
    StructureReadsBack(t, pos, s);
    if s.strings == [] {
      EmptySetByte(t, pos, s);
      Leftover(t, After(t, pos), all[1..]);
    }
    HeadMatches(t, pos, all, next);
  }

  lemma EmptySetByte(t: seq<Byte>, pos: nat, s: Structure)
    requires s.strings == [] && At(t, pos, EncodeStructure(s))
    ensures var last := pos + |EncodeStructure(s)| - 1; pos <= last < |t| && t[last] == 0
  {
    var bytes := EncodeStructure(s);
    assert bytes == s.data + [0, 0];
    AtByte(t, pos, bytes, |bytes| - 1);
  }

  /** From the leftover NUL of an empty set only the empty table reads back. */
  lemma Leftover(t: seq<Byte>, pos: nat, more: seq<Structure>)
    requires AllWellFormed(more)
    requires pos < |t| && t[pos] == 0 && At(t, pos + 1, Encode(more)) && pos + 1 + |Encode(more)| == |t|
    ensures ParseFrom(t, pos) == more <==> more == []
  {
    if more != [] {
      MisalignedNeverMatches(t, pos, more);
    } else {
      ParseStops(t, pos);
    }
  }

  lemma HeadMatches(t: seq<Byte>, pos: nat, all: seq<Structure>, next: nat)
    requires all != [] && HeaderAt(t, pos) && t[pos] == all[0].kind && StructureAt(t, pos) == all[0]
    requires next <= |t| && After(t, pos) == next - if all[0].strings == [] then 1 else 0
    requires all[0].strings == [] ==> (ParseFrom(t, next - 1) == all[1..] <==> all[1..] == [])
    requires all[1..] == [] ==> next == |t|
    ensures ParseFrom(t, pos) == all <==> all[1..] == [] || (LeadsOn(all[0]) && ParseFrom(t, next) == all[1..])
  {
    ParseStep(t, pos);
    SameHead(all, if t[pos] == END_OF_TABLE then [] else ParseFrom(t, After(t, pos)));
    if all[1..] == [] {
      ParseStops(t, next);
    }
  }

  lemma SameHead(all: seq<Structure>, tail: seq<Structure>)
    requires all != []
    ensures [all[0]] + tail == all <==> tail == all[1..]
  {
    assert ([all[0]] + tail)[1..] == tail;
  }

  lemma AllButLast(s: Structure, more: seq<Structure>)
    ensures (forall i | 0 <= i < |[s] + more| - 1 :: LeadsOn(([s] + more)[i])) <==>
            (more == [] || (LeadsOn(s) && forall i | 0 <= i < |more| - 1 :: LeadsOn(more[i])))
  {
    var all := [s] + more;
    if more != [] && forall i | 0 <= i < |all| - 1 :: LeadsOn(all[i]) {
      assert LeadsOn(all[0]);
      forall i | 0 <= i < |more| - 1 ensures LeadsOn(more[i]) {
        assert LeadsOn(all[i + 1]);
      }
    }
  }

  /** The round-trip theorem, with its exact condition: a table of well-formed structures parses back
      to itself if and only if every structure but the last has a string and is not the end-of-table
      marker. */
  lemma RoundTripIff(structures: seq<Structure>)
    requires AllWellFormed(structures)
    ensures Parse(Encode(structures)) == structures <==> forall i | 0 <= i < |structures| - 1 :: LeadsOn(structures[i])
  {
    var t := Encode(structures);
    WholeAt(t);
    RoundTripAt(t, 0, structures);
  }

  // ----- prefix stability on arbitrary bytes

  lemma {:induction false} NextNulPrefix(t: seq<Byte>, n: nat, from: nat)
    requires from <= n <= |t|
    ensures NextNul(t[..n], from) == if NextNul(t, from) < n then NextNul(t, from) else n
    decreases n - from
  {
    if from < n && t[from] != 0 {
      NextNulPrefix(t, n, from + 1);
    }
  }

  /** What a table cut at `n` reads is a part of the set, and all of it unless the cut is reached. */
  ghost predicate PartOf(a: StringSet, b: StringSet, n: nat) {
    a.strings <= b.strings && (a.next < n ==> a == b)
  }

  /** Given that the strings behind the first do so. */
  lemma FirstStringPrefix(cut: seq<Byte>, t: seq<Byte>, from: nat, e: nat)
    requires from <= e < |cut| <= |t| && NextNul(cut, from) == NextNul(t, from) == e
    requires cut[from..e] == t[from..e]
    requires e + 1 < |cut| ==> cut[e + 1] == t[e + 1]
    requires e + 1 < |cut| ==> PartOf(ReadStrings(cut, e + 1), ReadStrings(t, e + 1), |cut|)
    ensures PartOf(ReadStrings(cut, from), ReadStrings(t, from), |cut|)
  {
    ReadStep(cut, from);
    ReadStep(t, from);
  }

  lemma {:induction false} StringsPrefix(t: seq<Byte>, n: nat, from: nat)
    requires from <= n <= |t|
    ensures PartOf(ReadStrings(t[..n], from), ReadStrings(t, from), n)
    decreases n - from
  {
    NextNulPrefix(t, n, from);
    var e := NextNul(t, from);
    if e < n {
      if e + 1 < n {
        StringsPrefix(t, n, e + 1);
      }
      assert t[..n][from..e] == t[from..e];
      FirstStringPrefix(t[..n], t, from, e);
    } else {
      ReadStep(t[..n], from);
    }
  }

  /** `a` is what a truncated table can show of `b`: whole structures, and a last one that may have
      lost strings from its end. */
  ghost predicate TruncationOf(a: seq<Structure>, b: seq<Structure>) {
    && |a| <= |b|
    && (forall i | 0 <= i < |a| - 1 :: a[i] == b[i])
    && (a != [] ==>
          var x, y := a[|a| - 1], b[|a| - 1];
          x.kind == y.kind && x.data == y.data && x.strings <= y.strings)
  }

  lemma TruncationCons(s: Structure, a: seq<Structure>, b: seq<Structure>)
    requires TruncationOf(a, b)
    ensures TruncationOf([s] + a, [s] + b)
  {
    if a != [] {
      assert ([s] + a)[|a|] == a[|a| - 1] && ([s] + b)[|a|] == b[|a| - 1];
    }
  }

  lemma {:induction false} PrefixStabilityFrom(t: seq<Byte>, n: nat, pos: nat)
    requires pos <= n <= |t|
    ensures TruncationOf(ParseFrom(t[..n], pos), ParseFrom(t, pos))
    decreases n - pos
  {
    var cut := t[..n];
    if HeaderAt(cut, pos) {
      StructurePrefix(t, n, pos);
      ParseStep(cut, pos);
      ParseStep(t, pos);
      var x, y := StructureAt(cut, pos), StructureAt(t, pos);
      if t[pos] != END_OF_TABLE && After(cut, pos) < n {
        var next := After(t, pos);
        PrefixStabilityFrom(t, n, next);
        TruncationCons(y, ParseFrom(cut, next), ParseFrom(t, next));
      } else {
        TruncationLast(x, ParseFrom(cut, pos), ParseFrom(t, pos));
      }
    }
  }

  lemma StructurePrefix(t: seq<Byte>, n: nat, pos: nat)
    requires n <= |t| && HeaderAt(t[..n], pos)
    ensures HeaderAt(t, pos) && t[..n][pos] == t[pos]
    ensures var x, y := StructureAt(t[..n], pos), StructureAt(t, pos);
            x.kind == y.kind && x.data == y.data && x.strings <= y.strings
    ensures After(t[..n], pos) < n ==>
              After(t[..n], pos) == After(t, pos) && StructureAt(t[..n], pos) == StructureAt(t, pos)
  {
    var end := pos + t[pos + 1];
    assert t[..n][pos..end] == t[pos..end];
    StringsPrefix(t, n, end);
  }

  lemma TruncationLast(x: Structure, a: seq<Structure>, b: seq<Structure>)
    requires a == [x] && b != [] && x.kind == b[0].kind && x.data == b[0].data && x.strings <= b[0].strings
    ensures TruncationOf(a, b)
  {
  }

  /** Parsing any prefix of any table yields a truncation of the full parse. */
  lemma PrefixStability(table: seq<Byte>, n: nat)
    requires n <= |table|
    ensures TruncationOf(Parse(table[..n]), Parse(table))
  {
    PrefixStabilityFrom(table, n, 0);
  }
}
