/** The inventory from bytes: tables that name a BIOS, a board and memory modules in their formatted areas give back
    exactly what they name. */
module InventoryTheorems {
  import opened Options
  import opened Smbios
  import opened SmbiosInventory

  ghost predicate NamesOk(names: seq<Text>) {
    |names| <= 255 && forall i | 0 <= i < |names| :: WellFormedString(names[i])
  }

  /** A position in the string set as a string number. */
  function Numbered(i: nat): Byte
    requires i < 255
  {
    i + 1
  }

  function LowByte(n: nat): Byte { n % 0x100 }

  /** Section 7.1: vendor, version and release date are string numbers at 0x04, 0x05 and 0x08. */
  datatype Bios = Bios(names: seq<Text>, vendor: nat, version: nat, date: nat)

  ghost predicate BiosOk(b: Bios) {
    NamesOk(b.names) && b.vendor < |b.names| && b.version < |b.names| && b.date < |b.names|
  }

  function BiosStructure(b: Bios): Structure
    requires b.vendor < 255 && b.version < 255 && b.date < 255
  {
    Structure(0, [0, 9, 0, 0, Numbered(b.vendor), Numbered(b.version), 0, 0, Numbered(b.date)], b.names)
  }

  /** Section 7.3: manufacturer and product are string numbers at 0x04 and 0x05. */
  datatype Board = Board(names: seq<Text>, maker: nat, product: nat)

  ghost predicate BoardOk(b: Board) {
    NamesOk(b.names) && b.maker < |b.names| && b.product < |b.names|
  }

  function BoardStructure(b: Board): Structure
    requires b.maker < 255 && b.product < 255
  {
    Structure(2, [2, 6, 0, 0, Numbered(b.maker), Numbered(b.product)], b.names)
  }

  /** A module as section 7.18 describes it. An older structure ends before the configured speed. */
  datatype Dimm =
    Dimm(names: seq<Text>, maker: nat, part: nat, mib: nat, maxSpeed: nat, configured: Option<nat>)

  ghost predicate DimmOk(d: Dimm) {
    && NamesOk(d.names) && d.maker < |d.names| && d.part < |d.names|
    && 1 <= d.mib < 0x1_0000_0000 && d.maxSpeed < 0x1_0000
    && (d.configured.Some? ==> d.configured.value < 0x1_0000)
  }

  function SizeWord(d: Dimm): nat {
    if d.mib < 0x7FFF then d.mib else 0x7FFF
  }

  /** The byte at an offset of the formatted area. */
  function DimmByte(d: Dimm, offset: nat): Byte
    requires d.maker < 255 && d.part < 255
  {
    if offset == 0x00 then 17
    else if offset == 0x01 then DimmLength(d)
    else if offset == 0x0C then LowByte(SizeWord(d))
    else if offset == 0x0D then LowByte(SizeWord(d) / 0x100)
    else if offset == 0x15 then LowByte(d.maxSpeed)
    else if offset == 0x16 then LowByte(d.maxSpeed / 0x100)
    else if offset == 0x17 then Numbered(d.maker)
    else if offset == 0x1A then Numbered(d.part)
    else if offset == 0x1C then LowByte(d.mib)
    else if offset == 0x1D then LowByte(d.mib / 0x100)
    else if offset == 0x1E then LowByte(d.mib / 0x1_0000)
    else if offset == 0x1F then LowByte(d.mib / 0x100_0000)
    else if offset == 0x20 && d.configured.Some? then LowByte(d.configured.value)
    else if offset == 0x21 && d.configured.Some? then LowByte(d.configured.value / 0x100)
    else 0
  }

  function DimmLength(d: Dimm): (n: Byte)
    ensures n == 0x20 || n == 0x22
  {
    if d.configured.Some? then 0x22 else 0x20
  }

  function DimmStructure(d: Dimm): Structure
    requires d.maker < 255 && d.part < 255
  {
    Structure(17, seq(DimmLength(d), i requires 0 <= i < DimmLength(d) => DimmByte(d, i)), d.names)
  }

  /** Zero stands for an unknown speed. */
  function KnownSpeed(mts: nat): Option<nat> {
    if mts == 0 then None else Some(mts)
  }

  /** What the inventory should say of a module. */
  function DimmExpected(d: Dimm): DimmInfo
    requires d.maker < |d.names| && d.part < |d.names|
  {
    DimmInfo(Some(d.names[d.maker]), Some(d.names[d.part]), Some(d.mib * 1024 * 1024),
             KnownSpeed(if d.configured.Some? then d.configured.value else d.maxSpeed))
  }

  // ----- one structure at a time

  lemma WordReadsBack(n: nat)
    requires n < 0x1_0000
    ensures LowByte(n) + 0x100 * LowByte(n / 0x100) == n
  {
  }

  lemma LongReadsBack(n: nat)
    requires n < 0x1_0000_0000
    ensures LowByte(n) + 0x100 * LowByte(n / 0x100) + 0x1_0000 * LowByte(n / 0x1_0000)
              + 0x100_0000 * LowByte(n / 0x100_0000) == n
  {
    var a, b, c := n / 0x100, n / 0x1_0000, n / 0x100_0000;
    assert n == 0x100 * a + LowByte(n);
    assert a == 0x100 * b + LowByte(a);
    assert b == 0x100 * c + LowByte(b);
  }

  lemma DimmFields(d: Dimm)
    requires DimmOk(d)
    ensures var s := DimmStructure(d);
            && U16Field(s, 0x0C) == Some(SizeWord(d)) && U32Field(s, 0x1C) == Some(d.mib)
            && U16Field(s, 0x15) == Some(d.maxSpeed) && U16Field(s, 0x20) == d.configured
  {
    WordReadsBack(SizeWord(d));
    WordReadsBack(d.maxSpeed);
    LongReadsBack(d.mib);
    if d.configured.Some? {
      WordReadsBack(d.configured.value);
    }
  }

  lemma DimmReadsBack(d: Dimm)
    requires DimmOk(d)
    ensures WellFormed(DimmStructure(d)) && LeadsOn(DimmStructure(d))
    ensures DimmSizeBytes(DimmStructure(d)).Some? && DimmOf(DimmStructure(d)) == DimmExpected(d)
  {
    var s := DimmStructure(d);
    DimmFields(d);
    DescribedSizeIsRead(s, d.mib);
    assert s.data[0] == 17 && s.data[1] == DimmLength(d) == |s.data|;
    assert s.data[0x17] == Numbered(d.maker) && s.data[0x1A] == Numbered(d.part);
  }

  lemma BiosReadsBack(b: Bios)
    requires BiosOk(b)
    ensures WellFormed(BiosStructure(b)) && LeadsOn(BiosStructure(b))
    ensures var s := BiosStructure(b);
            && StringField(s, 0x04) == Some(b.names[b.vendor]) && StringField(s, 0x05) == Some(b.names[b.version])
            && StringField(s, 0x08) == Some(b.names[b.date])
  {
  }

  lemma BoardReadsBack(b: Board)
    requires BoardOk(b)
    ensures WellFormed(BoardStructure(b)) && LeadsOn(BoardStructure(b))
    ensures var s := BoardStructure(b);
            StringField(s, 0x04) == Some(b.names[b.maker]) && StringField(s, 0x05) == Some(b.names[b.product])
  {
  }

  // ----- whole tables

  function DimmStructures(ds: seq<Dimm>): (r: seq<Structure>)
    requires forall i | 0 <= i < |ds| :: ds[i].maker < 255 && ds[i].part < 255
    ensures |r| == |ds| && forall i | 0 <= i < |ds| :: r[i] == DimmStructure(ds[i])
  {
    seq(|ds|, i requires 0 <= i < |ds| => DimmStructure(ds[i]))
  }

  function DimmsExpected(ds: seq<Dimm>): (r: seq<DimmInfo>)
    requires forall i | 0 <= i < |ds| :: ds[i].maker < |ds[i].names| && ds[i].part < |ds[i].names|
    ensures |r| == |ds| && forall i | 0 <= i < |ds| :: r[i] == DimmExpected(ds[i])
  {
    seq(|ds|, i requires 0 <= i < |ds| => DimmExpected(ds[i]))
  }

  ghost predicate AllDimmsOk(ds: seq<Dimm>) {
    forall i | 0 <= i < |ds| :: DimmOk(ds[i])
  }

  lemma InfoAppend(structures: seq<Structure>, s: Structure)
    ensures InfoOf(structures + [s]) == Absorb(InfoOf(structures), s)
  {
    assert (structures + [s])[..|structures|] == structures;
  }

  lemma AbsorbDimm(info: SmbiosInfo, d: Dimm)
    requires DimmOk(d)
    ensures Absorb(info, DimmStructure(d)) == info.(dimms := info.dimms + [DimmExpected(d)])
  {
    DimmReadsBack(d);
  }

  lemma LastDimm(structures: seq<Structure>, before: seq<DimmInfo>, ds: seq<Dimm>)
    requires AllDimmsOk(ds) && ds != []
    ensures var n := |ds| - 1;
            && structures + DimmStructures(ds) == structures + DimmStructures(ds[..n]) + [DimmStructure(ds[n])]
            && before + DimmsExpected(ds) == before + DimmsExpected(ds[..n]) + [DimmExpected(ds[n])]
  {
  }

  lemma {:induction false} DimmsAbsorbed(structures: seq<Structure>, ds: seq<Dimm>)
    requires AllDimmsOk(ds)
    ensures var before := InfoOf(structures);
            InfoOf(structures + DimmStructures(ds)) == before.(dimms := before.dimms + DimmsExpected(ds))
    decreases |ds|
  {
    var before := InfoOf(structures);
    if ds == [] {
      assert structures + DimmStructures(ds) == structures;
      assert before.dimms + DimmsExpected(ds) == before.dimms;
    } else {
      var n := |ds| - 1;
      var shorter := structures + DimmStructures(ds[..n]);
      DimmsAbsorbed(structures, ds[..n]);
      InfoAppend(shorter, DimmStructure(ds[n]));
      AbsorbDimm(InfoOf(shorter), ds[n]);
      LastDimm(structures, before.dimms, ds);
    }
  }

  /** The structures of a machine. */
  function MachineStructures(bios: Bios, board: Board, ds: seq<Dimm>): seq<Structure>
    requires bios.vendor < 255 && bios.version < 255 && bios.date < 255 && board.maker < 255 && board.product < 255
    requires forall i | 0 <= i < |ds| :: ds[i].maker < 255 && ds[i].part < 255
  {
    [BiosStructure(bios)] + [BoardStructure(board)] + DimmStructures(ds)
  }

  lemma MachineParses(bios: Bios, board: Board, ds: seq<Dimm>)
    requires BiosOk(bios) && BoardOk(board) && AllDimmsOk(ds)
    ensures Parse(Encode(MachineStructures(bios, board, ds))) == MachineStructures(bios, board, ds)
  {
    var all := MachineStructures(bios, board, ds);
    BiosReadsBack(bios);
    BoardReadsBack(board);
    forall i | 0 <= i < |all| ensures WellFormed(all[i]) && LeadsOn(all[i]) {
      if i >= 2 {
        DimmReadsBack(ds[i - 2]);
      }
    }
    RoundTripIff(all);
  }

  /** The inventory round trip: the table of a machine, byte for byte, gives back its BIOS, its board and its modules
      in order, each string the one its number names, each size and speed the one its bytes spell. */
  lemma InventoryRoundTrip(bios: Bios, board: Board, ds: seq<Dimm>)
    requires BiosOk(bios) && BoardOk(board) && AllDimmsOk(ds)
    ensures InfoOf(Parse(Encode(MachineStructures(bios, board, ds))))
              == SmbiosInfo(Some(bios.names[bios.vendor]), Some(bios.names[bios.version]), Some(bios.names[bios.date]),
                            Some(board.names[board.maker]), Some(board.names[board.product]), DimmsExpected(ds))
  {
    MachineParses(bios, board, ds);
    BiosReadsBack(bios);
    BoardReadsBack(board);
    InfoAppend([], BiosStructure(bios));
    InfoAppend([BiosStructure(bios)], BoardStructure(board));
    DimmsAbsorbed([BiosStructure(bios)] + [BoardStructure(board)], ds);
    assert [] + [BiosStructure(bios)] == [BiosStructure(bios)];
    assert [] + DimmsExpected(ds) == DimmsExpected(ds);
  }
}
