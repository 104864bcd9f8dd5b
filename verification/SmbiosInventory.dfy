/** The inventory read out of the structures: BIOS, board and memory modules. */
module SmbiosInventory {
  import opened Options
  import opened Smbios

  const TYPE_BIOS: Byte := 0
  const TYPE_BASEBOARD: Byte := 2
  const TYPE_MEMORY_DEVICE: Byte := 17

  /** Text is kept as bytes; the lossy UTF-8 decoding is not part of this model. */
  type Text = seq<Byte>

  datatype DimmInfo = DimmInfo(
    manufacturer: Option<Text>, partNumber: Option<Text>, sizeBytes: Option<nat>, speedMts: Option<nat>)

  datatype SmbiosInfo = SmbiosInfo(
    biosVendor: Option<Text>, biosVersion: Option<Text>, biosReleaseDate: Option<Text>,
    boardVendor: Option<Text>, boardProduct: Option<Text>, dimms: seq<DimmInfo>)

  const NoInfo := SmbiosInfo(None, None, None, None, None, [])

  /** String numbers are 1-based; 0 means no string. */
  function StringField(s: Structure, offset: nat): Option<Text> {
    if offset >= |s.data| || s.data[offset] == 0 || s.data[offset] > |s.strings| then None
    else Some(s.strings[s.data[offset] - 1])
  }

  function ByteAt(s: Structure, offset: nat): int
    requires offset < |s.data|
  {
    s.data[offset]
  }

  /** Little-endian. */
  function U16Field(s: Structure, offset: nat): Option<nat> {
    if offset + 2 > |s.data| then None else Some(ByteAt(s, offset) + 0x100 * ByteAt(s, offset + 1))
  }

  function U32Field(s: Structure, offset: nat): Option<nat> {
    if offset + 4 > |s.data| then None
    else Some(ByteAt(s, offset) + 0x100 * ByteAt(s, offset + 1)
              + 0x1_0000 * ByteAt(s, offset + 2) + 0x100_0000 * ByteAt(s, offset + 3))
  }

  function DimmSizeBytes(s: Structure): Option<nat> {
    match U16Field(s, 0x0C)
    case None => None
    case Some(size16) =>
      if size16 == 0 then None
      else if size16 == 0x7FFF then
        match U32Field(s, 0x1C)
        case None => None
        case Some(mib) => Some(mib * 1024 * 1024)
      else Some(size16 % 0x8000 * 1024 * 1024)
  }

  function DimmSpeedMts(s: Structure): Option<nat> {
    var speed := if U16Field(s, 0x20).Some? then U16Field(s, 0x20) else U16Field(s, 0x15);
    if speed == Some(0) then None else speed
  }

  function DimmOf(s: Structure): DimmInfo {
    DimmInfo(StringField(s, 0x17), StringField(s, 0x1A), DimmSizeBytes(s), DimmSpeedMts(s))
  }

  function Absorb(info: SmbiosInfo, s: Structure): SmbiosInfo {
    if s.kind == TYPE_BIOS then
      info.(biosVendor := StringField(s, 0x04), biosVersion := StringField(s, 0x05),
            biosReleaseDate := StringField(s, 0x08))
    else if s.kind == TYPE_BASEBOARD then
      if info.boardVendor.None? && info.boardProduct.None? then
        info.(boardVendor := StringField(s, 0x04), boardProduct := StringField(s, 0x05))
      else info
    else if s.kind == TYPE_MEMORY_DEVICE && DimmSizeBytes(s).Some? then
      info.(dimms := info.dimms + [DimmOf(s)])
    else info
  }

  function InfoOf(structures: seq<Structure>): SmbiosInfo {
    if structures == [] then NoInfo
    else Absorb(InfoOf(structures[..|structures| - 1]), structures[|structures| - 1])
  }

  method ParseSmbiosTable(table: seq<Byte>) returns (info: SmbiosInfo)
    ensures info == InfoOf(Parse(table))
  {
    var structures := IterateStructures(table);
    info := NoInfo;
    for i := 0 to |structures|
      invariant info == InfoOf(structures[..i])
    {
      var s := structures[i];
      assert structures[..i + 1][..i] == structures[..i];
      if s.kind == TYPE_BIOS {
        info := info.(biosVendor := StringField(s, 0x04), biosVersion := StringField(s, 0x05),
                      biosReleaseDate := StringField(s, 0x08));
      } else if s.kind == TYPE_BASEBOARD {
        if info.boardVendor.None? && info.boardProduct.None? {
          info := info.(boardVendor := StringField(s, 0x04), boardProduct := StringField(s, 0x05));
        }
      } else if s.kind == TYPE_MEMORY_DEVICE {
        var sizeBytes := DimmSizeBytes(s);
        if sizeBytes.Some? {
          var dimm := DimmInfo(StringField(s, 0x17), StringField(s, 0x1A), sizeBytes, DimmSpeedMts(s));
          info := info.(dimms := info.dimms + [dimm]);
        }
      }
    }
    assert structures[..|structures|] == structures;
  }

  /** The BIOS fields are those of the last BIOS structure. */
  lemma {:induction false} BiosIsLast(structures: seq<Structure>, k: nat)
    requires k < |structures| && structures[k].kind == TYPE_BIOS
    requires forall i | k < i < |structures| :: structures[i].kind != TYPE_BIOS
    ensures InfoOf(structures).biosVendor == StringField(structures[k], 0x04)
    ensures InfoOf(structures).biosVersion == StringField(structures[k], 0x05)
    ensures InfoOf(structures).biosReleaseDate == StringField(structures[k], 0x08)
    decreases |structures|
  {
    if k < |structures| - 1 {
      BiosIsLast(structures[..|structures| - 1], k);
    }
  }

  predicate NamesBoard(s: Structure) {
    s.kind == TYPE_BASEBOARD && (StringField(s, 0x04).Some? || StringField(s, 0x05).Some?)
  }

  /** The board fields are those of the first baseboard structure that names anything. */
  lemma {:induction false} BoardIsFirstNamed(structures: seq<Structure>, k: nat)
    requires k <= |structures| && forall i | 0 <= i < k :: !NamesBoard(structures[i])
    requires k < |structures| ==> NamesBoard(structures[k])
    ensures InfoOf(structures).boardVendor == if k < |structures| then StringField(structures[k], 0x04) else None
    ensures InfoOf(structures).boardProduct == if k < |structures| then StringField(structures[k], 0x05) else None
    decreases |structures|
  {
    if structures != [] {
      var n := |structures| - 1;
      BoardIsFirstNamed(structures[..n], if k < n then k else n);
    }
  }

  /** The sizes of the reported modules, in table order. */
  function DimmSizes(dimms: seq<DimmInfo>): seq<Option<nat>> {
    if dimms == [] then [] else DimmSizes(dimms[..|dimms| - 1]) + [dimms[|dimms| - 1].sizeBytes]
  }

  lemma DimmSizesAppend(dimms: seq<DimmInfo>, d: DimmInfo)
    ensures DimmSizes(dimms + [d]) == DimmSizes(dimms) + [d.sizeBytes]
  {
    assert (dimms + [d])[..|dimms|] == dimms;
  }

  lemma {:induction false} DimmSizesPrefix(a: seq<DimmInfo>, b: seq<DimmInfo>)
    requires a <= b
    ensures DimmSizes(a) <= DimmSizes(b)
    decreases |b|
  {
    if |a| < |b| {
      DimmSizesPrefix(a, b[..|b| - 1]);
    } else {
      assert a == b;
    }
  }

  lemma AbsorbSize(info: SmbiosInfo, s: Structure)
    ensures DimmSizes(Absorb(info, s).dimms)
              == DimmSizes(info.dimms)
                 + if s.kind == TYPE_MEMORY_DEVICE && DimmSizeBytes(s).Some? then [DimmSizeBytes(s)] else []
  {
    DimmSizesAppend(info.dimms, DimmOf(s));
  }

  lemma {:induction false} SameDataSameSizes(a: seq<Structure>, b: seq<Structure>)
    requires |a| == |b| && forall i | 0 <= i < |a| :: a[i].kind == b[i].kind && a[i].data == b[i].data
    ensures DimmSizes(InfoOf(a).dimms) == DimmSizes(InfoOf(b).dimms)
    decreases |a|
  {
    if a != [] {
      var n := |a| - 1;
      SameDataSameSizes(a[..n], b[..n]);
      AbsorbSize(InfoOf(a[..n]), a[n]);
      AbsorbSize(InfoOf(b[..n]), b[n]);
      SameDataSameSize(a[n], b[n]);
    }
  }

  lemma SameDataSameSize(x: Structure, y: Structure)
    requires x.data == y.data
    ensures DimmSizeBytes(x) == DimmSizeBytes(y)
  {
  }

  lemma {:induction false} DimmsGrow(structures: seq<Structure>, n: nat)
    requires n <= |structures|
    ensures InfoOf(structures[..n]).dimms <= InfoOf(structures).dimms
    decreases |structures|
  {
    if n < |structures| {
      var m := |structures| - 1;
      DimmsGrow(structures[..m], n);
      assert structures[..m][..n] == structures[..n];
    } else {
      assert structures[..n] == structures;
    }
  }

  /** A truncated table reports a prefix of the modules of the whole table: however it was cut, no
      module is invented and none has a wrong size. */
  lemma TruncatedTableKeepsDimmSizes(table: seq<Byte>, n: nat)
    requires n <= |table|
    ensures DimmSizes(InfoOf(Parse(table[..n])).dimms) <= DimmSizes(InfoOf(Parse(table)).dimms)
  {
    var a, b := Parse(table[..n]), Parse(table);
    PrefixStability(table, n);
    SameDataSameSizes(a, b[..|a|]);
    DimmsGrow(b, |a|);
    DimmSizesPrefix(InfoOf(b[..|a|]).dimms, InfoOf(b).dimms);
  }

  /** How a module of this many MiB is described: Size, and Extended Size when Size is 0x7FFF. */
  predicate Describes(s: Structure, mib: nat) {
    if mib < 0x7FFF then U16Field(s, 0x0C) == Some(mib)
    else U16Field(s, 0x0C) == Some(0x7FFF) && U32Field(s, 0x1C) == Some(mib)
  }

  /** The size of a described module comes out exactly; an empty slot has none. */
  lemma DescribedSizeIsRead(s: Structure, mib: nat)
    requires Describes(s, mib)
    ensures DimmSizeBytes(s) == if mib == 0 then None else Some(mib * 1024 * 1024)
  {
  }

  /** What the Size field stands for in section 7.18 of DSP0134: 0 is an empty socket and 0xFFFF an unknown
      size, 0x7FFF defers to the Extended Size in MiB, and otherwise bit 15 says whether the low fifteen bits
      count KiB or MiB. */
  function SpecSizeBytes(s: Structure): Option<nat> {
    match U16Field(s, 0x0C)
    case None => None
    case Some(size16) =>
      if size16 == 0 || size16 == 0xFFFF then None
      else if size16 == 0x7FFF then
        match U32Field(s, 0x1C)
        case None => None
        case Some(mib) => Some(mib * 1024 * 1024)
      else if size16 >= 0x8000 then Some((size16 - 0x8000) * 1024)
      else Some(size16 * 1024 * 1024)
  }

  /** The code reads what the field stands for exactly when the field is missing, or its marker bit is clear,
      or nothing but its marker bit is set. */
  lemma SizeIsReadIff(s: Structure)
    ensures DimmSizeBytes(s) == SpecSizeBytes(s) <==> U16Field(s, 0x0C).None? || U16Field(s, 0x0C).value <= 0x8000
  {
    if U16Field(s, 0x0C).Some? && U16Field(s, 0x0C).value >= 0x8000 {
      MarkerBitIsMasked(s, U16Field(s, 0x0C).value);
    }
  }

  /** With the marker bit set the code reads 1024 times the size meant, and makes a module of 32767 MiB of an
      unknown size. */
  lemma MarkerBitIsMasked(s: Structure, size16: nat)
    requires U16Field(s, 0x0C) == Some(size16) && size16 >= 0x8000
    ensures size16 < 0xFFFF ==>
              SpecSizeBytes(s).Some? && DimmSizeBytes(s) == Some(1024 * SpecSizeBytes(s).value)
    ensures size16 == 0xFFFF ==> SpecSizeBytes(s).None? && DimmSizeBytes(s) == Some(32767 * 1024 * 1024)
  {
    assert size16 <= 0xFFFF;
    assert size16 % 0x8000 == size16 - 0x8000;
  }
}
