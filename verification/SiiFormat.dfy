/** The slave information interface (EEPROM) image of ETG.2010: the values it holds and,
    as pure functions, how an image is cut into categories, decoded and encoded.
    The imperative reader and writer are in module `SiiImage`. */
module SiiFormat {
  import opened Bytes
  import InfoCrc

  // ---- Values ---------------------------------------------------------------

  const INFO_SIZE: nat := 128      // sizeof(InfoEntry), also START_CATEGORY * 2
  const CRC_OFFSET: nat := 14      // offsetof(InfoEntry, crc)
  const GENERAL_SIZE: nat := 32    // sizeof(GeneralEntry)
  const RECORD_SIZE: nat := 8      // sizeof(SyncManagerEntry) == sizeof(PDOEntry)
  const PDO_HEADER_SIZE: nat := 8

  const STRINGS: u16 := 10
  const DATA_TYPES: u16 := 20
  const GENERAL: u16 := 30
  const FMMU: u16 := 40
  const SYNC_M: u16 := 41
  const TX_PDO: u16 := 50
  const RX_PDO: u16 := 51
  const DC: u16 := 60
  const END: u16 := 0xFFFF

  predicate Known(kind: u16) {
    kind == STRINGS || kind == DATA_TYPES || kind == GENERAL || kind == FMMU || kind == SYNC_M
    || kind == TX_PDO || kind == RX_PDO || kind == DC
  }

  type Text = seq<byte>

  datatype SyncManagerEntry = SyncManagerEntry(
    startAddress: u16, length: u16, control: byte, status: byte, enable: byte, usage: byte)

  datatype PdoEntry = PdoEntry(
    index: u16, subindex: byte, name: byte, dataType: byte, bitlen: byte, flags: u16)

  datatype PdoMapping = PdoMapping(
    index: u16, syncManager: byte, synchronization: byte, nameIndex: byte, flags: u16,
    entries: seq<PdoEntry>)

  datatype Category = Category(kind: u16, data: seq<byte>)

  datatype Sii = Sii(
    info: seq<byte>,
    strings: seq<Text>,
    general: seq<byte>,
    fmmus: seq<byte>,
    syncManagers: seq<SyncManagerEntry>,
    txPdo: seq<PdoMapping>,
    rxPdo: seq<PdoMapping>,
    dc: seq<byte>,
    dataTypes: seq<byte>,
    unknown: seq<Category>)

  // ---- Records --------------------------------------------------------------

  function EncodeSyncManager(e: SyncManagerEntry): (r: seq<byte>)
    ensures |r| == RECORD_SIZE
  {
    Le16(e.startAddress) + Le16(e.length) + [e.control, e.status, e.enable, e.usage]
  }

  function DecodeSyncManager(p: seq<byte>): SyncManagerEntry
    requires |p| >= RECORD_SIZE
  {
    SyncManagerEntry(Word(p, 0), Word(p, 2), p[4], p[5], p[6], p[7])
  }

  function EncodePdoEntry(e: PdoEntry): (r: seq<byte>)
    ensures |r| == RECORD_SIZE
  {
    Le16(e.index) + [e.subindex, e.name, e.dataType, e.bitlen] + Le16(e.flags)
  }

  function DecodePdoEntry(p: seq<byte>): PdoEntry
    requires |p| >= RECORD_SIZE
  {
    PdoEntry(Word(p, 0), p[2], p[3], p[4], p[5], Word(p, 6))
  }

  // ---- Category payloads, decoding ------------------------------------------

  /** The length-prefixed strings at the front of `p`, at most `count` of them; decoding
      stops at the first one that would run past the payload. */
  function DecodeStrings(p: seq<byte>, count: nat): seq<Text>
    decreases count
  {
    if count == 0 || p == [] || p[0] > |p| - 1 then []
    else [p[1..1 + p[0]]] + DecodeStrings(p[1 + p[0]..], count - 1)
  }

  /** What a Strings category appends: the reserved empty string, then its strings. */
  function DecodeStringTable(p: seq<byte>): seq<Text> {
    [[]] + (if p == [] then [] else DecodeStrings(p[1..], p[0]))
  }

  function DecodeSyncManagers(p: seq<byte>): seq<SyncManagerEntry>
    decreases |p|
  {
    if |p| < RECORD_SIZE then []
    else [DecodeSyncManager(p)] + DecodeSyncManagers(p[RECORD_SIZE..])
  }

  /** The entries at the front of `p`, at most `count`, as many as are complete. */
  function DecodeEntries(p: seq<byte>, count: nat): (r: seq<PdoEntry>)
    ensures |r| <= count && |r| * 8 <= |p|
    decreases count
  {
    if count == 0 || |p| < RECORD_SIZE then []
    else [DecodePdoEntry(p)] + DecodeEntries(p[RECORD_SIZE..], count - 1)
  }

  function DecodeMapping(p: seq<byte>): PdoMapping
    requires |p| >= PDO_HEADER_SIZE
  {
    PdoMapping(Word(p, 0), p[3], p[4], p[5], Word(p, 6), DecodeEntries(p[PDO_HEADER_SIZE..], p[2]))
  }

  /** What is left to read after the block at the front of `p`: nothing when the block
      holds fewer entries than it announces. */
  function AfterBlock(p: seq<byte>): (r: seq<byte>)
    requires |p| >= PDO_HEADER_SIZE
    ensures |r| < |p|
  {
    var n := |DecodeMapping(p).entries|;
    if n < p[2] then [] else p[8 + n * 8..]
  }

  /** The PDO blocks of a category, back to back; a block cut short is kept with the
      entries it has and ends the category. */
  function DecodeMappings(p: seq<byte>): seq<PdoMapping>
    decreases |p|
  {
    if |p| < PDO_HEADER_SIZE then [] else [DecodeMapping(p)] + DecodeMappings(AfterBlock(p))
  }

  /** A payload shorter than the general record leaves the missing fields zero. */
  function DecodeGeneral(p: seq<byte>): (r: seq<byte>)
    ensures |r| == GENERAL_SIZE
  {
    if |p| >= GENERAL_SIZE then p[..GENERAL_SIZE] else p + Zeros(GENERAL_SIZE - |p|)
  }

  /** The effect of one category on the value read so far. */
  function Apply(s: Sii, c: Category): Sii {
    if c.kind == STRINGS then s.(strings := s.strings + DecodeStringTable(c.data))
    else if c.kind == DATA_TYPES then s.(dataTypes := c.data)
    else if c.kind == GENERAL then s.(general := DecodeGeneral(c.data))
    else if c.kind == FMMU then s.(fmmus := s.fmmus + c.data)
    else if c.kind == SYNC_M then s.(syncManagers := s.syncManagers + DecodeSyncManagers(c.data))
    else if c.kind == TX_PDO then s.(txPdo := s.txPdo + DecodeMappings(c.data))
    else if c.kind == RX_PDO then s.(rxPdo := s.rxPdo + DecodeMappings(c.data))
    else if c.kind == DC then s.(dc := c.data)
    else s.(unknown := s.unknown + [c])
  }

  function ApplyAll(s: Sii, cs: seq<Category>): (r: Sii)
    ensures r.info == s.info
    decreases |cs|
  {
    if cs == [] then s else ApplyAll(Apply(s, cs[0]), cs[1..])
  }

  // ---- Framing --------------------------------------------------------------

  /** The payload size a header declares: words times two, in sixteen bits. */
  function DeclaredSize(words: u16): nat { 2 * words % 0x1_0000 }

  /** The categories of an image, `p` being what follows the info area. Reading stops at
      the end marker, at a category that claims more than is left, and four bytes before
      the end of the image. */
  function Split(p: seq<byte>): (cs: seq<Category>)
    ensures forall i :: 0 <= i < |cs| ==> cs[i].kind != END
    decreases |p|
  {
    if |p| <= 4 then []
    else
      var size := DeclaredSize(Word(p, 2));
      if size > |p| - 4 || Word(p, 0) == END then []
      else [Category(Word(p, 0), p[4..4 + size])] + Split(p[4 + size..])
  }

  /** The value with nothing but its info area. */
  function Blank(info: seq<byte>): Sii {
    Sii(info, [], Zeros(GENERAL_SIZE), [], [], [], [], [], [], [])
  }

  /** The value an image denotes. */
  function ParseImage(image: seq<byte>): (s: Sii)
    requires |image| >= INFO_SIZE
    ensures s.info == image[..INFO_SIZE]
  {
    ApplyAll(Blank(image[..INFO_SIZE]), Split(image[INFO_SIZE..]))
  }

  // ---- Encoding -------------------------------------------------------------

  /** `appendCategory`: the size is declared in words, truncated to sixteen bits. */
  function Frame(c: Category): seq<byte> {
    Le16(c.kind) + Le16(|c.data| / 2 % 0x1_0000) + c.data
  }

  function FrameAll(cs: seq<Category>): seq<byte>
    decreases |cs|
  {
    if cs == [] then [] else Frame(cs[0]) + FrameAll(cs[1..])
  }

  function Cut(t: Text): (r: Text)
    ensures |r| <= 0xFF && r <= t
  {
    if |t| > 0xFF then t[..0xFF] else t
  }

  function PadEven(p: seq<byte>): (r: seq<byte>)
    ensures |r| % 2 == 0 && p <= r && |r| <= |p| + 1
  {
    if |p| % 2 == 0 then p else p + [0]
  }

  function EncodeStrings(ts: seq<Text>): seq<byte>
    decreases |ts|
  {
    if ts == [] then [] else [|Cut(ts[0])|] + Cut(ts[0]) + EncodeStrings(ts[1..])
  }

  /** The payload of the Strings category of a table whose index 0 is reserved. */
  function EncodeStringTable(strings: seq<Text>): seq<byte>
    requires |strings| > 0
  {
    PadEven([(|strings| - 1) % 0x100] + EncodeStrings(strings[1..]))
  }

  function EncodeSyncManagers(es: seq<SyncManagerEntry>): (r: seq<byte>)
    ensures |r| == |es| * 8
    decreases |es|
  {
    if es == [] then [] else EncodeSyncManager(es[0]) + EncodeSyncManagers(es[1..])
  }

  function EncodeEntries(es: seq<PdoEntry>): (r: seq<byte>)
    ensures |r| == |es| * 8
    decreases |es|
  {
    if es == [] then [] else EncodePdoEntry(es[0]) + EncodeEntries(es[1..])
  }

  function EncodeMapping(m: PdoMapping): (r: seq<byte>)
    ensures |r| == 8 + |m.entries| * 8
  {
    Le16(m.index) + [|m.entries| % 0x100, m.syncManager, m.synchronization, m.nameIndex]
    + Le16(m.flags) + EncodeEntries(m.entries)
  }

  function PdoCategories(kind: u16, ms: seq<PdoMapping>): (r: seq<Category>)
    ensures |r| == |ms| && forall i :: 0 <= i < |r| ==> r[i] == Category(kind, EncodeMapping(ms[i]))
  {
    seq(|ms|, i requires 0 <= i < |ms| => Category(kind, EncodeMapping(ms[i])))
  }

  // One list per group of categories, empty when the writer skips it.

  function StringCategory(s: Sii): seq<Category> {
    if |s.strings| > 1 then [Category(STRINGS, EncodeStringTable(s.strings))] else []
  }

  function DataTypeCategory(s: Sii): seq<Category> {
    if s.dataTypes != [] then [Category(DATA_TYPES, s.dataTypes)] else []
  }

  function GeneralCategory(s: Sii): seq<Category> { [Category(GENERAL, s.general)] }

  function FmmuCategory(s: Sii): seq<Category> {
    if s.fmmus != [] then [Category(FMMU, PadEven(s.fmmus))] else []
  }

  function SyncManagerCategory(s: Sii): seq<Category> {
    if s.syncManagers != [] then [Category(SYNC_M, EncodeSyncManagers(s.syncManagers))] else []
  }

  function DcCategory(s: Sii): seq<Category> {
    if s.dc != [] then [Category(DC, s.dc)] else []
  }

  /** The categories the writer emits, in order. */
  function Categories(s: Sii): seq<Category> {
    StringCategory(s) + DataTypeCategory(s) + GeneralCategory(s) + FmmuCategory(s)
    + SyncManagerCategory(s) + PdoCategories(TX_PDO, s.txPdo) + PdoCategories(RX_PDO, s.rxPdo)
    + DcCategory(s) + s.unknown
  }

  /** The info area with its checksum word set. */
  function SealInfo(info: seq<byte>): (r: seq<byte>)
    requires |info| == INFO_SIZE
    ensures |r| == INFO_SIZE
  {
    info[..CRC_OFFSET] + Le16(InfoCrc.InfoChecksum(info)) + info[CRC_OFFSET + 2..]
  }

  const END_MARKER: seq<byte> := Le16(END) + Le16(0)

  function SerializeImage(s: Sii): seq<byte>
    requires |s.info| == INFO_SIZE
  {
    SealInfo(s.info) + FrameAll(Categories(s)) + END_MARKER
  }

  // ---- Which values survive -------------------------------------------------

  /** A payload the sixteen-bit word count can declare exactly. */
  predicate Declarable(p: seq<byte>) { |p| % 2 == 0 && |p| < 0x1_0000 }

  ghost predicate WellFormed(s: Sii) {
    && |s.info| == INFO_SIZE
    && |s.general| == GENERAL_SIZE
    && |s.strings| <= 0x100
    && |s.fmmus| < 0xFFFF
    && |s.syncManagers| * 8 < 0x1_0000
    && (forall i :: 0 <= i < |s.txPdo| ==> |s.txPdo[i].entries| <= 0xFF)
    && (forall i :: 0 <= i < |s.rxPdo| ==> |s.rxPdo[i].entries| <= 0xFF)
    && Declarable(s.dc)
    && Declarable(s.dataTypes)
    && forall i :: 0 <= i < |s.unknown| ==>
         Declarable(s.unknown[i].data) && s.unknown[i].kind != END && !Known(s.unknown[i].kind)
  }

  function CutAll(ts: seq<Text>): (r: seq<Text>)
    ensures |r| == |ts| && forall i :: 0 <= i < |r| ==> r[i] == Cut(ts[i])
  {
    seq(|ts|, i requires 0 <= i < |ts| => Cut(ts[i]))
  }

  /** What writing keeps of a value: an index-0-only string table disappears, index 0 is
      empty, strings are cut to 255 bytes, the FMMU list is padded to whole words and the
      checksum is recomputed. */
  function Normalise(s: Sii): Sii
    requires |s.info| == INFO_SIZE
  {
    s.(info := SealInfo(s.info),
       strings := if |s.strings| <= 1 then [] else [[]] + CutAll(s.strings[1..]),
       fmmus := PadEven(s.fmmus))
  }
}
