/** Reading an EEPROM image undoes writing it: the round trip of `SII::parse` and
    `SII::serialize`, when it holds, and what it makes of images read from a device. */
module SiiRoundTrip {
  import opened Bytes
  import opened SiiFormat

  // ---- Framing --------------------------------------------------------------

  /** A framed category declares its own payload length exactly when that length is even
      and below 64 KiB: odd payloads lose a byte, longer ones wrap the word count. */
  lemma {:induction false} FrameDeclaresPayload(c: Category, rest: seq<byte>)
    ensures var p := Frame(c) + rest;
            && Word(p, 0) == c.kind
            && (DeclaredSize(Word(p, 2)) == |c.data| <==> Declarable(c.data))
  {
    var p, words := Frame(c) + rest, |c.data| / 2 % 0x1_0000;
    assert p[0..2] == Le16(c.kind) && p[2..4] == Le16(words);
    WordOfLe16(c.kind, p, 0);
    WordOfLe16(words, p, 2);
  }

  lemma {:induction false} SplitFrame(c: Category, rest: seq<byte>)
    requires Declarable(c.data) && c.kind != END && rest != []
    ensures Split(Frame(c) + rest) == [c] + Split(rest)
  {
    var p := Frame(c) + rest;
    FrameDeclaresPayload(c, rest);
    assert p[4..4 + |c.data|] == c.data && p[4 + |c.data|..] == rest;
  }

  ghost predicate Framable(cs: seq<Category>) {
    forall i :: 0 <= i < |cs| ==> Declarable(cs[i].data)
  }

  /** The categories in front of the first end marker. */
  function BeforeEnd(cs: seq<Category>): (r: seq<Category>)
    ensures r <= cs
    ensures |r| < |cs| ==> cs[|r|].kind == END
    ensures forall i :: 0 <= i < |r| ==> r[i].kind != END
    decreases |cs|
  {
    if cs == [] || cs[0].kind == END then [] else [cs[0]] + BeforeEnd(cs[1..])
  }

  /** Cutting an image into categories recovers the framed ones, up to an end marker
      hidden among them. */
  lemma {:induction false} SplitFrames(cs: seq<Category>)
    requires Framable(cs)
    ensures Split(FrameAll(cs) + END_MARKER) == BeforeEnd(cs)
    decreases |cs|
  {
    var p := FrameAll(cs) + END_MARKER;
    if cs != [] {
      var rest := FrameAll(cs[1..]) + END_MARKER;
      assert p == Frame(cs[0]) + rest;
      if cs[0].kind == END {
        FrameDeclaresPayload(cs[0], rest);
      } else {
        SplitFrame(cs[0], rest);
        SplitFrames(cs[1..]);
      }
    }
  }

  // ---- Records and payloads -------------------------------------------------

  lemma {:induction false} SyncManagerBack(e: SyncManagerEntry, rest: seq<byte>)
    ensures DecodeSyncManager(EncodeSyncManager(e) + rest) == e
  {
    var p := EncodeSyncManager(e) + rest;
    assert p[0..2] == Le16(e.startAddress) && p[2..4] == Le16(e.length);
    WordOfLe16(e.startAddress, p, 0);
    WordOfLe16(e.length, p, 2);
  }

  lemma {:induction false} SyncManagersBack(es: seq<SyncManagerEntry>)
    ensures DecodeSyncManagers(EncodeSyncManagers(es)) == es
    decreases |es|
  {
    if es != [] {
      var rest := EncodeSyncManagers(es[1..]);
      SyncManagerBack(es[0], rest);
      assert EncodeSyncManagers(es)[RECORD_SIZE..] == rest;
      SyncManagersBack(es[1..]);
    }
  }

  lemma {:induction false} PdoEntryBack(e: PdoEntry, rest: seq<byte>)
    ensures DecodePdoEntry(EncodePdoEntry(e) + rest) == e
  {
    var p := EncodePdoEntry(e) + rest;
    assert p[0..2] == Le16(e.index) && p[6..8] == Le16(e.flags);
    WordOfLe16(e.index, p, 0);
    WordOfLe16(e.flags, p, 6);
  }

  /** Asking for the first `count` of the encoded entries gives the first `count`. */
  lemma {:induction false} EntriesBack(es: seq<PdoEntry>, count: nat)
    requires count <= |es|
    ensures DecodeEntries(EncodeEntries(es), count) == es[..count]
    decreases count
  {
    if count > 0 {
      var rest := EncodeEntries(es[1..]);
      PdoEntryBack(es[0], rest);
      assert EncodeEntries(es)[RECORD_SIZE..] == rest;
      EntriesBack(es[1..], count - 1);
      assert [es[0]] + es[1..][..count - 1] == es[..count];
    }
  }

  /** The first block read from an encoded mapping: everything but the entries past a
      multiple of 256. */
  lemma {:induction false} MappingBack(m: PdoMapping)
    ensures var n := |m.entries| % 0x100;
            DecodeMapping(EncodeMapping(m)) == m.(entries := m.entries[..n])
    ensures EncodeMapping(m)[2] == |m.entries| % 0x100
  {
    var p := EncodeMapping(m);
    assert p[0..2] == Le16(m.index) && p[6..8] == Le16(m.flags);
    WordOfLe16(m.index, p, 0);
    WordOfLe16(m.flags, p, 6);
    assert p[PDO_HEADER_SIZE..] == EncodeEntries(m.entries);
    EntriesBack(m.entries, |m.entries| % 0x100);
  }

  lemma {:induction false} MappingHeadBack(m: PdoMapping)
    ensures DecodeMappings(EncodeMapping(m)) != []
            && |DecodeMappings(EncodeMapping(m))[0].entries| == |m.entries| % 0x100
  {
    MappingBack(m);
  }

  lemma {:induction false} MappingWhole(m: PdoMapping)
    requires |m.entries| <= 0xFF
    ensures DecodeMapping(EncodeMapping(m)) == m && AfterBlock(EncodeMapping(m)) == []
  {
    MappingBack(m);
    assert m.entries[..|m.entries|] == m.entries;
  }

  lemma {:induction false} MappingFitsBack(m: PdoMapping)
    requires |m.entries| <= 0xFF
    ensures DecodeMappings(EncodeMapping(m)) == [m]
  {
    MappingWhole(m);
    var p := EncodeMapping(m);
    assert |p| >= PDO_HEADER_SIZE;
    assert DecodeMappings(p) == [DecodeMapping(p)] + DecodeMappings(AfterBlock(p));
  }

  /** A mapping comes back alone and whole exactly when its entry count fits a byte. */
  lemma {:induction false} MappingsBack(m: PdoMapping)
    ensures DecodeMappings(EncodeMapping(m)) == [m] <==> |m.entries| <= 0xFF
    ensures DecodeMappings(EncodeMapping(m)) != []
            && |DecodeMappings(EncodeMapping(m))[0].entries| == |m.entries| % 0x100
  {
    MappingHeadBack(m);
    if |m.entries| <= 0xFF { MappingFitsBack(m); }
  }

  lemma {:induction false} FirstString(t: Text, tail: seq<byte>, count: nat)
    requires |t| <= 0xFF && count > 0
    ensures DecodeStrings([|t|] + t + tail, count) == [t] + DecodeStrings(tail, count - 1)
  {
    var p := [|t|] + t + tail;
    assert p[1..1 + |t|] == t && p[1 + |t|..] == tail;
  }

  lemma {:induction false} StringsBack(ts: seq<Text>, count: nat, rest: seq<byte>)
    requires count <= |ts|
    ensures DecodeStrings(EncodeStrings(ts) + rest, count) == CutAll(ts)[..count]
    decreases count
  {
    if count > 0 {
      var t, tail := Cut(ts[0]), EncodeStrings(ts[1..]) + rest;
      assert EncodeStrings(ts) + rest == [|t|] + t + tail;
      FirstString(t, tail, count);
      StringsBack(ts[1..], count - 1, rest);
      assert [t] + CutAll(ts[1..])[..count - 1] == CutAll(ts)[..count];
    }
  }

  lemma {:induction false} StringTableBack(strings: seq<Text>)
    requires |strings| > 1
    ensures DecodeStringTable(EncodeStringTable(strings))
            == [[]] + CutAll(strings[1..])[..(|strings| - 1) % 0x100]
  {
    var ts := strings[1..];
    var n := |ts| % 0x100;
    var body := [n] + EncodeStrings(ts);
    var pad := PadEven(body)[|body|..];
    assert PadEven(body)[1..] == EncodeStrings(ts) + pad;
    StringsBack(ts, n, pad);
  }

  lemma {:induction false} StringsLength(ts: seq<Text>)
    ensures |EncodeStrings(ts)| <= 0x100 * |ts|
    decreases |ts|
  {
    if ts != [] { StringsLength(ts[1..]); }
  }

  // ---- Folding the categories back ------------------------------------------

  lemma {:induction false} ApplyConcat(s: Sii, a: seq<Category>, b: seq<Category>)
    ensures ApplyAll(s, a + b) == ApplyAll(ApplyAll(s, a), b)
    decreases |a|
  {
    if a == [] {
      assert a + b == b;
    } else {
      assert (a + b)[1..] == a[1..] + b;
      ApplyConcat(Apply(s, a[0]), a[1..], b);
    }
  }

  lemma {:induction false} ApplyOne(s: Sii, c: Category)
    ensures ApplyAll(s, [c]) == Apply(s, c)
  {
    assert [c][1..] == [];
  }

  /** The mappings a run of PDO categories decodes to. */
  function MappingsIn(cs: seq<Category>): seq<PdoMapping>
    decreases |cs|
  {
    if cs == [] then [] else DecodeMappings(cs[0].data) + MappingsIn(cs[1..])
  }

  lemma {:induction false} FirstTx(s: Sii, c: Category, rest: seq<PdoMapping>)
    requires c.kind == TX_PDO
    ensures var b := Apply(s, c);
            b.(txPdo := b.txPdo + rest) == s.(txPdo := s.txPdo + (DecodeMappings(c.data) + rest))
  {
    var d := DecodeMappings(c.data);
    assert s.txPdo + d + rest == s.txPdo + (d + rest);
  }

  lemma {:induction false} ApplyTx(s: Sii, cs: seq<Category>)
    requires forall i :: 0 <= i < |cs| ==> cs[i].kind == TX_PDO
    ensures ApplyAll(s, cs) == s.(txPdo := s.txPdo + MappingsIn(cs))
    decreases |cs|
  {
    if cs == [] {
      assert s.txPdo + MappingsIn(cs) == s.txPdo;
    } else {
      ApplyTx(Apply(s, cs[0]), cs[1..]);
      FirstTx(s, cs[0], MappingsIn(cs[1..]));
    }
  }

  lemma {:induction false} FirstRx(s: Sii, c: Category, rest: seq<PdoMapping>)
    requires c.kind == RX_PDO
    ensures var b := Apply(s, c);
            b.(rxPdo := b.rxPdo + rest) == s.(rxPdo := s.rxPdo + (DecodeMappings(c.data) + rest))
  {
    var d := DecodeMappings(c.data);
    assert s.rxPdo + d + rest == s.rxPdo + (d + rest);
  }

  lemma {:induction false} ApplyRx(s: Sii, cs: seq<Category>)
    requires forall i :: 0 <= i < |cs| ==> cs[i].kind == RX_PDO
    ensures ApplyAll(s, cs) == s.(rxPdo := s.rxPdo + MappingsIn(cs))
    decreases |cs|
  {
    if cs == [] {
      assert s.rxPdo + MappingsIn(cs) == s.rxPdo;
    } else {
      ApplyRx(Apply(s, cs[0]), cs[1..]);
      FirstRx(s, cs[0], MappingsIn(cs[1..]));
    }
  }

  ghost predicate EntriesFit(ms: seq<PdoMapping>) {
    forall i :: 0 <= i < |ms| ==> |ms[i].entries| <= 0xFF
  }

  /** A list of mappings comes back exactly when every entry count fits a byte. */
  lemma {:induction false} MappingsInBack(kind: u16, ms: seq<PdoMapping>)
    ensures MappingsIn(PdoCategories(kind, ms)) == ms <==> EntriesFit(ms)
    decreases |ms|
  {
    if ms != [] {
      var cs := PdoCategories(kind, ms);
      var d, rest := DecodeMappings(cs[0].data), MappingsIn(cs[1..]);
      assert cs[1..] == PdoCategories(kind, ms[1..]);
      MappingsBack(ms[0]);
      MappingsInBack(kind, ms[1..]);
      assert MappingsIn(cs) == d + rest;
      if |ms[0].entries| <= 0xFF {
        assert MappingsIn(cs) == [ms[0]] + rest && (d + rest)[1..] == rest;
        assert EntriesFit(ms) <==> EntriesFit(ms[1..]) by { FitsTail(ms); }
      } else {
        assert MappingsIn(cs)[0] == d[0] != ms[0];
      }
    }
  }

  lemma {:induction false} FitsTail(ms: seq<PdoMapping>)
    requires ms != [] && |ms[0].entries| <= 0xFF
    ensures EntriesFit(ms) <==> EntriesFit(ms[1..])
  {
    if EntriesFit(ms[1..]) {
      forall i | 0 <= i < |ms| ensures |ms[i].entries| <= 0xFF {
        if i > 0 { assert ms[i] == ms[1..][i - 1]; }
      }
    }
  }

  ghost predicate Foreign(cs: seq<Category>) {
    forall i :: 0 <= i < |cs| ==> cs[i].kind != END && !Known(cs[i].kind)
  }

  /** Vendor categories are kept, in order; a known one among them is not. */
  lemma {:induction false} ApplyUnknown(s: Sii, cs: seq<Category>)
    ensures var r := ApplyAll(s, cs);
            && |r.unknown| <= |s.unknown| + |cs|
            && (Foreign(cs) ==> r == s.(unknown := s.unknown + cs))
            && ((exists i :: 0 <= i < |cs| && Known(cs[i].kind)) ==> |r.unknown| < |s.unknown| + |cs|)
    decreases |cs|
  {
    if cs == [] {
      assert s.unknown + cs == s.unknown;
    } else {
      ApplyUnknown(Apply(s, cs[0]), cs[1..]);
      if Foreign(cs) {
        assert Foreign(cs[1..]);
        assert s.unknown + [cs[0]] + cs[1..] == s.unknown + cs;
      }
      if i :| 0 <= i < |cs| && Known(cs[i].kind) {
        if i > 0 { assert cs[1..][i - 1] == cs[i]; }
      }
    }
  }

  // ---- The value the written categories fold to -----------------------------

  /** The string table read back: its count is written in one byte. */
  function StringsKept(strings: seq<Text>): seq<Text> {
    if |strings| <= 1 then []
    else [[]] + CutAll(strings[1..])[..(|strings| - 1) % 0x100]
  }

  /** The value the categories of `s`, bar its vendor categories, fold to. */
  function OwnValue(s: Sii): Sii
    requires |s.info| == INFO_SIZE
  {
    Normalise(s).(
      strings := StringsKept(s.strings),
      txPdo := MappingsIn(PdoCategories(TX_PDO, s.txPdo)),
      rxPdo := MappingsIn(PdoCategories(RX_PDO, s.rxPdo)),
      unknown := [])
  }

  lemma {:induction false} Chain(b: Sii, x: seq<Category>, y: seq<Category>, bx: Sii, bxy: Sii)
    requires ApplyAll(b, x) == bx && ApplyAll(bx, y) == bxy
    ensures ApplyAll(b, x + y) == bxy
  {
    ApplyConcat(b, x, y);
  }

  lemma {:induction false} ApplyStrings(s: Sii, b: Sii)
    requires b.strings == []
    ensures ApplyAll(b, StringCategory(s)) == b.(strings := StringsKept(s.strings))
  {
    if |s.strings| > 1 {
      ApplyOne(b, StringCategory(s)[0]);
      StringTableBack(s.strings);
      assert b.strings + StringsKept(s.strings) == StringsKept(s.strings);
    }
  }

  lemma {:induction false} ApplyDataTypes(s: Sii, b: Sii)
    requires b.dataTypes == []
    ensures ApplyAll(b, DataTypeCategory(s)) == b.(dataTypes := s.dataTypes)
  {
    if s.dataTypes != [] { ApplyOne(b, DataTypeCategory(s)[0]); }
  }

  lemma {:induction false} ApplyGeneral(s: Sii, b: Sii)
    requires |s.general| == GENERAL_SIZE
    ensures ApplyAll(b, GeneralCategory(s)) == b.(general := s.general)
  {
    ApplyOne(b, GeneralCategory(s)[0]);
    assert s.general[..GENERAL_SIZE] == s.general;
  }

  lemma {:induction false} ApplyFmmu(s: Sii, b: Sii)
    requires b.fmmus == []
    ensures ApplyAll(b, FmmuCategory(s)) == b.(fmmus := PadEven(s.fmmus))
  {
    if s.fmmus != [] {
      ApplyOne(b, FmmuCategory(s)[0]);
      assert b.fmmus + PadEven(s.fmmus) == PadEven(s.fmmus);
    }
  }

  lemma {:induction false} ApplySyncManagers(s: Sii, b: Sii)
    requires b.syncManagers == []
    ensures ApplyAll(b, SyncManagerCategory(s)) == b.(syncManagers := s.syncManagers)
  {
    if s.syncManagers != [] {
      ApplyOne(b, SyncManagerCategory(s)[0]);
      SyncManagersBack(s.syncManagers);
      assert b.syncManagers + s.syncManagers == s.syncManagers;
    }
  }

  lemma {:induction false} ApplyPdos(s: Sii, b: Sii)
    requires b.txPdo == [] && b.rxPdo == []
    ensures var tx, rx := PdoCategories(TX_PDO, s.txPdo), PdoCategories(RX_PDO, s.rxPdo);
            ApplyAll(b, tx + rx) == b.(txPdo := MappingsIn(tx), rxPdo := MappingsIn(rx))
  {
    var tx, rx := PdoCategories(TX_PDO, s.txPdo), PdoCategories(RX_PDO, s.rxPdo);
    ApplyTx(b, tx);
    Start(MappingsIn(tx));
    var b1 := b.(txPdo := MappingsIn(tx));
    ApplyRx(b1, rx);
    Start(MappingsIn(rx));
    Chain(b, tx, rx, b1, b1.(rxPdo := MappingsIn(rx)));
  }

  lemma {:induction false} Start(ms: seq<PdoMapping>)
    ensures [] + ms == ms
  {}

  lemma {:induction false} ApplyDc(s: Sii, b: Sii)
    requires b.dc == []
    ensures ApplyAll(b, DcCategory(s)) == b.(dc := s.dc)
  {
    if s.dc != [] { ApplyOne(b, DcCategory(s)[0]); }
  }

  /** Everything in front of the vendor categories. */
  function OwnCategories(s: Sii): seq<Category> {
    StringCategory(s) + DataTypeCategory(s) + GeneralCategory(s) + FmmuCategory(s)
    + SyncManagerCategory(s) + (PdoCategories(TX_PDO, s.txPdo) + PdoCategories(RX_PDO, s.rxPdo))
    + DcCategory(s)
  }

  lemma {:induction false} CategoriesSplit(s: Sii)
    ensures Categories(s) == OwnCategories(s) + s.unknown
  {
    var a := StringCategory(s) + DataTypeCategory(s) + GeneralCategory(s) + FmmuCategory(s)
             + SyncManagerCategory(s);
    var tx, rx := PdoCategories(TX_PDO, s.txPdo), PdoCategories(RX_PDO, s.rxPdo);
    assert a + tx + rx == a + (tx + rx);
  }

  lemma {:induction false} FoldOwn(s: Sii)
    requires |s.info| == INFO_SIZE && |s.general| == GENERAL_SIZE
    ensures ApplyAll(Blank(SealInfo(s.info)), OwnCategories(s)) == OwnValue(s)
  {
    var b0 := Blank(SealInfo(s.info));
    var c1 := StringCategory(s);
    var c2 := c1 + DataTypeCategory(s);
    var c3 := c2 + GeneralCategory(s);
    var c4 := c3 + FmmuCategory(s);
    var c5 := c4 + SyncManagerCategory(s);
    var tx, rx := PdoCategories(TX_PDO, s.txPdo), PdoCategories(RX_PDO, s.rxPdo);
    var c6 := c5 + (tx + rx);
    var b1 := b0.(strings := StringsKept(s.strings));
    var b2 := b1.(dataTypes := s.dataTypes);
    var b3 := b2.(general := s.general);
    var b4 := b3.(fmmus := PadEven(s.fmmus));
    var b5 := b4.(syncManagers := s.syncManagers);
    var b6 := b5.(txPdo := MappingsIn(tx), rxPdo := MappingsIn(rx));
    ApplyStrings(s, b0);
    ApplyDataTypes(s, b1);
    Chain(b0, c1, DataTypeCategory(s), b1, b2);
    ApplyGeneral(s, b2);
    Chain(b0, c2, GeneralCategory(s), b2, b3);
    ApplyFmmu(s, b3);
    Chain(b0, c3, FmmuCategory(s), b3, b4);
    ApplySyncManagers(s, b4);
    Chain(b0, c4, SyncManagerCategory(s), b4, b5);
    ApplyPdos(s, b5);
    Chain(b0, c5, tx + rx, b5, b6);
    ApplyDc(s, b6);
    Chain(b0, c6, DcCategory(s), b6, b6.(dc := s.dc));
  }

  // ---- The round trip -------------------------------------------------------

  /** The counts written in one byte fit it, and vendor categories are not mistaken for
      others. */
  ghost predicate CountsFit(s: Sii) {
    |s.strings| <= 0x100 && EntriesFit(s.txPdo) && EntriesFit(s.rxPdo) && Foreign(s.unknown)
  }

  lemma {:induction false} ReadWritten(s: Sii)
    requires |s.info| == INFO_SIZE && Framable(Categories(s))
    ensures ParseImage(SerializeImage(s))
            == ApplyAll(Blank(SealInfo(s.info)), BeforeEnd(Categories(s)))
  {
    var image := SerializeImage(s);
    assert image[..INFO_SIZE] == SealInfo(s.info);
    assert image[INFO_SIZE..] == FrameAll(Categories(s)) + END_MARKER;
    SplitFrames(Categories(s));
  }

  ghost predicate NoEnd(cs: seq<Category>) {
    forall i :: 0 <= i < |cs| ==> cs[i].kind != END
  }

  lemma {:induction false} NoEndConcat(a: seq<Category>, b: seq<Category>)
    requires NoEnd(a) && NoEnd(b)
    ensures NoEnd(a + b)
  {}

  lemma {:induction false} OwnHasNoEnd(s: Sii)
    ensures NoEnd(OwnCategories(s))
  {
    var c2 := StringCategory(s) + DataTypeCategory(s);
    var c3 := c2 + GeneralCategory(s);
    var c4 := c3 + FmmuCategory(s);
    var c5 := c4 + SyncManagerCategory(s);
    var pdos := PdoCategories(TX_PDO, s.txPdo) + PdoCategories(RX_PDO, s.rxPdo);
    NoEndConcat(StringCategory(s), DataTypeCategory(s));
    NoEndConcat(c2, GeneralCategory(s));
    NoEndConcat(c3, FmmuCategory(s));
    NoEndConcat(c4, SyncManagerCategory(s));
    NoEndConcat(PdoCategories(TX_PDO, s.txPdo), PdoCategories(RX_PDO, s.rxPdo));
    NoEndConcat(c5, pdos);
    NoEndConcat(c5 + pdos, DcCategory(s));
  }

  lemma {:induction false} StringsKeptExactly(s: Sii)
    requires |s.info| == INFO_SIZE
    ensures StringsKept(s.strings) == Normalise(s).strings <==> |s.strings| <= 0x100
  {
    if |s.strings| > 1 {
      var all := CutAll(s.strings[1..]);
      assert |StringsKept(s.strings)| == 1 + (|s.strings| - 1) % 0x100;
      if |s.strings| <= 0x100 { assert all[..|all|] == all; }
    }
  }

  /** With vendor categories of their own kind, only the byte counts matter. */
  lemma {:induction false} RoundTripForeign(s: Sii)
    requires |s.info| == INFO_SIZE && |s.general| == GENERAL_SIZE && Framable(Categories(s))
    requires Foreign(s.unknown)
    ensures ParseImage(SerializeImage(s)) == Normalise(s) <==> CountsFit(s)
  {
    ReadWritten(s);
    CategoriesSplit(s);
    OwnHasNoEnd(s);
    var own, all, b := OwnCategories(s), Categories(s), Blank(SealInfo(s.info));
    NoEndConcat(own, s.unknown);
    assert NoEnd(all);
    assert BeforeEnd(all) == all;
    ApplyConcat(b, own, s.unknown);
    FoldOwn(s);
    ApplyUnknown(OwnValue(s), s.unknown);
    assert OwnValue(s).unknown + s.unknown == s.unknown;
    StringsKeptExactly(s);
    MappingsInBack(TX_PDO, s.txPdo);
    MappingsInBack(RX_PDO, s.rxPdo);
  }

  lemma {:induction false} BeforeEndConcat(a: seq<Category>, b: seq<Category>)
    requires NoEnd(a)
    ensures BeforeEnd(a + b) == a + BeforeEnd(b)
    decreases |a|
  {
    if a == [] {
      assert a + b == b;
    } else {
      assert (a + b)[1..] == a[1..] + b;
      BeforeEndConcat(a[1..], b);
    }
  }

  lemma {:induction false} FewerKept(v: Sii, cs: seq<Category>)
    requires v.unknown == [] && !Foreign(cs)
    ensures |ApplyAll(v, BeforeEnd(cs)).unknown| < |cs|
  {
    var kept := BeforeEnd(cs);
    ApplyUnknown(v, kept);
    if |kept| == |cs| {
      var i :| 0 <= i < |cs| && (cs[i].kind == END || Known(cs[i].kind));
      assert kept[i] == cs[i];
    }
  }

  /** A vendor category with a known kind, or the end marker's, is never read back. */
  lemma {:induction false} RoundTripNotForeign(s: Sii)
    requires |s.info| == INFO_SIZE && |s.general| == GENERAL_SIZE && Framable(Categories(s))
    requires !Foreign(s.unknown)
    ensures |ParseImage(SerializeImage(s)).unknown| < |s.unknown|
  {
    ReadWritten(s);
    CategoriesSplit(s);
    OwnHasNoEnd(s);
    var own, b := OwnCategories(s), Blank(SealInfo(s.info));
    BeforeEndConcat(own, s.unknown);
    ApplyConcat(b, own, BeforeEnd(s.unknown));
    FoldOwn(s);
    FewerKept(OwnValue(s), s.unknown);
  }

  /** The round trip with every payload size declarable: reading what was written gives the
      normalised value if and only if the byte counts fit and no vendor category poses as
      another kind. */
  lemma {:induction false} RoundTripFramed(s: Sii)
    requires |s.info| == INFO_SIZE && |s.general| == GENERAL_SIZE && Framable(Categories(s))
    ensures ParseImage(SerializeImage(s)) == Normalise(s) <==> CountsFit(s)
  {
    if Foreign(s.unknown) {
      RoundTripForeign(s);
    } else {
      RoundTripNotForeign(s);
    }
  }

  lemma {:induction false} StringsFramable(s: Sii)
    requires |s.strings| <= 0x100
    ensures Framable(StringCategory(s))
  {
    if |s.strings| > 1 { StringsLength(s.strings[1..]); }
  }

  /** The opaque payloads, handed through as they are. */
  ghost predicate OpaqueFit(s: Sii) { Declarable(s.dc) && Declarable(s.dataTypes) && Framable(s.unknown) }

  /** The three categories that hold a whole list each. */
  function ListCategories(s: Sii): seq<Category> { StringCategory(s) + FmmuCategory(s) + SyncManagerCategory(s) }

  lemma {:induction false} FramableHead(s: Sii)
    requires |s.general| == GENERAL_SIZE && Declarable(s.dataTypes) && Framable(ListCategories(s))
    ensures Framable(StringCategory(s) + DataTypeCategory(s) + GeneralCategory(s) + FmmuCategory(s)
                     + SyncManagerCategory(s))
  {
    var c1, c2, c3 := StringCategory(s), FmmuCategory(s), SyncManagerCategory(s);
    assert Framable(c1) by {
      forall i | 0 <= i < |c1| ensures Declarable(c1[i].data) { assert c1[i] == (c1 + c2 + c3)[i]; }
    }
    assert Framable(c2) by {
      forall i | 0 <= i < |c2| ensures Declarable(c2[i].data) { assert c2[i] == (c1 + c2 + c3)[|c1| + i]; }
    }
    assert Framable(c3) by {
      forall i | 0 <= i < |c3| ensures Declarable(c3[i].data) { assert c3[i] == (c1 + c2 + c3)[|c1| + |c2| + i]; }
    }
    FramableConcat(c1, DataTypeCategory(s));
    FramableConcat(c1 + DataTypeCategory(s), GeneralCategory(s));
    FramableConcat(c1 + DataTypeCategory(s) + GeneralCategory(s), c2);
    FramableConcat(c1 + DataTypeCategory(s) + GeneralCategory(s) + c2, c3);
  }

  lemma {:induction false} FramableConcat(a: seq<Category>, b: seq<Category>)
    requires Framable(a) && Framable(b)
    ensures Framable(a + b)
  {}

  lemma {:induction false} FramablePdos(kind: u16, ms: seq<PdoMapping>)
    requires EntriesFit(ms)
    ensures Framable(PdoCategories(kind, ms))
  {}

  lemma {:induction false} PartsFramable(s: Sii)
    requires |s.general| == GENERAL_SIZE && Framable(ListCategories(s)) && OpaqueFit(s)
    requires EntriesFit(s.txPdo) && EntriesFit(s.rxPdo)
    ensures Framable(Categories(s))
  {
    CategoriesSplit(s);
    FramableHead(s);
    var head := StringCategory(s) + DataTypeCategory(s) + GeneralCategory(s) + FmmuCategory(s)
                + SyncManagerCategory(s);
    var tx, rx := PdoCategories(TX_PDO, s.txPdo), PdoCategories(RX_PDO, s.rxPdo);
    FramablePdos(TX_PDO, s.txPdo);
    FramablePdos(RX_PDO, s.rxPdo);
    FramableConcat(tx, rx);
    FramableConcat(head, tx + rx);
    FramableConcat(head + (tx + rx), DcCategory(s));
    FramableConcat(OwnCategories(s), s.unknown);
  }

  lemma {:induction false} WellFormedIsFramable(s: Sii)
    requires WellFormed(s)
    ensures Framable(Categories(s))
  {
    StringsFramable(s);
    FramableConcat(StringCategory(s), FmmuCategory(s));
    FramableConcat(StringCategory(s) + FmmuCategory(s), SyncManagerCategory(s));
    PartsFramable(s);
  }

  /** Every well-formed value is read back, normalised, from the image written for it. */
  lemma {:induction false} RoundTrip(s: Sii)
    requires WellFormed(s)
    ensures ParseImage(SerializeImage(s)) == Normalise(s)
  {
    WellFormedIsFramable(s);
    RoundTripFramed(s);
  }

  // ---- Writing again --------------------------------------------------------

  lemma {:induction false} SealTwice(info: seq<byte>)
    requires |info| == INFO_SIZE
    ensures SealInfo(SealInfo(info)) == SealInfo(info)
  {
    assert SealInfo(info)[..CRC_OFFSET] == info[..CRC_OFFSET];
  }

  lemma {:induction false} EncodeCut(ts: seq<Text>)
    ensures EncodeStrings(CutAll(ts)) == EncodeStrings(ts)
    decreases |ts|
  {
    if ts != [] {
      EncodeCut(ts[1..]);
      assert CutAll(ts)[1..] == CutAll(ts[1..]);
    }
  }

  lemma {:induction false} NormaliseKeepsCategories(s: Sii)
    requires |s.info| == INFO_SIZE
    ensures Categories(Normalise(s)) == Categories(s)
  {
    var n := Normalise(s);
    if |s.strings| > 1 {
      EncodeCut(s.strings[1..]);
      assert n.strings[1..] == CutAll(s.strings[1..]);
      assert EncodeStringTable(n.strings) == EncodeStringTable(s.strings);
    }
    assert StringCategory(n) == StringCategory(s);
    assert FmmuCategory(n) == FmmuCategory(s);
  }

  /** Writing what was read from a written image gives the same bytes. */
  lemma {:induction false} WriteAgain(s: Sii)
    requires WellFormed(s)
    ensures SerializeImage(ParseImage(SerializeImage(s))) == SerializeImage(s)
  {
    RoundTrip(s);
    NormaliseKeepsCategories(s);
    SealTwice(s.info);
  }
}
