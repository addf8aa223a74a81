/** The `SII` object of lib/src/SIIParser.cc: its reader and writer as loops over a byte
    cursor, proved against the functions of `SiiFormat`. */
module SiiImage {
  import opened Bytes
  import opened SiiFormat
  import InfoCrc

  class SII {
    var info: seq<byte>
    var strings: seq<Text>
    var general: seq<byte>
    var fmmus: seq<byte>
    var syncManagers: seq<SyncManagerEntry>
    var txPdo: seq<PdoMapping>
    var rxPdo: seq<PdoMapping>
    var dc: seq<byte>
    var dataTypes: seq<byte>
    var unknown: seq<Category>

    ghost function Value(): Sii
      reads this
    {
      Sii(info, strings, general, fmmus, syncManagers, txPdo, rxPdo, dc, dataTypes, unknown)
    }

    constructor ()
      ensures Value() == Blank(Zeros(INFO_SIZE))
    {
      info := Zeros(INFO_SIZE);
      strings := [];
      general := Zeros(GENERAL_SIZE);
      fmmus := [];
      syncManagers := [];
      txPdo := [];
      rxPdo := [];
      dc := [];
      dataTypes := [];
      unknown := [];
    }

    /** The loop of `parseStrings`: at most `count` strings off the front of `p`. */
    static method ReadStrings(p: seq<byte>, count: byte) returns (ts: seq<Text>)
      ensures ts == DecodeStrings(p, count)
    {
      ts := [];
      var rest, i := p, 0;
      while i < count
        invariant 0 <= i <= count
        invariant ts + DecodeStrings(rest, count - i) == DecodeStrings(p, count)
      {
        if rest == [] {
          return;
        }
        var len := rest[0];
        if len > |rest| - 1 {
          return;
        }
        ts := ts + [rest[1..1 + len]];
        rest := rest[1 + len..];
        i := i + 1;
      }
    }

    method ParseStrings(p: seq<byte>)
      modifies this`strings
      ensures strings == old(strings) + DecodeStringTable(p)
    {
      strings := strings + [[]];   // index 0 is an empty string
      if p == [] {
        return;
      }
      var ts := ReadStrings(p[1..], p[0]);
      strings := strings + ts;
    }

    method ParseFmmu(p: seq<byte>)
      modifies this`fmmus
      ensures fmmus == old(fmmus) + p
    {
      for i := 0 to |p|
        invariant fmmus == old(fmmus) + p[..i]
      {
        fmmus := fmmus + [p[i]];
      }
      assert p[..|p|] == p;
    }

    method ParseSyncM(p: seq<byte>)
      modifies this`syncManagers
      ensures syncManagers == old(syncManagers) + DecodeSyncManagers(p)
    {
      var pos := 0;
      assert p[0..] == p;
      while |p| - pos >= RECORD_SIZE
        invariant 0 <= pos <= |p|
        invariant syncManagers + DecodeSyncManagers(p[pos..]) == old(syncManagers) + DecodeSyncManagers(p)
      {
        var entry := DecodeSyncManager(p[pos..]);
        assert p[pos..][RECORD_SIZE..] == p[pos + RECORD_SIZE..];
        assert syncManagers + ([entry] + DecodeSyncManagers(p[pos + RECORD_SIZE..]))
            == syncManagers + [entry] + DecodeSyncManagers(p[pos + RECORD_SIZE..]);
        syncManagers := syncManagers + [entry];
        pos := pos + RECORD_SIZE;
      }
      assert syncManagers + [] == syncManagers;
    }

    /** The entries of one PDO block: stops at the first incomplete one. */
    static method ReadEntries(p: seq<byte>, count: byte) returns (entries: seq<PdoEntry>)
      ensures entries == DecodeEntries(p, count)
    {
      entries := [];
      var pos, i := 0, 0;
      assert p[0..] == p;
      while i < count
        invariant 0 <= i <= count && 0 <= pos <= |p|
        invariant entries + DecodeEntries(p[pos..], count - i) == DecodeEntries(p, count)
      {
        if |p| - pos < RECORD_SIZE {
          break;
        }
        var entry := DecodePdoEntry(p[pos..]);
        assert p[pos..][RECORD_SIZE..] == p[pos + RECORD_SIZE..];
        assert entries + ([entry] + DecodeEntries(p[pos + RECORD_SIZE..], count - i - 1))
            == entries + [entry] + DecodeEntries(p[pos + RECORD_SIZE..], count - i - 1);
        entries := entries + [entry];
        pos := pos + RECORD_SIZE;
        i := i + 1;
      }
      assert entries + [] == entries;
    }

    /** One PDO block; `truncated` when it announces more entries than it holds. */
    static method ReadMapping(p: seq<byte>) returns (mapping: PdoMapping, truncated: bool)
      requires |p| >= PDO_HEADER_SIZE
      ensures mapping == DecodeMapping(p)
      ensures truncated <==> |mapping.entries| < p[2]
    {
      var count := p[2];
      var entries := ReadEntries(p[PDO_HEADER_SIZE..], count);
      mapping := PdoMapping(Word(p, 0), p[3], p[4], p[5], Word(p, 6), entries);
      truncated := |entries| < count;
    }

    /** Appends the PDO blocks of a category to `pdos`. */
    static method ParsePdo(p: seq<byte>, pdos: seq<PdoMapping>) returns (r: seq<PdoMapping>)
      ensures r == pdos + DecodeMappings(p)
    {
      r := pdos;
      var rest := p;
      while |rest| >= PDO_HEADER_SIZE
        invariant r + DecodeMappings(rest) == pdos + DecodeMappings(p)
        decreases |rest|
      {
        var mapping, truncated := ReadMapping(rest);
        r := r + [mapping];
        if truncated {
          return;
        }
        rest := rest[8 + |mapping.entries| * 8..];
      }
      assert r + [] == r;
    }

    /** One turn of the reading loop. */
    method ReadCategory(kind: u16, data: seq<byte>)
      modifies this
      ensures Value() == Apply(old(Value()), Category(kind, data))
    {
      if kind == STRINGS {
        ParseStrings(data);
      } else if kind == DATA_TYPES {
        dataTypes := data;
      } else if kind == GENERAL {
        general := DecodeGeneral(data);
      } else if kind == FMMU {
        ParseFmmu(data);
      } else if kind == SYNC_M {
        ParseSyncM(data);
      } else if kind == TX_PDO {
        txPdo := ParsePdo(data, txPdo);
      } else if kind == RX_PDO {
        rxPdo := ParsePdo(data, rxPdo);
      } else if kind == DC {
        dc := data;
      } else {
        unknown := unknown + [Category(kind, data)];
      }
    }

    /** Takes over the info area and drops every category. */
    method Reset(area: seq<byte>)
      modifies this
      ensures Value() == Blank(area)
    {
      info := area;
      strings, general, fmmus, syncManagers := [], Zeros(GENERAL_SIZE), [], [];
      txPdo, rxPdo, dc, dataTypes, unknown := [], [], [], [], [];
    }

    /** The category loop of `SII::parse`. */
    method ReadCategories(data: seq<byte>)
      requires |data| > INFO_SIZE + 4
      modifies this
      ensures Value() == ApplyAll(old(Value()), Split(data[INFO_SIZE..]))
    {
      var pos := INFO_SIZE;
      ghost var goal := ApplyAll(Value(), Split(data[INFO_SIZE..]));
      while pos < |data| - 4
        invariant INFO_SIZE <= pos <= |data|
        invariant ApplyAll(Value(), Split(data[pos..])) == goal
      {
        var kind, words := Word(data, pos), Word(data, pos + 2);
        var size := DeclaredSize(words);
        SplitAt(data, pos);
        if size > |data| - (pos + 4) {
          return;
        }
        if kind == END {
          return;
        }
        var next := pos + 4 + size;
        ApplyFirst(Value(), Category(kind, data[pos + 4..next]), Split(data[next..]));
        ReadCategory(kind, data[pos + 4..next]);
        pos := next;
      }
    }

    /** `SII::parse`. False stands for the exception on an image smaller than the info
        area, which leaves the object as it was. */
    method Parse(data: seq<byte>) returns (ok: bool)
      modifies this
      ensures ok <==> |data| >= INFO_SIZE
      ensures Value() == if ok then ParseImage(data) else old(Value())
    {
      if |data| < INFO_SIZE {
        return false;
      }
      Reset(data[..INFO_SIZE]);
      if |data| > INFO_SIZE + 4 {
        ReadCategories(data);
      }
      ok := true;
    }

    static method AppendCategory(out: seq<byte>, kind: u16, data: seq<byte>) returns (r: seq<byte>)
      ensures r == out + Frame(Category(kind, data))
    {
      r := out + Le16(kind);
      r := r + Le16(|data| / 2 % 0x1_0000);
      r := r + data;
    }

    /** The payload of the Strings category. */
    method StringPayload() returns (data: seq<byte>)
      requires |strings| > 1
      ensures data == EncodeStringTable(strings)
    {
      data := [(|strings| - 1) % 0x100];
      ghost var all := data + EncodeStrings(strings[1..]);
      for i := 1 to |strings|
        invariant data + EncodeStrings(strings[i..]) == all
      {
        var len := |strings[i]|;
        if len > 0xFF {
          len := 0xFF;
        }
        assert strings[i..][0] == strings[i] && strings[i..][1..] == strings[i + 1..];
        var text := strings[i][..len];
        assert text == Cut(strings[i]);
        assert data + ([len] + text + EncodeStrings(strings[i + 1..]))
            == data + [len] + text + EncodeStrings(strings[i + 1..]);
        data := data + [len];
        data := data + text;
      }
      assert data + [] == data;
      if |data| % 2 != 0 {
        data := data + [0];
      }
    }

    static method PdoPayload(m: PdoMapping) returns (data: seq<byte>)
      ensures data == EncodeMapping(m)
    {
      data := Le16(m.index) + [|m.entries| % 0x100, m.syncManager, m.synchronization, m.nameIndex]
      + Le16(m.flags);
      ghost var all := data + EncodeEntries(m.entries);
      assert m.entries[0..] == m.entries;
      for i := 0 to |m.entries|
        invariant data + EncodeEntries(m.entries[i..]) == all
      {
        assert m.entries[i..][0] == m.entries[i] && m.entries[i..][1..] == m.entries[i + 1..];
        var e := EncodePdoEntry(m.entries[i]);
        assert data + (e + EncodeEntries(m.entries[i + 1..])) == data + e + EncodeEntries(m.entries[i + 1..]);
        data := data + e;
      }
      assert data + [] == data;
    }

    /** One category per mapping. */
    static method AppendPdos(out: seq<byte>, kind: u16, ms: seq<PdoMapping>) returns (r: seq<byte>)
      ensures r == out + FrameAll(PdoCategories(kind, ms))
    {
      r := out;
      ghost var cs := PdoCategories(kind, ms);
      assert cs[0..] == cs;
      for i := 0 to |ms|
        invariant r + FrameAll(cs[i..]) == out + FrameAll(cs)
      {
        var data := PdoPayload(ms[i]);
        assert cs[i..][0] == Category(kind, data) && cs[i..][1..] == cs[i + 1..];
        assert r + (Frame(cs[i]) + FrameAll(cs[i + 1..])) == r + Frame(cs[i]) + FrameAll(cs[i + 1..]);
        r := AppendCategory(r, kind, data);
      }
      assert r + [] == r;
    }

    static method AppendRaw(out: seq<byte>, cs: seq<Category>) returns (r: seq<byte>)
      ensures r == out + FrameAll(cs)
    {
      r := out;
      assert cs[0..] == cs;
      for i := 0 to |cs|
        invariant r + FrameAll(cs[i..]) == out + FrameAll(cs)
      {
        assert cs[i..][0] == cs[i] && cs[i..][1..] == cs[i + 1..];
        assert r + (Frame(cs[i]) + FrameAll(cs[i + 1..])) == r + Frame(cs[i]) + FrameAll(cs[i + 1..]);
        r := AppendCategory(r, cs[i].kind, cs[i].data);
      }
      assert r + [] == r;
    }

    // The groups of categories `SII::serialize` emits, each skipped when it has nothing.

    method WriteStrings(out: seq<byte>) returns (r: seq<byte>)
      ensures r == out + FrameAll(StringCategory(Value()))
    {
      r := out;
      if |strings| > 1 {
        var data := StringPayload();
        r := AppendCategory(r, STRINGS, data);
        FrameOne(Category(STRINGS, data));
      }
    }

    method WriteDataTypes(out: seq<byte>) returns (r: seq<byte>)
      ensures r == out + FrameAll(DataTypeCategory(Value()))
    {
      r := out;
      if dataTypes != [] {
        r := AppendCategory(r, DATA_TYPES, dataTypes);
        FrameOne(Category(DATA_TYPES, dataTypes));
      }
    }

    method WriteGeneral(out: seq<byte>) returns (r: seq<byte>)
      ensures r == out + FrameAll(GeneralCategory(Value()))
    {
      r := AppendCategory(out, GENERAL, general);
      FrameOne(Category(GENERAL, general));
    }

    method WriteFmmus(out: seq<byte>) returns (r: seq<byte>)
      ensures r == out + FrameAll(FmmuCategory(Value()))
    {
      r := out;
      if fmmus != [] {
        var data := fmmus;
        if |data| % 2 != 0 {
          data := data + [0];
        }
        r := AppendCategory(r, FMMU, data);
        FrameOne(Category(FMMU, data));
      }
    }

    method WriteSyncManagers(out: seq<byte>) returns (r: seq<byte>)
      ensures r == out + FrameAll(SyncManagerCategory(Value()))
    {
      r := out;
      if syncManagers != [] {
        var data := EncodeSyncManagers(syncManagers);
        r := AppendCategory(r, SYNC_M, data);
        FrameOne(Category(SYNC_M, data));
      }
    }

    method WriteDc(out: seq<byte>) returns (r: seq<byte>)
      ensures r == out + FrameAll(DcCategory(Value()))
    {
      r := out;
      if dc != [] {
        r := AppendCategory(r, DC, dc);
        FrameOne(Category(DC, dc));
      }
    }

    method WriteHead(out: seq<byte>) returns (r: seq<byte>)
      ensures r == out + FrameAll(StringCategory(Value()) + DataTypeCategory(Value())
                                  + GeneralCategory(Value()) + FmmuCategory(Value()))
    {
      ghost var s := Value();
      r := WriteStrings(out);
      r := WriteDataTypes(r);
      Extend(out, StringCategory(s), DataTypeCategory(s));
      r := WriteGeneral(r);
      Extend(out, StringCategory(s) + DataTypeCategory(s), GeneralCategory(s));
      r := WriteFmmus(r);
      Extend(out, StringCategory(s) + DataTypeCategory(s) + GeneralCategory(s), FmmuCategory(s));
    }

    method WriteTail(out: seq<byte>) returns (r: seq<byte>)
      ensures r == out + FrameAll(SyncManagerCategory(Value()))
                   + FrameAll(PdoCategories(TX_PDO, txPdo)) + FrameAll(PdoCategories(RX_PDO, rxPdo))
                   + FrameAll(DcCategory(Value())) + FrameAll(unknown)
    {
      r := WriteSyncManagers(out);
      r := AppendPdos(r, TX_PDO, txPdo);
      r := AppendPdos(r, RX_PDO, rxPdo);
      r := WriteDc(r);
      r := AppendRaw(r, unknown);
    }

    /** `SII::serialize`. */
    method Serialize() returns (out: seq<byte>)
      requires |info| == INFO_SIZE
      ensures out == SerializeImage(Value())
    {
      var crc := InfoCrc.ComputeInfoCrc(info);
      out := info[..CRC_OFFSET] + Le16(crc) + info[CRC_OFFSET + 2..];
      out := WriteHead(out);
      out := WriteTail(out);
      ghost var body := out;
      out := out + Le16(END);
      out := out + Le16(0);
      assert out == body + END_MARKER;
      Assemble(Value(), SealInfo(info));
    }

    /** `SII::registerString`: pools `text` and returns its one-byte index. */
    method RegisterString(text: Text) returns (index: byte)
      modifies this`strings
      ensures old(strings) == [] ==> strings == [[]] || strings == [[], text]
      ensures old(strings) != [] ==> strings == old(strings) || strings == old(strings) + [text]
      ensures text == [] ==> index == 0 && |strings| == (if old(strings) == [] then 1 else |old(strings)|)
      ensures |old(strings)| <= 0x100 ==> |strings| <= 0x100
      // a non-empty text gets the index it can be looked up by, unless the pool is full of others
      ensures text != [] && |old(strings)| <= 0x100 ==>
                if text in strings[1..] then 0 < index < |strings| && strings[index] == text
                else index == 0 && |strings| == 0x100
      // pooling a text twice does not grow the pool
      ensures old(strings) != [] && text in old(strings)[1..] ==> strings == old(strings)
    {
      if strings == [] {
        strings := [[]];
      }
      if text == [] {
        return 0;
      }
      for i := 1 to |strings|
        invariant text !in strings[1..i]
      {
        if strings[i] == text {
          assert strings[1..][i - 1] == text;
          return i % 0x100;
        }
        assert strings[1..i + 1] == strings[1..i] + [strings[i]];
      }
      assert strings[1..|strings|] == strings[1..];
      if |strings| > 0xFF {
        return 0;
      }
      strings := strings + [text];
      assert strings[1..][|strings| - 2] == text;
      return |strings| - 1;
    }
  }

  /** The cut made at `pos`, in terms of the image the cursor runs over. */
  lemma {:induction false} SplitAt(data: seq<byte>, pos: nat)
    requires pos + 4 < |data|
    ensures var size := DeclaredSize(Word(data, pos + 2));
            Split(data[pos..])
            == if size > |data| - (pos + 4) || Word(data, pos) == END then []
               else [Category(Word(data, pos), data[pos + 4..pos + 4 + size])] + Split(data[pos + 4 + size..])
  {
    var rest, size := data[pos..], DeclaredSize(Word(data, pos + 2));
    assert Word(rest, 0) == Word(data, pos) && Word(rest, 2) == Word(data, pos + 2);
    if size <= |data| - (pos + 4) {
      assert rest[4..4 + size] == data[pos + 4..pos + 4 + size];
      assert rest[4 + size..] == data[pos + 4 + size..];
    }
  }

  lemma {:induction false} ApplyFirst(s: Sii, c: Category, cs: seq<Category>)
    ensures ApplyAll(s, [c] + cs) == ApplyAll(Apply(s, c), cs)
  {
    assert ([c] + cs)[1..] == cs;
  }

  lemma {:induction false} FrameOne(c: Category)
    ensures FrameAll([c]) == Frame(c)
  {
    assert [c][1..] == [];
    assert Frame(c) + [] == Frame(c);
  }

  lemma {:induction false} FrameConcat(a: seq<Category>, b: seq<Category>)
    ensures FrameAll(a + b) == FrameAll(a) + FrameAll(b)
    decreases |a|
  {
    if a == [] {
      assert a + b == b;
    } else {
      assert (a + b)[1..] == a[1..] + b;
      FrameConcat(a[1..], b);
    }
  }

  /** The parts `Serialize` appends make up the whole. */
  lemma {:induction false} Assemble(s: Sii, start: seq<byte>)
    ensures start + FrameAll(StringCategory(s) + DataTypeCategory(s) + GeneralCategory(s) + FmmuCategory(s))
            + FrameAll(SyncManagerCategory(s)) + FrameAll(PdoCategories(TX_PDO, s.txPdo))
            + FrameAll(PdoCategories(RX_PDO, s.rxPdo)) + FrameAll(DcCategory(s)) + FrameAll(s.unknown)
         == start + FrameAll(Categories(s))
  {
    var w4 := StringCategory(s) + DataTypeCategory(s) + GeneralCategory(s) + FmmuCategory(s);
    var w5 := w4 + SyncManagerCategory(s);
    var w6 := w5 + PdoCategories(TX_PDO, s.txPdo);
    var w7 := w6 + PdoCategories(RX_PDO, s.rxPdo);
    var w8 := w7 + DcCategory(s);
    Extend(start, w4, SyncManagerCategory(s));
    Extend(start, w5, PdoCategories(TX_PDO, s.txPdo));
    Extend(start, w6, PdoCategories(RX_PDO, s.rxPdo));
    Extend(start, w7, DcCategory(s));
    Extend(start, w8, s.unknown);
  }

  lemma {:induction false} Extend(start: seq<byte>, written: seq<Category>, more: seq<Category>)
    ensures start + FrameAll(written) + FrameAll(more) == start + FrameAll(written + more)
  {
    FrameConcat(written, more);
  }
}
