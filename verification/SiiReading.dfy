/** What reading guarantees of any image, however damaged: a well-formed value, which a
    further write and read leaves alone. */
module SiiReading {
  import opened Bytes
  import opened SiiFormat
  import opened SiiRoundTrip

  function StringTables(cs: seq<Category>): nat
    decreases |cs|
  {
    if cs == [] then 0 else (if cs[0].kind == STRINGS then 1 else 0) + StringTables(cs[1..])
  }

  function PayloadBytes(cs: seq<Category>): nat
    decreases |cs|
  {
    if cs == [] then 0 else |cs[0].data| + PayloadBytes(cs[1..])
  }

  /** Cutting never invents bytes, and every payload it yields is declarable. */
  lemma {:induction false} SplitBounds(p: seq<byte>)
    ensures PayloadBytes(Split(p)) <= |p| && Framable(Split(p))
    decreases |p|
  {
    var cs := Split(p);
    if cs != [] {
      var size := SplitStep(p);
      hide Split, DeclaredSize, Word;
      SplitBounds(p[4 + size..]);
    }
  }

  lemma {:induction false} SplitStep(p: seq<byte>) returns (size: nat)
    requires Split(p) != []
    ensures 4 + size <= |p| && |p| > 4 && size % 2 == 0 && size < 0x1_0000
    ensures |Split(p)[0].data| == size && Split(p)[1..] == Split(p[4 + size..])
  {
    size := DeclaredSize(Word(p, 2));
    EvenSize(Word(p, 2));
    hide DeclaredSize, Word;
    var rest := Split(p[4 + size..]);
    assert ([Split(p)[0]] + rest)[1..] == rest;
  }

  lemma {:induction false} EvenSize(words: u16)
    ensures DeclaredSize(words) % 2 == 0 && DeclaredSize(words) < 0x1_0000
  {
  }

  lemma {:induction false} StringsBounds(p: seq<byte>, count: nat)
    ensures |DecodeStrings(p, count)| <= count
    ensures forall i :: 0 <= i < |DecodeStrings(p, count)| ==> |DecodeStrings(p, count)[i]| <= 0xFF
    decreases count
  {
    if count > 0 && p != [] && p[0] <= |p| - 1 { StringsBounds(p[1 + p[0]..], count - 1); }
  }

  lemma {:induction false} StringTableBounds(p: seq<byte>)
    ensures var r := DecodeStringTable(p);
            0 < |r| <= 0x100 && r[0] == [] && forall i :: 0 <= i < |r| ==> |r[i]| <= 0xFF
  {
    if p != [] { StringsBounds(p[1..], p[0]); }
  }

  lemma {:induction false} SyncManagersBounds(p: seq<byte>)
    ensures |DecodeSyncManagers(p)| * 8 <= |p|
    decreases |p|
  {
    if |p| >= RECORD_SIZE { SyncManagersBounds(p[RECORD_SIZE..]); }
  }

  lemma {:induction false} MappingsBounds(p: seq<byte>)
    ensures EntriesFit(DecodeMappings(p))
    decreases |p|
  {
    if |p| >= PDO_HEADER_SIZE { MappingsBounds(AfterBlock(p)); }
  }

  /** The state of a read after `total` payload bytes, `tables` of its categories being
      string tables. */
  ghost predicate Sound(s: Sii, total: nat, tables: nat) {
    && |s.general| == GENERAL_SIZE
    && (tables == 0 ==> s.strings == [])
    && (tables == 1 ==> 0 < |s.strings| <= 0x100 && s.strings[0] == [])
    && (forall i :: 0 <= i < |s.strings| ==> |s.strings[i]| <= 0xFF)
    && |s.fmmus| <= total && |s.fmmus| % 2 == 0
    && |s.syncManagers| * 8 <= total
    && EntriesFit(s.txPdo) && EntriesFit(s.rxPdo)
    && Declarable(s.dc) && Declarable(s.dataTypes)
    && Framable(s.unknown) && Foreign(s.unknown)
  }

  lemma {:induction false} ApplySound(s: Sii, c: Category, total: nat, tables: nat)
    requires Sound(s, total, tables) && Declarable(c.data) && c.kind != END
    ensures Sound(Apply(s, c), total + |c.data|, tables + if c.kind == STRINGS then 1 else 0)
  {
    if c.kind == STRINGS {
      StringTableBounds(c.data);
    } else if c.kind == SYNC_M {
      SyncManagersBounds(c.data);
    } else if c.kind == TX_PDO || c.kind == RX_PDO {
      MappingsBounds(c.data);
    }
  }

  lemma {:induction false} ApplyAllSound(s: Sii, cs: seq<Category>, total: nat, tables: nat)
    requires Sound(s, total, tables) && Framable(cs)
    requires forall i :: 0 <= i < |cs| ==> cs[i].kind != END
    ensures Sound(ApplyAll(s, cs), total + PayloadBytes(cs), tables + StringTables(cs))
    decreases |cs|
  {
    if cs != [] {
      ApplySound(s, cs[0], total, tables);
      ApplyAllSound(Apply(s, cs[0]), cs[1..], total + |cs[0].data|,
                    tables + if cs[0].kind == STRINGS then 1 else 0);
    }
  }

  /** Any image below 64 KiB with at most one string table reads to a well-formed value. */
  lemma {:induction false} ReadIsWellFormed(image: seq<byte>)
    requires INFO_SIZE <= |image| < 0x1_0000
    requires StringTables(Split(image[INFO_SIZE..])) <= 1
    ensures WellFormed(ParseImage(image))
    ensures Sound(ParseImage(image), |image|, StringTables(Split(image[INFO_SIZE..])))
  {
    var cs := Split(image[INFO_SIZE..]);
    SplitBounds(image[INFO_SIZE..]);
    ApplyAllSound(Blank(image[..INFO_SIZE]), cs, 0, 0);
  }

  /** What was read from such an image survives being written and read again unchanged:
      only the checksum word may differ, and a string table holding nothing but the
      reserved string is dropped. */
  lemma {:induction false} ReadWriteRead(image: seq<byte>)
    requires INFO_SIZE <= |image| < 0x1_0000
    requires StringTables(Split(image[INFO_SIZE..])) <= 1
    ensures var s := ParseImage(image);
            && |s.info| == INFO_SIZE
            && ParseImage(SerializeImage(s))
               == s.(info := SealInfo(s.info), strings := if |s.strings| == 1 then [] else s.strings)
  {
    ReadIsWellFormed(image);
    var s, tables := ParseImage(image), StringTables(Split(image[INFO_SIZE..]));
    assert |s.info| == INFO_SIZE;
    hide ParseImage, SerializeImage, Split, Sound, WellFormed, Normalise, SealInfo;
    RoundTrip(s);
    NormaliseRead(s, |image|, tables);
  }

  /** What is read is normal, but for an empty string table and the checksum. */
  lemma {:induction false} NormaliseRead(s: Sii, total: nat, tables: nat)
    requires Sound(s, total, tables) && tables <= 1 && |s.info| == INFO_SIZE
    ensures Normalise(s) == s.(info := SealInfo(s.info), strings := if |s.strings| == 1 then [] else s.strings)
  {
    hide SealInfo;
    if |s.strings| > 1 {
      assert CutAll(s.strings[1..]) == s.strings[1..];
      assert [[]] + s.strings[1..] == s.strings;
    }
  }

  // ---- The exact round trip -------------------------------------------------

  /** Whatever is read has declarable payloads and PDOs whose entry counts fit a byte. */
  lemma {:induction false} ReadFits(image: seq<byte>)
    requires INFO_SIZE <= |image|
    ensures var s := ParseImage(image); OpaqueFit(s) && EntriesFit(s.txPdo) && EntriesFit(s.rxPdo)
  {
    var cs := Split(image[INFO_SIZE..]);
    SplitBounds(image[INFO_SIZE..]);
    ApplyAllSound(Blank(image[..INFO_SIZE]), cs, 0, 0);
  }

  /** The exact condition of the round trip: reading what was written gives the normalised
      value if and only if the counts written in one byte fit it, the opaque payloads can be
      declared, and no vendor category poses as another kind. Taken for granted is that the
      string table, the FMMU list and the sync manager list stay below 64 KiB each. */
  lemma {:induction false} RoundTripExact(s: Sii)
    requires |s.info| == INFO_SIZE && |s.general| == GENERAL_SIZE && Framable(ListCategories(s))
    ensures ParseImage(SerializeImage(s)) == Normalise(s) <==> CountsFit(s) && OpaqueFit(s)
  {
    ReadFits(SerializeImage(s));
    if OpaqueFit(s) && EntriesFit(s.txPdo) && EntriesFit(s.rxPdo) {
      PartsFramable(s);
      RoundTripFramed(s);
    }
  }

  // ---- Payloads cut short ---------------------------------------------------

  /** A sync manager list cut anywhere gives the records that are still whole. */
  lemma {:induction false} CutSyncManagers(es: seq<SyncManagerEntry>, n: nat)
    requires n <= |EncodeSyncManagers(es)|
    ensures DecodeSyncManagers(EncodeSyncManagers(es)[..n]) == es[..n / 8]
    decreases |es|
  {
    if n >= 8 {
      var head, tail := EncodeSyncManager(es[0]), EncodeSyncManagers(es[1..]);
      var p := EncodeSyncManagers(es)[..n];
      assert p == head + tail[..n - 8];
      SyncManagerBack(es[0], tail[..n - 8]);
      CutSyncManagers(es[1..], n - 8);
      assert p[8..] == tail[..n - 8];
      assert es[..n / 8] == [es[0]] + es[1..][..n / 8 - 1];
    }
  }

  /** So does a list of PDO entries, however many are asked for. */
  lemma {:induction false} CutEntries(es: seq<PdoEntry>, n: nat, count: nat)
    requires n <= |EncodeEntries(es)| && n / 8 <= count
    ensures DecodeEntries(EncodeEntries(es)[..n], count) == es[..n / 8]
    decreases |es|
  {
    if n >= 8 {
      var head, tail := EncodePdoEntry(es[0]), EncodeEntries(es[1..]);
      var p := EncodeEntries(es)[..n];
      assert p == head + tail[..n - 8];
      PdoEntryBack(es[0], tail[..n - 8]);
      CutEntries(es[1..], n - 8, count - 1);
      assert p[8..] == tail[..n - 8];
      assert es[..n / 8] == [es[0]] + es[1..][..n / 8 - 1];
    }
  }

  lemma {:induction false} BlockHead(m: PdoMapping, p: seq<byte>)
    requires |p| >= 8 && p[..8] == EncodeMapping(m)[..8]
    ensures Word(p, 0) == m.index && p[2] == |m.entries| % 0x100 && p[3] == m.syncManager
    ensures p[4] == m.synchronization && p[5] == m.nameIndex && Word(p, 6) == m.flags
  {
    var head := Le16(m.index) + [|m.entries| % 0x100, m.syncManager, m.synchronization, m.nameIndex] + Le16(m.flags);
    assert EncodeMapping(m)[..8] == head;
    forall k | 0 <= k < 8 ensures p[k] == head[k] {
      assert p[k] == p[..8][k];
    }
    hide EncodeMapping;
    assert p[0] == Le16(m.index)[0] && p[1] == Le16(m.index)[1] && p[6] == Le16(m.flags)[0] && p[7] == Le16(m.flags)[1];
  }

  /** A PDO block cut short within its entries is read with the entries that are whole. */
  lemma {:induction false} CutMapping(m: PdoMapping, n: nat)
    requires |m.entries| <= 0xFF && n < |EncodeEntries(m.entries)|
    ensures DecodeMappings(EncodeMapping(m)[..8 + n]) == [m.(entries := m.entries[..n / 8])]
  {
    var p, cut := EncodeMapping(m)[..8 + n], EncodeEntries(m.entries)[..n];
    CutEntries(m.entries, n, |m.entries|);
    assert p[8..] == cut;
    assert p[..8] == EncodeMapping(m)[..8];
    BlockHead(m, p);
    hide DecodeEntries, EncodeEntries, EncodeMapping, Word;
    assert DecodeMapping(p) == m.(entries := m.entries[..n / 8]);
    assert AfterBlock(p) == [];
    assert DecodeMappings([]) == [];
  }
}
