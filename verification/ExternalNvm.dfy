/** Reading an external NVM file (iwlwifi/iwl-nvm-parse.c:2108-2293): an optional prologue, sections
    in one of two header formats, and a final zero marker. */
module ExternalNvm {

  type byte = x: nat | x < 0x100

  const MAX_NVM_FILE_LEN := 16384
  const MAX_SECTION_SIZE := 0x1b58
  const MAX_EXT_SECTION_SIZE := 0x1ffc
  const NVM_MAX_NUM_SECTIONS := 13
  const PHY_SKU := 12
  const IWL_4165_DEVICE_ID := 0x5501
  const HEADER_SIZE := 16
  const MAGIC: seq<byte> := [0x54, 0x4C, 0x50, 0x2A, 0x2A, 0x4D, 0x56, 0x4E] // two words, little endian

  const EFAULT := -14
  const EINVAL := -22

  datatype Section = Absent | Stored(data: seq<byte>)

  // The device as far as the file format depends on it.
  datatype Device = Device(ext: bool, family8000: bool, cStep: bool, hwId: nat)

  function Le16(s: seq<byte>, i: nat): nat
    requires i + 2 <= |s|
  {
    s[i] as nat + 0x100 * s[i + 1] as nat
  }

  function Le32(s: seq<byte>, i: nat): nat
    requires i + 4 <= |s|
  {
    Le16(s, i) + 0x10000 * Le16(s, i + 2)
  }

  function Swap16(x: nat): nat
    requires x < 0x10000
  {
    x % 0x100 * 0x100 + x / 0x100
  }

  function MaxSize(ext: bool): nat { if ext then MAX_EXT_SECTION_SIZE else MAX_SECTION_SIZE }

  // Size and id from a section's two header words.
  function SizeOf(ext: bool, w1: nat, w2: nat): nat
    requires w2 < 0x10000
  {
    if ext then 2 * (2 * Swap16(w2)) else 2 * (8 * (w1 % 0x400))
  }

  function IdOf(ext: bool, w1: nat, w2: nat): nat {
    if ext then w1 / 0x10 else w2 / 0x1000
  }

  /** iwl_nvm_fixups: a mis-programmed 1x1 device. */
  function Fixup(hwId: nat, id: nat, data: seq<byte>): (r: seq<byte>)
    ensures |r| == |data|
  {
    if id == PHY_SKU && hwId == IWL_4165_DEVICE_ID && |data| >= 5 && data[4] / 0x20 % 2 == 1 then data[3 := 0x22] else data
  }

  /** It touches nothing but the antenna byte of the SKU section of that device, sets it for a 1x1 one,
      and doing it twice is doing it once. */
  lemma FixupChanges(hwId: nat, id: nat, data: seq<byte>)
    ensures forall i | 0 <= i < |data| && i != 3 :: Fixup(hwId, id, data)[i] == data[i]
    ensures if id == 12 && hwId == 0x5501 && |data| >= 5 && data[4] / 32 % 2 == 1 then Fixup(hwId, id, data)[3] == 0x22
            else Fixup(hwId, id, data) == data
    ensures Fixup(hwId, id, Fixup(hwId, id, data)) == Fixup(hwId, id, data)
  {
  }

  // What is wrong with the section at the front of s, if anything: too long, empty, cut off, bad id.
  predicate BadSection(d: Device, s: seq<byte>)
    requires |s| >= 4
  {
    var w1, w2 := Le16(s, 0), Le16(s, 2);
    var size := SizeOf(d.ext, w1, w2);
    size > MaxSize(d.ext) || size == 0 || 4 + size > |s| || IdOf(d.ext, w1, w2) >= NVM_MAX_NUM_SECTIONS
  }

  // Reading sections from the front of s.
  function Sections(d: Device, s: seq<byte>, acc: seq<Section>): (r: (int, seq<Section>))
    requires |acc| == NVM_MAX_NUM_SECTIONS
    ensures |r.1| == NVM_MAX_NUM_SECTIONS
    decreases |s|
  {
    if |s| < 4 then (EINVAL, acc)
    else
      var w1, w2 := Le16(s, 0), Le16(s, 2);
      if w1 == 0 && w2 == 0 then (0, acc)
      else if BadSection(d, s) then (EINVAL, acc)
      else
        var size, id := SizeOf(d.ext, w1, w2), IdOf(d.ext, w1, w2);
        Sections(d, s[4 + size..], acc[id := Stored(Fixup(d.hwId, id, s[4..4 + size]))])
  }

  predicate HasPrologue(file: seq<byte>) {
    |file| > HEADER_SIZE && file[..8] == MAGIC
  }

  // Reading a whole file.
  function File(d: Device, file: seq<byte>, acc: seq<Section>): (r: (int, seq<Section>))
    requires |acc| == NVM_MAX_NUM_SECTIONS
    ensures |r.1| == NVM_MAX_NUM_SECTIONS
  {
    if |file| > MAX_NVM_FILE_LEN then (EINVAL, acc)
    else if HasPrologue(file) then
      if d.family8000 && d.cStep && Le32(file, 8) < 0xE4A then (EFAULT, acc)
      else Sections(d, file[HEADER_SIZE..], acc)
    else Sections(d, file, acc)
  }

  // One round of the loop.
  lemma OneRound(d: Device, s: seq<byte>, acc: seq<Section>)
    requires |acc| == NVM_MAX_NUM_SECTIONS
    ensures |s| < 4 ==> Sections(d, s, acc) == (EINVAL, acc)
    ensures |s| >= 4 ==>
              var w1, w2 := Le16(s, 0), Le16(s, 2);
              var size, id := SizeOf(d.ext, w1, w2), IdOf(d.ext, w1, w2);
              if w1 == 0 && w2 == 0 then Sections(d, s, acc) == (0, acc)
              else if size > MaxSize(d.ext) || size == 0 || 4 + size > |s| || id >= NVM_MAX_NUM_SECTIONS then
                Sections(d, s, acc) == (EINVAL, acc)
              else Sections(d, s, acc) == Sections(d, s[4 + size..], acc[id := Stored(Fixup(d.hwId, id, s[4..4 + size]))])
  {
  }

  /** What the four bytes of a header mean.  The extended format counts in double words, most
      significant byte first; the other one counts in units of 16 bytes, of which ten bits are kept. */
  lemma HeaderBytes(d: Device, s: seq<byte>, acc: seq<Section>)
    requires |s| >= 4 && |acc| == NVM_MAX_NUM_SECTIONS
    ensures var size := if d.ext then 4 * (0x100 * s[2] as nat + s[3] as nat) else 16 * ((s[0] as nat + 0x100 * s[1] as nat) % 1024);
            var id := if d.ext then (s[0] as nat + 0x100 * s[1] as nat) / 16 else s[3] as nat / 16;
            if s[0] == s[1] == s[2] == s[3] == 0 then Sections(d, s, acc) == (0, acc)
            else if 0 < size <= (if d.ext then 8188 else 7000) && size <= |s| - 4 && id < 13 then
              Sections(d, s, acc) == Sections(d, s[4 + size..], acc[id := Stored(Fixup(d.hwId, id, s[4..4 + size]))])
            else Sections(d, s, acc) == (-22, acc)
  {
    OneRound(d, s, acc);
    WordsByByte(s);
    hide Sections, Fixup, SizeOf, IdOf, Le16, Swap16;
  }

  lemma WordsByByte(s: seq<byte>)
    requires |s| >= 4
    ensures var w1, w2 := Le16(s, 0), Le16(s, 2);
            && w2 < 0x10000 && (w1 == 0 && w2 == 0 <==> s[0] == s[1] == s[2] == s[3] == 0)
            && SizeOf(true, w1, w2) == 4 * (0x100 * s[2] as nat + s[3] as nat)
            && SizeOf(false, w1, w2) == 16 * ((s[0] as nat + 0x100 * s[1] as nat) % 1024)
            && IdOf(true, w1, w2) == (s[0] as nat + 0x100 * s[1] as nat) / 16
            && IdOf(false, w1, w2) == s[3] as nat / 16
  {
    var w2 := Le16(s, 2);
    assert w2 % 0x100 == s[2] as nat && w2 / 0x100 == s[3] as nat;
    assert w2 / 0x1000 == s[3] as nat / 16;
  }

  lemma SuffixWords(file: seq<byte>, pos: nat)
    requires pos + 4 <= |file|
    ensures Le16(file[pos..], 0) == Le16(file, pos) < 0x10000 && Le16(file[pos..], 2) == Le16(file, pos + 2) < 0x10000
  {
  }

  lemma Suffix(file: seq<byte>, pos: nat, size: nat)
    requires pos + 4 + size <= |file|
    ensures file[pos..][4..4 + size] == file[pos + 4..pos + 4 + size] && file[pos..][4 + size..] == file[pos + 4 + size..]
  {
  }

  method Store(sections: array<Section>, id: nat, data: seq<byte>)
    requires id < sections.Length
    modifies sections
    ensures sections[..] == old(sections[..])[id := Stored(data)]
  {
    sections[id] := Stored(data);
  }

  /** iwl_read_external_nvm: never reads past the end, and stores sections in place as it goes. */
  method ReadExternalNvm(d: Device, file: seq<byte>, sections: array<Section>) returns (ret: int)
    requires sections.Length == NVM_MAX_NUM_SECTIONS
    modifies sections
    ensures (ret, sections[..]) == File(d, file, old(sections[..]))
    ensures |file| > 16384 ==> ret == -22 && sections[..] == old(sections[..])
  {
    if |file| > MAX_NVM_FILE_LEN { return EINVAL; }
    var pos := 0;
    if |file| > HEADER_SIZE && file[..8] == MAGIC {
      pos := HEADER_SIZE;
      if d.family8000 && d.cStep && Le32(file, 8) < 0xE4A { return EFAULT; }
    }
    assert file[0..] == file;
    ret := ReadSections(d, file, pos, sections);
  }

  // The loop over the sections from `start` on.
  method ReadSections(d: Device, file: seq<byte>, start: nat, sections: array<Section>) returns (ret: int)
    requires sections.Length == NVM_MAX_NUM_SECTIONS && start <= |file|
    modifies sections
    ensures (ret, sections[..]) == Sections(d, file[start..], old(sections[..]))
  {
    hide Sections, BadSection, Fixup, SizeOf, IdOf, Le16, Swap16;
    var pos := start;
    while true
      invariant start <= pos <= |file|
      invariant Sections(d, file[start..], old(sections[..])) == Sections(d, file[pos..], sections[..])
      decreases |file| - pos
    {
      OneRound(d, file[pos..], sections[..]);
      if pos + 4 > |file| { return EINVAL; }
      SuffixWords(file, pos);
      var w1, w2 := Le16(file, pos), Le16(file, pos + 2);
      if w1 == 0 && w2 == 0 { return 0; }
      var size, id := SizeOf(d.ext, w1, w2), IdOf(d.ext, w1, w2);
      if size > MaxSize(d.ext) { return EINVAL; }
      if size == 0 { return EINVAL; }
      if pos + 4 + size > |file| { return EINVAL; }
      if id >= NVM_MAX_NUM_SECTIONS { return EINVAL; }
      var temp := Fixup(d.hwId, id, file[pos + 4..pos + 4 + size]);
      Suffix(file, pos, size);
      Store(sections, id, temp);
      pos := pos + 4 + size;
    }
  }

  // ---------- writing ----------

  // A section to be written, with the header bits that a reader ignores.
  datatype Sec = Sec(id: nat, data: seq<byte>, ignored: nat)

  // The two header words.
  function Word1(ext: bool, sec: Sec): nat {
    if ext then 0x10 * sec.id + sec.ignored % 0x10 else |sec.data| / 16 + 0x400 * (sec.ignored % 0x40)
  }

  function Word2(ext: bool, sec: Sec): nat {
    if ext then (|sec.data| / 4) % 0x100 * 0x100 + (|sec.data| / 4) / 0x100 else 0x1000 * sec.id + sec.ignored / 0x40 % 0x1000
  }

  // A section that the format can hold.
  predicate Writable(ext: bool, sec: Sec) {
    && sec.id < NVM_MAX_NUM_SECTIONS && 0 < |sec.data| <= MaxSize(ext)
    && |sec.data| % (if ext then 4 else 16) == 0
  }

  lemma WordsFit(ext: bool, sec: Sec)
    requires Writable(ext, sec)
    ensures Word1(ext, sec) < 0x10000 && Word2(ext, sec) < 0x10000
    ensures SizeOf(ext, Word1(ext, sec), Word2(ext, sec)) == |sec.data| && IdOf(ext, Word1(ext, sec), Word2(ext, sec)) == sec.id
    ensures Word1(ext, sec) != 0 || Word2(ext, sec) != 0
  {
    if ext {
      var n := |sec.data| / 4;
      assert n < 0x800;
      assert Word2(ext, sec) % 0x100 == n / 0x100 && Word2(ext, sec) / 0x100 == n % 0x100;
    }
  }

  function Bytes16(x: nat): (s: seq<byte>)
    requires x < 0x10000
    ensures |s| == 2 && Le16(s, 0) == x
  {
    [x % 0x100, x / 0x100]
  }

  function SecBytes(ext: bool, sec: Sec): (s: seq<byte>)
    requires Writable(ext, sec)
  {
    WordsFit(ext, sec);
    Bytes16(Word1(ext, sec)) + Bytes16(Word2(ext, sec)) + sec.data
  }

  const MARKER: seq<byte> := [0, 0, 0, 0]

  ghost predicate AllWritable(ext: bool, secs: seq<Sec>) {
    forall sec | sec in secs :: Writable(ext, sec)
  }

  // All sections, the marker, and whatever follows it.
  ghost function Body(ext: bool, secs: seq<Sec>, tail: seq<byte>): seq<byte>
    requires AllWritable(ext, secs)
  {
    if secs == [] then MARKER + tail else SecBytes(ext, secs[0]) + Body(ext, secs[1..], tail)
  }

  // What the sections leave in the table, one after the other.
  ghost function StoreAll(hwId: nat, secs: seq<Sec>, acc: seq<Section>): seq<Section>
    requires |acc| == NVM_MAX_NUM_SECTIONS && forall sec | sec in secs :: sec.id < NVM_MAX_NUM_SECTIONS
    ensures |StoreAll(hwId, secs, acc)| == NVM_MAX_NUM_SECTIONS
  {
    if secs == [] then acc
    else StoreAll(hwId, secs[1..], acc[secs[0].id := Stored(Fixup(hwId, secs[0].id, secs[0].data))])
  }

  lemma OneSection(d: Device, sec: Sec, rest: seq<byte>, acc: seq<Section>)
    requires Writable(d.ext, sec) && |acc| == NVM_MAX_NUM_SECTIONS
    ensures Sections(d, SecBytes(d.ext, sec) + rest, acc)
            == Sections(d, rest, acc[sec.id := Stored(Fixup(d.hwId, sec.id, sec.data))])
  {
    WordsFit(d.ext, sec);
    var w1, w2 := Word1(d.ext, sec), Word2(d.ext, sec);
    var s := SecBytes(d.ext, sec) + rest;
    assert s[0] == w1 % 0x100 && s[1] == w1 / 0x100 && s[2] == w2 % 0x100 && s[3] == w2 / 0x100;
    assert Le16(s, 0) == w1 && Le16(s, 2) == w2;
    assert s[4..4 + |sec.data|] == sec.data && s[4 + |sec.data|..] == rest;
  }

  /** Reading undoes writing: whatever the ignored header bits and the bytes after the marker. */
  lemma {:induction false} ReadsWhatWasWritten(d: Device, secs: seq<Sec>, tail: seq<byte>, acc: seq<Section>)
    requires AllWritable(d.ext, secs) && |acc| == NVM_MAX_NUM_SECTIONS
    ensures Sections(d, Body(d.ext, secs, tail), acc) == (0, StoreAll(d.hwId, secs, acc))
  {
    if secs != [] {
      OneSection(d, secs[0], Body(d.ext, secs[1..], tail), acc);
      ReadsWhatWasWritten(d, secs[1..], tail, acc[secs[0].id := Stored(Fixup(d.hwId, secs[0].id, secs[0].data))]);
    }
  }

  // The bytes that some sections take.
  ghost function Span(secs: seq<Sec>): nat {
    if secs == [] then 0 else 4 + |secs[0].data| + Span(secs[1..])
  }

  // The sections before the cut, and the others.
  ghost predicate CutAt(secs: seq<Sec>, cut: nat, whole: seq<Sec>, rest: seq<Sec>) {
    && secs == whole + rest && Span(whole) <= cut
    && (rest != [] ==> cut < Span(whole) + 4 + |rest[0].data|)
  }

  /** A written file that is cut off anywhere before the end of its marker is refused, and the sections
      before the cut, no others, have been stored. */
  lemma {:induction false} CutOff(d: Device, secs: seq<Sec>, cut: nat, acc: seq<Section>)
      returns (whole: seq<Sec>, rest: seq<Sec>)
    requires AllWritable(d.ext, secs) && |acc| == NVM_MAX_NUM_SECTIONS && cut < |Body(d.ext, secs, [])|
    ensures AllWritable(d.ext, whole) && CutAt(secs, cut, whole, rest)
    ensures Sections(d, Body(d.ext, secs, [])[..cut], acc) == (-22, StoreAll(d.hwId, whole, acc))
  {
    if secs == [] || cut < 4 + |secs[0].data| {
      whole, rest := [], secs;
      if secs != [] { CutSection(d, secs[0], Body(d.ext, secs[1..], []), cut, acc); }
    } else {
      var sec, later := secs[0], secs[1..];
      var next := acc[sec.id := Stored(Fixup(d.hwId, sec.id, sec.data))];
      var cut' := cut - 4 - |sec.data|;
      whole, rest := CutOff(d, later, cut', next);
      StoreMore(d.hwId, sec, whole, acc);
      CutLater(d, sec, Body(d.ext, later, []), cut, acc);
      CutAtMore(sec, later, cut', whole, rest);
      assert secs == [sec] + later;
      hide CutAt, Sections, StoreAll, Span;
      whole := [sec] + whole;
    }
  }

  lemma CutLater(d: Device, sec: Sec, body: seq<byte>, cut: nat, acc: seq<Section>)
    requires Writable(d.ext, sec) && |acc| == NVM_MAX_NUM_SECTIONS && 4 + |sec.data| <= cut <= 4 + |sec.data| + |body|
    ensures Sections(d, (SecBytes(d.ext, sec) + body)[..cut], acc)
            == Sections(d, body[..cut - 4 - |sec.data|], acc[sec.id := Stored(Fixup(d.hwId, sec.id, sec.data))])
  {
    var first, cut' := SecBytes(d.ext, sec), cut - 4 - |sec.data|;
    assert |first| == 4 + |sec.data|;
    assert (first + body)[..cut] == first + body[..cut'];
    OneSection(d, sec, body[..cut'], acc);
  }

  lemma CutAtMore(sec: Sec, later: seq<Sec>, cut: nat, whole: seq<Sec>, rest: seq<Sec>)
    requires CutAt(later, cut, whole, rest)
    ensures CutAt([sec] + later, cut + 4 + |sec.data|, [sec] + whole, rest)
  {
    assert ([sec] + whole)[1..] == whole;
    assert [sec] + later == [sec] + whole + rest;
  }

  lemma StoreMore(hwId: nat, sec: Sec, secs: seq<Sec>, acc: seq<Section>)
    requires |acc| == NVM_MAX_NUM_SECTIONS && sec.id < NVM_MAX_NUM_SECTIONS && forall x | x in secs :: x.id < NVM_MAX_NUM_SECTIONS
    ensures Span([sec] + secs) == 4 + |sec.data| + Span(secs)
    ensures StoreAll(hwId, [sec] + secs, acc) == StoreAll(hwId, secs, acc[sec.id := Stored(Fixup(hwId, sec.id, sec.data))])
  {
    assert ([sec] + secs)[1..] == secs;
  }

  // A section that is cut off.
  lemma CutSection(d: Device, sec: Sec, later: seq<byte>, cut: nat, acc: seq<Section>)
    requires Writable(d.ext, sec) && |acc| == NVM_MAX_NUM_SECTIONS && cut < 4 + |sec.data|
    ensures Sections(d, (SecBytes(d.ext, sec) + later)[..cut], acc) == (-22, acc)
  {
    WordsFit(d.ext, sec);
    var w1, w2, s := Word1(d.ext, sec), Word2(d.ext, sec), (SecBytes(d.ext, sec) + later)[..cut];
    if |s| >= 4 {
      assert s[0] == w1 % 0x100 && s[1] == w1 / 0x100 && s[2] == w2 % 0x100 && s[3] == w2 / 0x100;
      assert Le16(s, 0) == w1 && Le16(s, 2) == w2;
    }
  }

  /** Each id holds the last section written with it, others keep what they had. */
  lemma {:induction false} LastSectionWins(hwId: nat, secs: seq<Sec>, acc: seq<Section>, id: nat)
    requires |acc| == NVM_MAX_NUM_SECTIONS && id < NVM_MAX_NUM_SECTIONS
    requires forall sec | sec in secs :: sec.id < NVM_MAX_NUM_SECTIONS
    ensures forall k | 0 <= k < |secs| && secs[k].id == id && (forall j | k < j < |secs| :: secs[j].id != id) ::
              StoreAll(hwId, secs, acc)[id] == Stored(Fixup(hwId, id, secs[k].data))
    ensures (forall k | 0 <= k < |secs| :: secs[k].id != id) ==> StoreAll(hwId, secs, acc)[id] == acc[id]
  {
    if secs != [] {
      var rest := secs[1..];
      var next := acc[secs[0].id := Stored(Fixup(hwId, secs[0].id, secs[0].data))];
      assert StoreAll(hwId, secs, acc) == StoreAll(hwId, rest, next);
      hide StoreAll;
      LastSectionWins(hwId, rest, next, id);
      assert forall k | 0 <= k < |rest| :: rest[k] == secs[k + 1];
    }
  }

  /** A file with a prologue: read back, unless the version is too old for the device. */
  lemma PrologueFile(d: Device, words: seq<byte>, secs: seq<Sec>, tail: seq<byte>, acc: seq<Section>)
    requires AllWritable(d.ext, secs) && |acc| == NVM_MAX_NUM_SECTIONS && |words| == 8
    requires |MAGIC + words + Body(d.ext, secs, tail)| <= 16384
    ensures File(d, MAGIC + words + Body(d.ext, secs, tail), acc)
            == if d.family8000 && d.cStep && Le32(words, 0) < 0xE4A then (-14, acc) else (0, StoreAll(d.hwId, secs, acc))
  {
    var body := Body(d.ext, secs, tail);
    var file := MAGIC + words + body;
    BodyNonempty(d.ext, secs, tail);
    ReadsWhatWasWritten(d, secs, tail, acc);
    hide Body, Sections;
    assert file[..8] == MAGIC && file[HEADER_SIZE..] == body;
    assert forall i | 0 <= i < 8 :: file[8 + i] == words[i];
  }

  lemma BodyNonempty(ext: bool, secs: seq<Sec>, tail: seq<byte>)
    requires AllWritable(ext, secs)
    ensures |Body(ext, secs, tail)| >= 4
  {
    if secs != [] { BodyNonempty(ext, secs[1..], tail); }
  }

  // A first section whose header and first data bytes spell the magic words.
  predicate SpellsMagic(sec: Sec) {
    && sec.id == 2 && |sec.data| == 1344 && sec.data[..4] == MAGIC[4..]
    && sec.ignored % 0x40 == 19 && sec.ignored / 0x40 % 0x1000 == 0xA50
  }

  lemma MagicWords(sec: Sec, rest: seq<byte>)
    requires Writable(false, sec)
    ensures (SecBytes(false, sec) + rest)[..8] == MAGIC <==> SpellsMagic(sec)
  {
    WordsFit(false, sec);
    var w1, w2 := Word1(false, sec), Word2(false, sec);
    var s := SecBytes(false, sec) + rest;
    var h: seq<byte> := [w1 % 0x100, w1 / 0x100, w2 % 0x100, w2 / 0x100];
    assert s[..8] == h + sec.data[..4];
    assert s[..8][..4] == h && s[..8][4..] == sec.data[..4];
    assert MAGIC == MAGIC[..4] + MAGIC[4..];
    assert MAGIC[..4] == [0x54, 0x4C, 0x50, 0x2A];
    assert h == MAGIC[..4] <==> h[0] == 0x54 && h[1] == 0x4C && h[2] == 0x50 && h[3] == 0x2A;
    assert w1 == 0x4C54 <==> |sec.data| == 1344 && sec.ignored % 0x40 == 19;
    assert w2 == 0x2A50 <==> sec.id == 2 && sec.ignored / 0x40 % 0x1000 == 0xA50;
  }

  /** In the extended format no written file begins like a prologue, whatever follows the marker. */
  lemma ExtendedIsPlain(secs: seq<Sec>, tail: seq<byte>)
    requires AllWritable(true, secs)
    ensures !HasPrologue(Body(true, secs, tail))
  {
    var file := Body(true, secs, tail);
    BodyNonempty(true, secs, tail);
    if secs != [] {
      WordsFit(true, secs[0]);
      assert file[0] == Word1(true, secs[0]) % 0x100 && file[1] == Word1(true, secs[0]) / 0x100;
    } else {
      assert file[0] == 0;
    }
  }

  /** In the other format exactly those do that start with a section of id 2 and 1344 bytes with these
      first bytes and header bits. */
  lemma StandardPrologue(secs: seq<Sec>, tail: seq<byte>)
    requires AllWritable(false, secs)
    ensures HasPrologue(Body(false, secs, tail)) <==> secs != [] && SpellsMagic(secs[0])
  {
    var file := Body(false, secs, tail);
    if secs != [] {
      MagicWords(secs[0], Body(false, secs[1..], tail));
      BodyNonempty(false, secs[1..], tail);
      assert file == SecBytes(false, secs[0]) + Body(false, secs[1..], tail);
    } else {
      assert file[0] == 0;
    }
  }

  // What the writer of a file without a prologue has to avoid.
  predicate LooksPrefixed(ext: bool, secs: seq<Sec>) {
    !ext && secs != [] && SpellsMagic(secs[0])
  }

  /** A file without a prologue whose first section does not spell the magic words: read back. */
  lemma PlainFile(d: Device, secs: seq<Sec>, tail: seq<byte>, acc: seq<Section>)
    requires AllWritable(d.ext, secs) && |acc| == NVM_MAX_NUM_SECTIONS
    requires |Body(d.ext, secs, tail)| <= 16384 && !LooksPrefixed(d.ext, secs)
    ensures File(d, Body(d.ext, secs, tail), acc) == (0, StoreAll(d.hwId, secs, acc))
  {
    if d.ext { ExtendedIsPlain(secs, tail); } else { StandardPrologue(secs, tail); }
    ReadsWhatWasWritten(d, secs, tail, acc);
  }

  // A legitimate section of id 2 whose header and first data bytes spell the magic words.
  function Lookalike(): Sec {
    Sec(2, [0x2A, 0x4D, 0x56, 0x4E] + seq(1340, _ => 0), 19 + 0x40 * 0xA50)
  }

  /** The exception is real: a file without a prologue can begin like one, and is then misread. */
  lemma LookalikeIsMisread(acc: seq<Section>)
    requires |acc| == NVM_MAX_NUM_SECTIONS && acc[2] == Absent
    ensures var d := Device(false, false, false, 0); var secs := [Lookalike()];
            && AllWritable(false, secs) && LooksPrefixed(false, secs)
            && File(d, Body(false, secs, []), acc) == (0, acc)
            && StoreAll(0, secs, acc) != acc
  {
    var d := Device(false, false, false, 0);
    var sec := Lookalike();
    assert |sec.data| == 1344 && Writable(false, sec);
    assert Word1(false, sec) == 0x4C54 && Word2(false, sec) == 0x2A50;
    assert [sec][1..] == [];
    var file := Body(false, [sec], []);
    assert Body(false, [], []) == MARKER + [] == MARKER;
    assert file == SecBytes(false, sec) + MARKER;
    assert file[..8] == MAGIC;
    var rest := file[HEADER_SIZE..];
    assert rest[0] == 0 && rest[1] == 0 && rest[2] == 0 && rest[3] == 0;
    assert Sections(d, rest, acc) == (0, acc);
    assert StoreAll(0, [sec], acc) == acc[2 := Stored(Fixup(0, 2, sec.data))];
  }
}
