/** Loading a firmware file in TLV format (iwlwifi/iwl-drv.c:420-439, 793-820, 1087-1180, 1314-1384,
    1546-1550, 1801-1843): the loop over the TLVs collects the sections of each image. */
module FirmwareTlv {

  type byte = x: nat | x < 0x100

  const HEADER_SIZE := 88
  const UCODE_MAGIC := 0x0a4c5749
  const MAX_FILE := 0xFFFF_FFFC // lengths are 32-bit words

  const TLV_SEC_RT := 19
  const TLV_SEC_INIT := 20
  const TLV_SEC_WOWLAN := 21
  const TLV_SECURE_SEC_RT := 24
  const TLV_SECURE_SEC_INIT := 25
  const TLV_SECURE_SEC_WOWLAN := 26
  const TLV_SEC_RT_USNIFFER := 34

  const ENOMEM := -12
  const EINVAL := -22

  // Images: regular, init, wowlan, regular with usniffer.
  const IMAGES := 4
  const USNIFFER := 3

  // A section: where it goes in the device, and its bytes.  A TLV without room for the offset word
  // leaves one whose size has wrapped around below zero.
  datatype Sec = Sec(offset: nat, data: seq<byte>) | Wrapped

  datatype Tlv = Tlv(typ: nat, payload: seq<byte>)

  function Le32(s: seq<byte>, i: nat): (w: nat)
    requires i + 4 <= |s|
    ensures w < 0x1_0000_0000
  {
    s[i] as nat + 0x100 * s[i + 1] as nat + 0x1_0000 * s[i + 2] as nat + 0x100_0000 * s[i + 3] as nat
  }

  // A whole number of words.
  predicate Whole(n: nat) { n % 4 == 0 }

  function Align4(n: nat): (r: nat)
    ensures n <= r < n + 4 && Whole(r)
  {
    (n + 3) / 4 * 4
  }

  // The image a section TLV belongs to, or IMAGES for any other TLV.
  function ImageOf(typ: nat): (i: nat)
    ensures i <= IMAGES
  {
    if typ == TLV_SEC_RT || typ == TLV_SECURE_SEC_RT then 0
    else if typ == TLV_SEC_INIT || typ == TLV_SECURE_SEC_INIT then 1
    else if typ == TLV_SEC_WOWLAN || typ == TLV_SECURE_SEC_WOWLAN then 2
    else if typ == TLV_SEC_RT_USNIFFER then USNIFFER
    else IMAGES
  }

  predicate IsSection(t: Tlv) { ImageOf(t.typ) < IMAGES }

  /** By the numbers: the types of section TLVs, and the four bytes that mark a firmware file. */
  lemma NumbersOf(typ: nat, file: seq<byte>)
    ensures ImageOf(typ) == 0 <==> typ in {19, 24}
    ensures ImageOf(typ) == 1 <==> typ in {20, 25}
    ensures ImageOf(typ) == 2 <==> typ in {21, 26}
    ensures ImageOf(typ) == 3 <==> typ == 34
    ensures |file| >= 88 ==> (GoodHeader(file) <==> file[4..8] == [0x49, 0x57, 0x4c, 0x0a])
    ensures |file| < 88 ==> !GoodHeader(file)
  {
    if |file| >= 88 {
      var a: nat, b: nat, c: nat, d: nat := file[4], file[5], file[6], file[7];
      assert file[4..8] == [a, b, c, d];
      assert a + 0x100 * b + 0x1_0000 * c + 0x100_0000 * d == 0x0a4c5749 <==> a == 0x49 && b == 0x57 && c == 0x4c && d == 0x0a;
    }
  }

  /** A section TLV byte by byte: type, length and offset with the least significant byte first, then
      the data; the bytes that fill the last word are skipped. */
  lemma ByByte(s: seq<byte>, accepts: Tlv -> bool)
    requires s == [0x13, 0, 0, 0, 0x06, 0, 0, 0, 0x04, 0x03, 0x02, 0x01, 0xaa, 0xbb, 0xcc, 0xdd]
    ensures Load(s, accepts, [[], [], [], []], []).images == [[Sec(0x01020304, [0xaa, 0xbb])], [], [], []]
  {
    FrontByByte(s);
    var images: Images := [[], [], [], []];
    var x := Sec(0x01020304, [0xaa, 0xbb]);
    assert images[0] + [x] == [x];
    assert Stored(images, Front(s)) == images[0 := [x]] == [[x], [], [], []];
    hide Le32, Front, NextAt, Split;
    assert Load(s, accepts, images, []) == Load(Skip(s), accepts, Stored(images, Front(s)), [] + [Front(s)]);
  }

  lemma FrontByByte(s: seq<byte>)
    requires s == [0x13, 0, 0, 0, 0x06, 0, 0, 0, 0x04, 0x03, 0x02, 0x01, 0xaa, 0xbb, 0xcc, 0xdd]
    ensures Le32(s, 4) == 6 && Front(s).typ == 19 && Skip(s) == []
    ensures Split(Front(s).payload) == Sec(0x01020304, [0xaa, 0xbb])
  {
    assert Le32(s, 0) == 19 && Le32(s, 4) == 6;
    assert s[8..14] == [0x04, 0x03, 0x02, 0x01, 0xaa, 0xbb];
    assert s[8..14][4..] == [0xaa, 0xbb];
  }

  // A section's payload starts with its offset word.
  function Split(payload: seq<byte>): Sec {
    if |payload| >= 4 then Sec(Le32(payload, 0), payload[4..]) else Wrapped
  }

  type Images = s: seq<seq<Sec>> | |s| == IMAGES witness [[], [], [], []]

  // How the loop ends: its answer, the images, and the TLVs it went through.
  datatype Outcome = Outcome(ret: int, images: Images, visited: seq<Tlv>)

  // The TLV at the front of s, if its length fits.
  function Front(s: seq<byte>): Tlv
    requires |s| >= 8 && 8 + Le32(s, 4) <= |s|
  {
    TlvAt(s, 0)
  }

  // Where the TLV after the one at `data` starts.
  function NextAt(file: seq<byte>, data: nat): (next: nat)
    requires data + 8 <= |file| && Whole(|file| - data) && data + 8 + Le32(file, data + 4) <= |file|
    ensures data < next <= |file| && Whole(|file| - next)
  {
    AlignFits(Le32(file, data + 4), |file| - data - 8);
    data + 8 + Align4(Le32(file, data + 4))
  }

  // The TLV at `data`.
  function TlvAt(file: seq<byte>, data: nat): Tlv
    requires data + 8 <= |file| && data + 8 + Le32(file, data + 4) <= |file|
  {
    Tlv(Le32(file, data), file[data + 8..data + 8 + Le32(file, data + 4)])
  }

  // What is left after the first TLV.
  function Skip(s: seq<byte>): (r: seq<byte>)
    requires |s| >= 8 && 8 + Le32(s, 4) <= |s| && Whole(|s|)
    ensures |r| < |s| && Whole(|r|)
  {
    s[NextAt(s, 0)..]
  }

  function Stored(images: Images, t: Tlv): Images
    requires IsSection(t)
  {
    images[ImageOf(t.typ) := images[ImageOf(t.typ)] + [Split(t.payload)]]
  }

  // The loop.  `accepts` stands for the checks of all other TLVs.
  function Load(s: seq<byte>, accepts: Tlv -> bool, images: Images, visited: seq<Tlv>): Outcome
    requires Whole(|s|)
    decreases |s|
  {
    if |s| < 8 then Outcome(if |s| == 0 then 0 else EINVAL, images, visited)
    else if |s| - 8 < Le32(s, 4) then Outcome(EINVAL, images, visited)
    else
      var t := Front(s);
      if IsSection(t) then Load(Skip(s), accepts, Stored(images, t), visited + [t])
      else if !accepts(t) then Outcome(EINVAL, images, visited + [t])
      else Load(Skip(s), accepts, images, visited + [t])
  }

  predicate GoodHeader(file: seq<byte>) {
    |file| >= HEADER_SIZE && Le32(file, 4) == UCODE_MAGIC
  }

  // The sections collected so far, image by image.
  class Pieces {
    var images: Images

    constructor ()
      ensures images == [[], [], [], []]
    {
      images := [[], [], [], []];
    }

    // iwl_store_ucode_sec.
    method Store(image: nat, payload: seq<byte>)
      requires image < IMAGES
      modifies this
      ensures images == old(images)[image := old(images)[image] + [Split(payload)]]
    {
      images := images[image := images[image] + [Split(payload)]];
    }

    // One TLV, whose length fits: store a section, check anything else.
    method Take(file: seq<byte>, data: nat, accepts: Tlv -> bool, ghost visited: seq<Tlv>)
        returns (ok: bool, ghost visited': seq<Tlv>)
      requires data + 8 <= |file| && Whole(|file| - data)
      requires data + 8 + Le32(file, data + 4) <= |file|
      modifies this
      ensures var next := NextAt(file, data);
              Load(file[data..], accepts, old(images), visited)
                 == if ok then Load(file[next..], accepts, images, visited') else Outcome(EINVAL, images, visited')
    {
      Round(file, data, accepts, images, visited);
      hide Load, Le32, NextAt, Front, Skip, Split;
      var tlvType := Le32(file, data);
      var payload := file[data + 8..data + 8 + Le32(file, data + 4)];
      assert TlvAt(file, data) == Tlv(tlvType, payload);
      visited' := visited + [Tlv(tlvType, payload)];
      ok := true;
      if ImageOf(tlvType) < IMAGES {
        Store(ImageOf(tlvType), payload);
      } else {
        ok := accepts(Tlv(tlvType, payload));
      }
    }

    /** iwl_parse_tlv_firmware's loop: on a file of whole words the remaining length never
        underflows, whatever the file holds. */
    method Parse(file: seq<byte>, accepts: Tlv -> bool) returns (ret: int, ghost visited: seq<Tlv>)
      requires Whole(|file|) && |file| <= MAX_FILE
      modifies this
      ensures !GoodHeader(file) ==> ret == -22 && images == old(images)
      ensures GoodHeader(file) ==> Outcome(ret, images, visited) == Load(file[HEADER_SIZE..], accepts, old(images), [])
    {
      visited := [];
      if |file| < HEADER_SIZE { return EINVAL, visited; }
      if Le32(file, 4) != UCODE_MAGIC { return EINVAL, visited; }
      ret, visited := ParseTlvs(file, HEADER_SIZE, accepts);
    }

    // The loop over the TLVs from `start` on.
    method ParseTlvs(file: seq<byte>, start: nat, accepts: Tlv -> bool) returns (ret: int, ghost visited: seq<Tlv>)
      requires start <= |file| && Whole(|file| - start)
      modifies this
      ensures Outcome(ret, images, visited) == Load(file[start..], accepts, old(images), [])
    {
      hide Load, Le32, Align4, NextAt, ImageOf, Front, Skip, Stored, Split, Whole;
      visited := [];
      var data: nat, len: nat := start, |file| - start;
      while len >= 8
        invariant data + len == |file| && Whole(len)
        invariant Load(file[start..], accepts, old(images), []) == Load(file[data..], accepts, images, visited)
        decreases len
      {
        TooLong(file, data, accepts, images, visited);
        len := len - 8;
        var tlvLen := Le32(file, data + 4);
        if len < tlvLen { return EINVAL, visited; }
        var ok;
        ok, visited := Take(file, data, accepts, visited);
        Advance(file, data);
        var padded := Align4(tlvLen);
        len := len - padded;
        data := data + 8 + padded;
        if !ok { return EINVAL, visited; }
      }
      LoadEnd(file[data..], accepts, images, visited);
      ret := if len != 0 then EINVAL else 0;
    }
  }

  lemma LoadEnd(s: seq<byte>, accepts: Tlv -> bool, images: Images, visited: seq<Tlv>)
    requires Whole(|s|) && |s| < 8
    ensures Load(s, accepts, images, visited) == Outcome(if |s| == 0 then 0 else EINVAL, images, visited)
  {
  }

  lemma TooLong(file: seq<byte>, data: nat, accepts: Tlv -> bool, images: Images, visited: seq<Tlv>)
    requires data + 8 <= |file| && Whole(|file| - data)
    ensures data + 8 + Le32(file, data + 4) > |file| ==> Load(file[data..], accepts, images, visited) == Outcome(EINVAL, images, visited)
  {
    Header(file, data);
    hide Le32, Whole;
  }

  // Reading at an offset is reading in the rest of the file.
  lemma Header(file: seq<byte>, data: nat)
    requires data + 8 <= |file|
    ensures Le32(file[data..], 0) == Le32(file, data) && Le32(file[data..], 4) == Le32(file, data + 4)
  {
    var s := file[data..];
    assert forall i | 0 <= i < 8 :: s[i] == file[data + i];
  }

  lemma Window(file: seq<byte>, data: nat)
    requires data + 8 <= |file| && Whole(|file| - data) && data + 8 + Le32(file, data + 4) <= |file|
    ensures Le32(file[data..], 4) == Le32(file, data + 4)
    ensures Front(file[data..]) == TlvAt(file, data) && Skip(file[data..]) == file[NextAt(file, data)..]
  {
    Header(file, data);
    var s := file[data..];
    var n := Le32(file, data + 4);
    assert s[8..8 + n] == file[data + 8..data + 8 + n];
    assert NextAt(file, data) == data + NextAt(s, 0);
    hide Le32, NextAt, Whole;
    assert s[NextAt(s, 0)..] == file[data + NextAt(s, 0)..];
  }

  // In a whole number of words, what fits also fits when rounded up.
  lemma AlignFits(n: nat, left: nat)
    requires n <= left && Whole(left + 8)
    ensures Align4(n) <= left && Whole(left - Align4(n))
  {
  }

  lemma Advance(file: seq<byte>, data: nat)
    requires data + 8 <= |file| && Whole(|file| - data) && data + 8 + Le32(file, data + 4) <= |file|
    ensures NextAt(file, data) == data + 8 + Align4(Le32(file, data + 4)) <= |file|
    ensures Whole(|file| - NextAt(file, data))
  {
    hide Le32, Align4, Whole;
  }

  // One round of the loop, at an offset of the file.
  lemma Round(file: seq<byte>, data: nat, accepts: Tlv -> bool, images: Images, visited: seq<Tlv>)
    requires data + 8 <= |file| && Whole(|file| - data) && data + 8 + Le32(file, data + 4) <= |file|
    ensures var t, s, next := TlvAt(file, data), file[data..], file[NextAt(file, data)..];
            Load(s, accepts, images, visited)
            == if IsSection(t) then Load(next, accepts, Stored(images, t), visited + [t])
               else if accepts(t) then Load(next, accepts, images, visited + [t])
               else Outcome(EINVAL, images, visited + [t])
  {
    Window(file, data);
    hide Le32, NextAt, Front, Skip, TlvAt;
  }

  // ---------- copying an image ----------

  // A section in the driver's own memory.
  datatype Desc = Unset | Desc(len: nat, offset: nat, data: seq<byte>)

  // A section that can be copied: not empty, and of a size that there is memory for.
  predicate Copyable(sec: Sec) { sec.Sec? && sec.data != [] }

  predicate Holds(d: Desc, sec: Sec) { sec.Sec? && d == Desc(|sec.data|, sec.offset, sec.data) }

  predicate AllCopyable(img: seq<Sec>) { forall sec | sec in img :: Copyable(sec) }

  /** iwl_alloc_ucode_mem with enough memory for any real size: it copies every section, unless one of
      them is empty or had no room for its offset. */
  method AllocUcodeMem(img: seq<Sec>) returns (ret: int, out: array<Desc>)
    ensures fresh(out) && out.Length == |img|
    ensures ret == 0 <==> AllCopyable(img)
    ensures ret == 0 ==> forall i | 0 <= i < |img| :: Holds(out[i], img[i])
    ensures ret == 0 || ret == -12
  {
    out := new Desc[|img|](_ => Unset);
    for i := 0 to |img|
      invariant forall j | 0 <= j < i :: Copyable(img[j]) && Holds(out[j], img[j])
    {
      assert img[i] in img;
      if img[i] == Wrapped || |img[i].data| == 0 { return ENOMEM, out; }
      out[i] := Desc(|img[i].data|, img[i].offset, img[i].data);
    }
    ret := 0;
  }

  // ---------- writing ----------

  // A TLV as it is written: with any bytes that pad it to a whole number of words.
  datatype Written = Written(t: Tlv, pad: seq<byte>)

  predicate Writable(w: Written) {
    && w.t.typ < 0x1_0000_0000 && |w.t.payload| < 0x1_0000_0000
    && |w.t.payload| + |w.pad| == Align4(|w.t.payload|)
  }

  function Bytes32(x: nat): (s: seq<byte>)
    requires x < 0x1_0000_0000
    ensures |s| == 4 && Le32(s, 0) == x
  {
    var a := x / 0x100;
    var b := a / 0x100;
    [x % 0x100, a % 0x100, b % 0x100, b / 0x100]
  }

  function TlvBytes(w: Written): (s: seq<byte>)
    requires Writable(w)
    ensures Whole(|s|)
  {
    Bytes32(w.t.typ) + Bytes32(|w.t.payload|) + w.t.payload + w.pad
  }

  function Concat4(a: seq<byte>, b: seq<byte>): (s: seq<byte>)
    requires Whole(|a|) && Whole(|b|)
    ensures Whole(|s|) && s == a + b
  {
    a + b
  }

  function Image(ws: seq<Written>): (s: seq<byte>)
    requires forall w | w in ws :: Writable(w)
    ensures Whole(|s|)
  {
    if ws == [] then []
    else
      Concat4(TlvBytes(ws[0]), Image(ws[1..]))
  }

  // The sections that the TLVs add to an image, in file order.
  function SectionsOf(ws: seq<Written>, image: nat): seq<Sec>
    requires forall w | w in ws :: Writable(w)
    requires image < IMAGES
  {
    if ws == [] then []
    else
      assert Writable(ws[0]);
      (if ImageOf(ws[0].t.typ) == image then [Split(ws[0].t.payload)] else []) + SectionsOf(ws[1..], image)
  }

  function Collected(ws: seq<Written>, images: Images): Images
    requires forall w | w in ws :: Writable(w)
  {
    seq(IMAGES, k requires 0 <= k < IMAGES => images[k] + SectionsOf(ws, k))
  }

  function Tlvs(ws: seq<Written>): seq<Tlv> {
    if ws == [] then [] else [ws[0].t] + Tlvs(ws[1..])
  }

  predicate StartsWith(s: seq<byte>, t: Tlv, rest: seq<byte>) {
    |s| >= 8 && Whole(|s|) && 8 + Le32(s, 4) <= |s| && Front(s) == t && Skip(s) == rest
  }

  lemma WrittenFront(w: Written, rest: seq<byte>)
    requires Writable(w) && Whole(|rest|)
    ensures StartsWith(TlvBytes(w) + rest, w.t, rest)
  {
    var a, b, r := Bytes32(w.t.typ), Bytes32(|w.t.payload|), w.t.payload + w.pad + rest;
    assert |TlvBytes(w) + rest| == 8 + |r| && Whole(|TlvBytes(w) + rest|);
    Reassociate(a, b, w.t.payload, w.pad, rest);
    hide StartsWith, Align4, Le32;
    TwoWords(a, b, r);
    FrontOf(TlvBytes(w) + rest, w, rest);
  }

  lemma Reassociate(a: seq<byte>, b: seq<byte>, p: seq<byte>, q: seq<byte>, r: seq<byte>)
    ensures a + b + p + q + r == a + b + (p + q + r)
  {
  }

  lemma FrontOf(s: seq<byte>, w: Written, rest: seq<byte>)
    requires |s| >= 8 && Whole(|s|) && s[8..] == w.t.payload + w.pad + rest
    requires Le32(s, 0) == w.t.typ && Le32(s, 4) == |w.t.payload| && |w.t.payload| + |w.pad| == Align4(|w.t.payload|)
    ensures StartsWith(s, w.t, rest)
  {
    hide Le32, Align4, Whole;
    var p, k := w.t.payload, |w.t.payload| + |w.pad|;
    assert s[8..][..|p|] == p && s[8..][k..] == rest;
    Drop8(s, |p|);
    Drop8(s, k);
  }

  lemma TwoWords(a: seq<byte>, b: seq<byte>, rest: seq<byte>)
    requires |a| == |b| == 4
    ensures Le32(a + b + rest, 0) == Le32(a, 0) && Le32(a + b + rest, 4) == Le32(b, 0) && (a + b + rest)[8..] == rest
  {
    var s := a + b + rest;
    assert s[0] == a[0] && s[1] == a[1] && s[2] == a[2] && s[3] == a[3];
    assert s[4] == b[0] && s[5] == b[1] && s[6] == b[2] && s[7] == b[3];
  }

  // Slices past the TLV's header.
  lemma Drop8(s: seq<byte>, k: nat)
    requires 8 + k <= |s|
    ensures s[8..8 + k] == s[8..][..k] && s[8 + k..] == s[8..][k..]
  {
  }

  lemma Associate(a: seq<Sec>, b: seq<Sec>, c: seq<Sec>)
    ensures a + (b + c) == (a + b) + c
  {
  }

  lemma CollectedStep(ws: seq<Written>, images: Images)
    requires ws != [] && Writable(ws[0]) && forall w | w in ws :: Writable(w)
    ensures Collected(ws, images)
            == Collected(ws[1..], if IsSection(ws[0].t) then Stored(images, ws[0].t) else images)
  {
    var next := if IsSection(ws[0].t) then Stored(images, ws[0].t) else images;
    forall k | 0 <= k < IMAGES
      ensures images[k] + SectionsOf(ws, k) == next[k] + SectionsOf(ws[1..], k)
    {
      var x := if ImageOf(ws[0].t.typ) == k then [Split(ws[0].t.payload)] else [];
      var rest := SectionsOf(ws[1..], k);
      assert SectionsOf(ws, k) == x + rest && next[k] == images[k] + x;
      Associate(images[k], x, rest);
    }
  }

  /** Written TLVs at the front of a file are gone through in order, whatever follows them. */
  lemma {:induction false} LoadsFront(ws: seq<Written>, rest: seq<byte>, accepts: Tlv -> bool, images: Images, visited: seq<Tlv>)
    requires Whole(|rest|) && forall w | w in ws :: Writable(w) && (IsSection(w.t) || accepts(w.t))
    ensures Load(Concat4(Image(ws), rest), accepts, images, visited)
            == Load(rest, accepts, Collected(ws, images), visited + Tlvs(ws))
  {
    if ws == [] {
      Nothing(rest, images, visited);
    } else {
      var w, later := ws[0], ws[1..];
      var next := if IsSection(w.t) then Stored(images, w.t) else images;
      LoadsFront(later, rest, accepts, next, visited + [w.t]);
      assert Writable(w) && Image(ws) == Concat4(TlvBytes(w), Image(later)) && Tlvs(ws) == [w.t] + Tlvs(later);
      CollectedStep(ws, images);
      hide Load, Image, Concat4, TlvBytes, Collected, Stored, Tlvs;
      LoadOne(w, Concat4(Image(later), rest), accepts, images, visited);
      Regroup(TlvBytes(w), Image(later), rest);
      assert visited + ([w.t] + Tlvs(later)) == visited + [w.t] + Tlvs(later);
    }
  }

  lemma Nothing(rest: seq<byte>, images: Images, visited: seq<Tlv>)
    requires Whole(|rest|)
    ensures Concat4(Image([]), rest) == rest && Collected([], images) == images && visited + Tlvs([]) == visited
  {
    assert forall k | 0 <= k < IMAGES :: images[k] + [] == images[k];
  }

  lemma Regroup(a: seq<byte>, b: seq<byte>, c: seq<byte>)
    requires Whole(|a|) && Whole(|b|) && Whole(|c|)
    ensures Concat4(Concat4(a, b), c) == Concat4(a, Concat4(b, c))
  {
  }

  lemma LoadOne(w: Written, later: seq<byte>, accepts: Tlv -> bool, images: Images, visited: seq<Tlv>)
    requires Whole(|later|) && Writable(w) && (IsSection(w.t) || accepts(w.t))
    ensures Load(Concat4(TlvBytes(w), later), accepts, images, visited)
            == Load(later, accepts, if IsSection(w.t) then Stored(images, w.t) else images, visited + [w.t])
  {
    WrittenFront(w, later);
    hide TlvBytes, Front, Skip, Le32;
  }

  /** Parsing undoes writing: the loop goes through exactly the written TLVs in order and ends with
      nothing left; each image's array is the in-order list of its sections, split into offset word
      and data.  The padding bytes do not matter. */
  lemma LoadsWhatWasWritten(ws: seq<Written>, accepts: Tlv -> bool, images: Images, visited: seq<Tlv>)
    requires forall w | w in ws :: Writable(w) && (IsSection(w.t) || accepts(w.t))
    ensures Load(Image(ws), accepts, images, visited) == Outcome(0, Collected(ws, images), visited + Tlvs(ws))
  {
    LoadsFront(ws, [], accepts, images, visited);
    assert Image(ws) + [] == Image(ws);
  }

  /** A file that is cut off inside a TLV, or goes on with one that is refused, is an error; what came
      before has been collected, and nothing else. */
  lemma LoadStops(ws: seq<Written>, w: Written, cut: nat, rest: seq<byte>, accepts: Tlv -> bool, images: Images)
    requires Whole(|rest|) && Writable(w) && forall w | w in ws :: Writable(w) && (IsSection(w.t) || accepts(w.t))
    requires 0 < cut < |TlvBytes(w)| && Whole(cut)
    ensures Load(Concat4(Image(ws), TlvBytes(w)[..cut]), accepts, images, []) == Outcome(-22, Collected(ws, images), Tlvs(ws))
    ensures !IsSection(w.t) && !accepts(w.t) ==>
              Load(Concat4(Image(ws), Concat4(TlvBytes(w), rest)), accepts, images, [])
              == Outcome(-22, Collected(ws, images), Tlvs(ws) + [w.t])
  {
    LoadsFront(ws, TlvBytes(w)[..cut], accepts, images, []);
    LoadsFront(ws, Concat4(TlvBytes(w), rest), accepts, images, []);
    assert [] + Tlvs(ws) == Tlvs(ws);
    CutTlv(w, cut, accepts, Collected(ws, images), Tlvs(ws));
    WrittenFront(w, rest);
  }

  lemma CutTlv(w: Written, cut: nat, accepts: Tlv -> bool, images: Images, visited: seq<Tlv>)
    requires Writable(w) && 0 < cut < |TlvBytes(w)| && Whole(cut)
    ensures Load(TlvBytes(w)[..cut], accepts, images, visited) == Outcome(EINVAL, images, visited)
  {
    var s := TlvBytes(w)[..cut];
    if cut < 8 {
      LoadEnd(s, accepts, images, visited);
    } else {
      CutLength(w, cut);
      assert s[0..] == s;
      hide *;
      TooLong(s, 0, accepts, images, visited);
    }
  }

  lemma CutLength(w: Written, cut: nat)
    requires Writable(w) && 8 <= cut < |TlvBytes(w)| && Whole(cut)
    ensures cut < 8 + Le32(TlvBytes(w)[..cut], 4)
  {
    var a, b, r := Bytes32(w.t.typ), Bytes32(|w.t.payload|), w.t.payload + w.pad;
    assert TlvBytes(w) == a + b + r && Le32(b, 0) == |w.t.payload|;
    assert (a + b + r)[..cut] == a + b + r[..cut - 8];
    hide Le32;
    TwoWords(a, b, r[..cut - 8]);
  }

  // A whole file: any header with the magic word, then the TLVs.
  function FileOf(head: seq<byte>, tail: seq<byte>, ws: seq<Written>): seq<byte>
    requires |head| == 4 && |tail| == HEADER_SIZE - 8 && forall w | w in ws :: Writable(w)
  {
    head + Bytes32(UCODE_MAGIC) + tail + Image(ws)
  }

  /** From file to driver memory: writing, parsing and copying give back every section of an image,
      exactly if each of its TLVs holds some data behind the offset word. */
  method LoadImage(head: seq<byte>, tail: seq<byte>, ws: seq<Written>, accepts: Tlv -> bool, image: nat)
      returns (ret: int, out: array<Desc>)
    requires |head| == 4 && |tail| == HEADER_SIZE - 8 && image < IMAGES
    requires forall w | w in ws :: Writable(w) && (IsSection(w.t) || accepts(w.t))
    requires |FileOf(head, tail, ws)| <= MAX_FILE
    ensures fresh(out) && out.Length == |SectionsOf(ws, image)|
    ensures ret == 0 <==> forall w | w in ws && ImageOf(w.t.typ) == image :: |w.t.payload| > 4
    ensures ret == 0 ==> forall i | 0 <= i < out.Length :: Holds(out[i], SectionsOf(ws, image)[i])
  {
    var file := FileOf(head, tail, ws);
    FileParts(head, tail, ws);
    LoadsWhatWasWritten(ws, accepts, [[], [], [], []], []);
    hide Load, Image, Le32;
    var pieces := new Pieces();
    ghost var visited;
    ret, visited := pieces.Parse(file, accepts);
    assert pieces.images[image] == SectionsOf(ws, image);
    hide SectionsOf, Holds, AllCopyable, ImageOf;
    SectionsCopyable(ws, image);
    ret, out := AllocUcodeMem(pieces.images[image]);
  }

  lemma FileParts(head: seq<byte>, tail: seq<byte>, ws: seq<Written>)
    requires |head| == 4 && |tail| == HEADER_SIZE - 8 && forall w | w in ws :: Writable(w)
    ensures var file := FileOf(head, tail, ws); Whole(|file|) && GoodHeader(file) && file[HEADER_SIZE..] == Image(ws)
  {
    var file, m, front := FileOf(head, tail, ws), Bytes32(UCODE_MAGIC), head + Bytes32(UCODE_MAGIC) + tail;
    assert file == front + Image(ws);
    hide Image, FileOf, Bytes32;
    assert file[HEADER_SIZE..] == Image(ws);
    assert forall i | 0 <= i < 4 :: file[4 + i] == m[i];
    assert Le32(file, 4) == Le32(m, 0);
  }

  lemma {:induction false} SectionsCopyable(ws: seq<Written>, image: nat)
    requires image < IMAGES && forall w | w in ws :: Writable(w)
    ensures AllCopyable(SectionsOf(ws, image)) <==> forall w | w in ws && ImageOf(w.t.typ) == image :: |w.t.payload| > 4
  {
    if ws != [] {
      var w, rest := ws[0], ws[1..];
      SectionsCopyable(rest, image);
      assert ws == [w] + rest && Writable(w);
      var x := if ImageOf(w.t.typ) == image then [Split(w.t.payload)] else [];
      assert SectionsOf(ws, image) == x + SectionsOf(rest, image);
      hide SectionsOf, ImageOf;
      assert x != [] ==> x[0] in x + SectionsOf(rest, image);
    }
  }
}
