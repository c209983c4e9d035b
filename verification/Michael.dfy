/** The Michael message integrity code (mac80211/michael.c:13-83, section 12.5.2.3 of IEEE
    802.11-2016): a keyed fold over the words of the padded message. */
module Michael {

  type byte = bv8
  type word = bv32

  // The two halves of the state; they start as the key and end as the code.
  datatype State = State(l: word, r: word)

  function Rol(x: word, n: bv6): word
    requires 0 < n < 32
  {
    (x << n) | (x >> (32 - n))
  }

  function Ror(x: word, n: bv6): word
    requires 0 < n < 32
  {
    (x >> n) | (x << (32 - n))
  }

  // Swap the bytes in each half.
  function XSwap(x: word): word {
    ((x & 0xff00ff00) >> 8) | ((x & 0x00ff00ff) << 8)
  }

  // What the left half is mixed into the right half with, step by step.
  function Mix(step: nat, l: word): word {
    if step == 0 then Rol(l, 17) else if step == 1 then XSwap(l) else if step == 2 then Rol(l, 3) else Ror(l, 2)
  }

  // Wrapping addition and subtraction, and exclusive or.
  function Add(x: word, y: word): word { x + y }
  function Sub(x: word, y: word): word { x - y }
  function Xor(x: word, y: word): word { x ^ y }

  function Step(s: State, step: nat): State {
    var r := Xor(s.r, Mix(step, s.l));
    State(Add(s.l, r), r)
  }

  function Unstep(s: State, step: nat): State {
    var l := Sub(s.l, s.r);
    State(l, Xor(s.r, Mix(step, l)))
  }

  // One word of data: the standard's block function after the word is added to the left half.
  function Block(s: State, w: word): State {
    Step(Step(Step(Step(State(Xor(s.l, w), s.r), 0), 1), 2), 3)
  }

  function Unblock(s: State, w: word): State {
    var u := Unstep(Unstep(Unstep(Unstep(s, 3), 2), 1), 0);
    State(Xor(u.l, w), u.r)
  }

  lemma WrapBack(x: word, y: word)
    ensures (x + y) - y == x && (x - y) + y == x
  {
  }

  lemma SubOfSum(x: word, y: word)
    ensures Sub(x + y, y) == x
  {
    WrapBack(x, y);
  }

  lemma SumOfSub(x: word, y: word)
    ensures Add(x - y, y) == x
  {
    WrapBack(x, y);
  }

  lemma SubAdd(x: word, y: word)
    ensures Sub(Add(x, y), y) == x
  {
    SubOfSum(x, y);
    hide Sub;
  }

  lemma AddSub(x: word, y: word)
    ensures Add(Sub(x, y), y) == x
  {
    SumOfSub(x, y);
    hide Add;
  }

  lemma XorBack(x: word, y: word)
    ensures Xor(Xor(x, y), y) == x
  {
  }

  // Each mixing step can be undone.
  lemma StepInverts(s: State, step: nat)
    ensures Unstep(Step(s, step), step) == s && Step(Unstep(s, step), step) == s
  {
    hide Mix, Add, Sub, Xor;
    var r := Xor(s.r, Mix(step, s.l));
    var l := Sub(s.l, s.r);
    SubAdd(s.l, r);
    AddSub(s.l, s.r);
    XorBack(s.r, Mix(step, s.l));
    XorBack(s.r, Mix(step, l));
  }

  /** Every block step is a bijection on the state. */
  lemma BlockInverts(s: State, w: word)
    ensures Unblock(Block(s, w), w) == s
    ensures Block(Unblock(s, w), w) == s
  {
    hide Step, Unstep, Xor;
    var a := State(Xor(s.l, w), s.r);
    var u3 := Unstep(s, 3);
    var u2 := Unstep(u3, 2);
    var u1 := Unstep(u2, 1);
    var u := Unstep(u1, 0);
    XorBack(s.l, w);
    XorBack(u.l, w);
    StepInverts(a, 0);
    StepInverts(Step(a, 0), 1);
    StepInverts(Step(Step(a, 0), 1), 2);
    StepInverts(Step(Step(Step(a, 0), 1), 2), 3);
    StepInverts(s, 3);
    StepInverts(u3, 2);
    StepInverts(u2, 1);
    StepInverts(u1, 0);
  }

  // ---------- words ----------

  function Le32(s: seq<byte>, i: nat): word
    requires i + 4 <= |s|
  {
    (s[i] as word) | (s[i + 1] as word << 8) | (s[i + 2] as word << 16) | (s[i + 3] as word << 24)
  }

  function Bytes(w: word): (s: seq<byte>)
    ensures |s| == 4
  {
    [(w & 0xff) as byte, ((w >> 8) & 0xff) as byte, ((w >> 16) & 0xff) as byte, ((w >> 24) & 0xff) as byte]
  }

  lemma FourBytes(a: word, b: word, c: word, d: word)
    requires a < 0x100 && b < 0x100 && c < 0x100 && d < 0x100
    ensures var w := a | (b << 8) | (c << 16) | (d << 24);
            w & 0xff == a && (w >> 8) & 0xff == b && (w >> 16) & 0xff == c && (w >> 24) & 0xff == d
  {
  }

  // A little-endian word holds its bytes.
  lemma WordBytes(s: seq<byte>, i: nat)
    requires i + 4 <= |s|
    ensures Bytes(Le32(s, i)) == s[i..i + 4]
  {
    FourBytes(s[i] as word, s[i + 1] as word, s[i + 2] as word, s[i + 3] as word);
  }

  function Words(s: seq<byte>): (ws: seq<word>)
    requires |s| % 4 == 0
    ensures |ws| == |s| / 4
  {
    seq(|s| / 4, i requires 0 <= i < |s| / 4 => Le32(s, 4 * i))
  }

  function Fold(s: State, ws: seq<word>): State {
    if ws == [] then s else Block(Fold(s, ws[..|ws| - 1]), ws[|ws| - 1])
  }

  function Unfold(s: State, ws: seq<word>): State
    decreases |ws|
  {
    if ws == [] then s else Unfold(Unblock(s, ws[|ws| - 1]), ws[..|ws| - 1])
  }

  /** Running the words backwards undoes running them forwards, and the other way round. */
  lemma {:induction false} FoldInverts(s: State, ws: seq<word>)
    ensures Unfold(Fold(s, ws), ws) == s && Fold(Unfold(s, ws), ws) == s
    decreases |ws|
  {
    hide Block, Unblock;
    if ws != [] {
      var n := |ws| - 1;
      BlockInverts(Fold(s, ws[..n]), ws[n]);
      BlockInverts(s, ws[n]);
      FoldInverts(s, ws[..n]);
      FoldInverts(Unblock(s, ws[n]), ws[..n]);
    }
  }

  // ---------- what the operations on words do ----------

  /** The exchange of bytes within each half of a word. */
  lemma XSwapBytes(x: word)
    ensures Bytes(XSwap(x)) == [Bytes(x)[1], Bytes(x)[0], Bytes(x)[3], Bytes(x)[2]]
  {
    SwappedLow(x);
    SwappedHigh(x);
  }

  lemma SwappedLow(x: word)
    ensures XSwap(x) & 0xff == (x >> 8) & 0xff && (XSwap(x) >> 8) & 0xff == x & 0xff
  {
  }

  lemma SwappedHigh(x: word)
    ensures (XSwap(x) >> 16) & 0xff == (x >> 24) & 0xff && (XSwap(x) >> 24) & 0xff == (x >> 16) & 0xff
  {
  }

  /** The rotations: bit k of x is bit k + n of the result, around the end. */
  lemma Rotations(x: word)
    ensures Rol(x, 17) == x.RotateLeft(17) && Rol(x, 3) == x.RotateLeft(3) && Ror(x, 2) == x.RotateRight(2)
    ensures Ror(Rol(x, 17), 17) == x && Ror(Rol(x, 3), 3) == x && Rol(Ror(x, 2), 2) == x
  {
  }

  /** The block function on given values; together they pin the order and the amounts of Mix. */
  lemma StandardBlocks()
    ensures Block(State(0, 1), 0) == State(0xc00015a8, 0xc0000b95)
    ensures Block(State(1, 0), 0) == State(0x6b519593, 0x572b8b8a)
  {
    hide Block;
    BlockOfRight();
    BlockOfLeft();
  }

  lemma BlockOfRight()
    ensures Block(State(0, 1), 0) == State(0xc00015a8, 0xc0000b95)
  {
    assert Step(State(0, 1), 0) == State(1, 1);
    assert Step(State(1, 1), 1) == State(0x102, 0x101);
    assert Step(State(0x102, 0x101), 2) == State(0xa13, 0x911);
    assert Step(State(0xa13, 0x911), 3) == State(0xc00015a8, 0xc0000b95);
  }

  lemma BlockOfLeft()
    ensures Block(State(1, 0), 0) == State(0x6b519593, 0x572b8b8a)
  {
    assert Step(State(1, 0), 0) == State(0x20001, 0x20000);
    assert Step(State(0x20001, 0x20000), 1) == State(0x2040101, 0x2020100);
    assert Step(State(0x2040101, 0x2020100), 2) == State(0x14260a09, 0x12220908);
    assert Step(State(0x14260a09, 0x12220908), 3) == State(0x6b519593, 0x572b8b8a);
  }

  lemma BlockOfPad()
    ensures Block(State(0, 0), 0x5a) == State(0xc000134d, 0xeaa1301e)
  {
    assert Step(State(0x5a, 0), 0) == State(0xb4005a, 0xb40000);
    assert Step(State(0xb4005a, 0xb40000), 1) == State(0xb5685a5a, 0xb4b45a00);
    assert Step(State(0xb5685a5a, 0xb4b45a00), 2) == State(0xd55ee32f, 0x1ff688d5);
    assert Step(State(0xd55ee32f, 0x1ff688d5), 3) == State(0xc000134d, 0xeaa1301e);
  }

  lemma BlockOfLast()
    ensures Block(State(0xc000134d, 0xeaa1301e), 0) == State(0x1c5c9282, 0xb830d1a1)
  {
    assert Step(State(0xc000134d, 0xeaa1301e), 0) == State(0x8c3ac36b, 0xcc3ab01e);
    assert Step(State(0x8c3ac36b, 0xcc3ab01e), 1) == State(0x82f19f48, 0xf6b6dbdd);
    assert Step(State(0x82f19f48, 0xf6b6dbdd), 2) == State(0x642bc0e1, 0xe13a2199);
    assert Step(State(0x642bc0e1, 0xe13a2199), 3) == State(0x1c5c9282, 0xb830d1a1);
  }

  lemma BlockOfZero()
    ensures Block(State(0, 0), 0) == State(0, 0)
  {
    assert Step(State(0, 0), 0) == State(0, 0);
    assert Step(State(0, 0), 1) == State(0, 0);
    assert Step(State(0, 0), 2) == State(0, 0);
    assert Step(State(0, 0), 3) == State(0, 0);
  }

  // ---------- the message ----------

  // The addresses and the priority that the code covers besides the data.
  datatype Header = Header(da: seq<byte>, sa: seq<byte>, qos: bool, tid: byte)

  predicate ValidHeader(h: Header) { |h.da| == 6 && |h.sa| == 6 }

  // DA, SA, priority and three zero bytes.
  function PseudoHeader(h: Header): seq<byte>
    requires ValidHeader(h)
  {
    h.da + h.sa + [if h.qos then h.tid else 0, 0, 0, 0]
  }

  // 0x5a and then the least number of zeros, at least four, that fills the last word.
  function Padding(n: nat): (p: seq<byte>)
    ensures 5 <= |p| <= 8 && (n + |p|) % 4 == 0
  {
    [0x5a] + seq(7 - n % 4, _ => 0)
  }

  function Padded(h: Header, data: seq<byte>): (s: seq<byte>)
    requires ValidHeader(h)
    ensures |s| % 4 == 0
  {
    PseudoHeader(h) + data + Padding(|data|)
  }

  function KeyState(key: seq<byte>): State
    requires |key| == 8
  {
    State(Le32(key, 0), Le32(key, 4))
  }

  /** The code by its definition: fold the words of the padded message, starting from the key. */
  function Mic(key: seq<byte>, h: Header, data: seq<byte>): State
    requires |key| == 8 && ValidHeader(h)
  {
    Fold(KeyState(key), Words(Padded(h, data)))
  }

  /** From the code, the header and the data the key can be computed, for every message length. */
  lemma KeyRecovered(key: seq<byte>, h: Header, data: seq<byte>)
    requires |key| == 8 && ValidHeader(h)
    ensures var s := Unfold(Mic(key, h, data), Words(Padded(h, data))); Bytes(s.l) + Bytes(s.r) == key
  {
    hide Fold, Unfold, Words, Padded, KeyState, Bytes;
    FoldInverts(KeyState(key), Words(Padded(h, data)));
    KeyBytes(key);
  }

  /** The code of the empty message for the zero key and zero addresses. */
  lemma KnownAnswer(key: seq<byte>, h: Header)
    requires key == Zeros(8) && h.da == h.sa == Zeros(6) && !h.qos
    ensures var m := Mic(key, h, []); Bytes(m.l) + Bytes(m.r) == [0x82, 0x92, 0x5c, 0x1c, 0xa1, 0xd1, 0x30, 0xb8]
  {
    hide Fold, Words, Padded, Le32, Bytes;
    var ws := Words(Padded(h, []));
    KnownWords(h);
    KnownFold(ws);
    LowByteOnly(key, 0);
    LowByteOnly(key, 4);
    KnownBytes();
  }

  lemma KnownBytes()
    ensures Bytes(0x1c5c9282) + Bytes(0xb830d1a1) == [0x82, 0x92, 0x5c, 0x1c, 0xa1, 0xd1, 0x30, 0xb8]
  {
  }

  function Zeros(n: nat): seq<byte> { seq(n, _ => 0) }

  lemma KnownWords(h: Header)
    requires h.da == h.sa == Zeros(6) && !h.qos
    ensures Words(Padded(h, [])) == [0, 0, 0, 0, 0x5a, 0]
  {
    hide Le32;
    var s := Padded(h, []);
    assert |s| == 24;
    assert s[16] == 0x5a && forall i | 0 <= i < 24 && i != 16 :: s[i] == 0;
    forall k: nat | k < 6 ensures Le32(s, 4 * k) == if k == 4 then 0x5a else 0 { LowByteOnly(s, 4 * k); }
  }

  lemma LowByteOnly(s: seq<byte>, i: nat)
    requires i + 4 <= |s| && s[i + 1] == s[i + 2] == s[i + 3] == 0
    ensures Le32(s, i) == s[i] as word
  {
  }

  lemma KnownFold(ws: seq<word>)
    requires ws == [0, 0, 0, 0, 0x5a, 0]
    ensures Fold(State(0, 0), ws) == State(0x1c5c9282, 0xb830d1a1)
  {
    hide Block;
    BlockOfZero();
    BlockOfPad();
    BlockOfLast();
    var s := State(0, 0);
    FoldFour(s, ws[..4]);
    FoldNext(s, ws, 4);
    FoldNext(s, ws, 5);
    assert ws[..6] == ws;
  }

  lemma KeyBytes(key: seq<byte>)
    requires |key| == 8
    ensures Bytes(KeyState(key).l) + Bytes(KeyState(key).r) == key
  {
    WordBytes(key, 0);
    WordBytes(key, 4);
    hide Bytes, Le32;
    assert key == key[0..4] + key[4..8];
  }

  /** So for a given header and data, different keys give different codes. */
  lemma KeysSeparated(key: seq<byte>, other: seq<byte>, h: Header, data: seq<byte>)
    requires |key| == |other| == 8 && ValidHeader(h) && Mic(key, h, data) == Mic(other, h, data)
    ensures key == other
  {
    KeyRecovered(key, h, data);
    KeyRecovered(other, h, data);
  }

  // ---------- the implementation ----------

  function Le16(s: seq<byte>, i: nat): word
    requires i + 2 <= |s|
  {
    (s[i] as word) | (s[i + 1] as word << 8)
  }

  class MicCtx {
    var l: word
    var r: word

    constructor ()
    {
      l, r := 0, 0;
    }

    function Now(): State
      reads this
    {
      State(l, r)
    }

    /** michael_block. */
    method AddWord(val: word)
      modifies this
      ensures Now() == Block(old(Now()), val)
    {
      hide Rol, Ror, XSwap, Add, Xor;
      l := Xor(l, val);
      r := Xor(r, Rol(l, 17));
      l := Add(l, r);
      r := Xor(r, XSwap(l));
      l := Add(l, r);
      r := Xor(r, Rol(l, 3));
      l := Add(l, r);
      r := Xor(r, Ror(l, 2));
      l := Add(l, r);
    }

    /** michael_mic_hdr: the key, then the four words of the pseudo header. */
    method AddHeader(key: seq<byte>, h: Header)
      requires |key| == 8 && ValidHeader(h)
      modifies this
      ensures Now() == Fold(KeyState(key), Words(PseudoHeader(h)))
    {
      l, r := Le32(key, 0), Le32(key, 4);
      HeaderWords(h);
      ghost var ws := Words(PseudoHeader(h));
      var a, b, c, d := Le32(h.da, 0), Le16(h.da, 4) | (Le16(h.sa, 0) << 16), Le32(h.sa, 2), if h.qos then h.tid as word else 0;
      FourWords(a, b, c, d, KeyState(key), ws);
    }

    method FourWords(a: word, b: word, c: word, d: word, ghost s: State, ghost ws: seq<word>)
      requires ws == [a, b, c, d] && Now() == s
      modifies this
      ensures Now() == Fold(s, ws)
    {
      FoldFour(s, ws);
      hide Block, Fold;
      AddWord(a);
      AddWord(b);
      AddWord(c);
      AddWord(d);
    }

    /** michael_mic. */
    method Compute(key: seq<byte>, h: Header, data: seq<byte>) returns (mic: seq<byte>)
      requires |key| == 8 && ValidHeader(h)
      modifies this
      ensures mic == Bytes(Mic(key, h, data).l) + Bytes(Mic(key, h, data).r)
    {
      AddHeader(key, h);
      ghost var ws := Words(Padded(h, data));
      PaddedWords(h, data);
      assert ws[..4] == Words(PseudoHeader(h));
      AddData(data, KeyState(key), ws);
      mic := Bytes(l) + Bytes(r);
    }

    // The part of michael_mic after the header.
    method AddData(data: seq<byte>, ghost s: State, ghost ws: seq<word>)
      requires |ws| == |data| / 4 + 6 && Now() == Fold(s, ws[..4])
      requires forall b | 0 <= b < |data| / 4 :: ws[4 + b] == Le32(data, b * 4)
      requires ws[4 + |data| / 4] == Topped(Left(data)) && ws[5 + |data| / 4] == 0
      modifies this
      ensures Now() == Fold(s, ws)
    {
      hide Block, Fold, Le32, Topped;
      var blocks := |data| / 4;
      for block := 0 to blocks
        invariant Now() == Fold(s, ws[..4 + block])
      {
        FoldNext(s, ws, 4 + block);
        AddWord(Le32(data, block * 4));
      }
      var val := LastWord(data);
      FoldNext(s, ws, 4 + blocks);
      FoldNext(s, ws, 5 + blocks);
      AddWord(val);
      AddWord(0);
      assert ws[..|ws|] == ws;
    }
  }

  // The bytes that are left, little endian, topped by the padding byte.
  function Topped(bs: seq<byte>): word {
    if bs == [] then 0x5a else (Topped(bs[1..]) << 8) | bs[0] as word
  }

  // The partial block of a message.
  function Left(data: seq<byte>): (bs: seq<byte>)
    ensures |bs| == |data| % 4
  {
    data[|data| / 4 * 4..]
  }

  /** The loop over the partial block. */
  method LastWord(data: seq<byte>) returns (val: word)
    ensures val == Topped(Left(data))
  {
    var blocks, left := |data| / 4, |data| % 4;
    val := 0x5a;
    while left > 0
      invariant 0 <= left <= |data| % 4
      invariant val == Topped(data[blocks * 4 + left..])
    {
      ghost var rest := data[blocks * 4 + left - 1..];
      assert rest[1..] == data[blocks * 4 + left..];
      val := val << 8;
      left := left - 1;
      val := val | data[blocks * 4 + left] as word;
    }
  }

  // A topped partial block is the word that starts with its bytes, 0x5a and zeros.
  lemma ToppedIsWord(bs: seq<byte>)
    requires |bs| <= 3
    ensures Le32(bs + [0x5a, 0, 0, 0], 0) == Topped(bs)
  {
    if |bs| == 1 {
      assert bs[1..] == [];
      Topped1(bs[0] as word);
    } else if |bs| == 2 {
      assert bs[1..] == [bs[1]] && [bs[1]][1..] == [];
      Topped2(bs[0] as word, bs[1] as word);
    } else if |bs| == 3 {
      assert bs[1..] == [bs[1], bs[2]] && [bs[1], bs[2]][1..] == [bs[2]] && [bs[2]][1..] == [];
      Topped3(bs[0] as word, bs[1] as word, bs[2] as word);
    }
  }

  lemma Topped1(a: word)
    requires a < 0x100
    ensures a | (0x5a << 8) | (0 << 16) | (0 << 24) == (0x5a << 8) | a
  {
  }

  lemma Topped2(a: word, b: word)
    requires a < 0x100 && b < 0x100
    ensures a | (b << 8) | (0x5a << 16) | (0 << 24) == (((0x5a << 8) | b) << 8) | a
  {
  }

  lemma Topped3(a: word, b: word, c: word)
    requires a < 0x100 && b < 0x100 && c < 0x100
    ensures a | (b << 8) | (c << 16) | (0x5a << 24) == (((((0x5a << 8) | c) << 8) | b) << 8) | a
  {
  }

  lemma FoldNext(s: State, ws: seq<word>, k: nat)
    requires k < |ws|
    ensures Fold(s, ws[..k + 1]) == Block(Fold(s, ws[..k]), ws[k])
  {
    assert ws[..k + 1][..k] == ws[..k];
  }

  lemma FoldFour(s: State, ws: seq<word>)
    requires |ws| == 4
    ensures Fold(s, ws) == Block(Block(Block(Block(s, ws[0]), ws[1]), ws[2]), ws[3])
  {
    hide Block;
    FoldNext(s, ws, 0);
    FoldNext(s, ws, 1);
    FoldNext(s, ws, 2);
    FoldNext(s, ws, 3);
    assert ws[..4] == ws && ws[..0] == [];
  }

  lemma Halves(a: word, b: word, c: word, d: word)
    requires a < 0x100 && b < 0x100 && c < 0x100 && d < 0x100
    ensures (a | (b << 8)) | ((c | (d << 8)) << 16) == a | (b << 8) | (c << 16) | (d << 24)
  {
  }

  lemma HeaderWords(h: Header)
    requires ValidHeader(h)
    ensures var ws := Words(PseudoHeader(h));
            && |ws| == 4 && ws[0] == Le32(h.da, 0) && ws[1] == Le16(h.da, 4) | (Le16(h.sa, 0) << 16)
            && ws[2] == Le32(h.sa, 2) && ws[3] == if h.qos then h.tid as word else 0
  {
    Halves(h.da[4] as word, h.da[5] as word, h.sa[0] as word, h.sa[1] as word);
  }

  lemma SameWord(s: seq<byte>, i: nat, t: seq<byte>, j: nat)
    requires i + 4 <= |s| && j + 4 <= |t| && s[i..i + 4] == t[j..j + 4]
    ensures Le32(s, i) == Le32(t, j)
  {
    var w := s[i..i + 4];
    assert w[0] == s[i] && w[1] == s[i + 1] && w[2] == s[i + 2] && w[3] == s[i + 3];
    assert w[0] == t[j] && w[1] == t[j + 1] && w[2] == t[j + 2] && w[3] == t[j + 3];
  }

  // Where the parts of the padded message lie.
  lemma PaddedParts(h: Header, data: seq<byte>)
    requires ValidHeader(h)
    ensures var s, n := Padded(h, data), |data| / 4 * 4;
            && |s| == n + 24 && s[..16] == PseudoHeader(h) && s[16..16 + n] == data[..n]
            && s[16 + n..] == Left(data) + [0x5a] + seq(7 - |data| % 4, _ => 0)
  {
  }

  lemma ZeroWord(s: seq<byte>, i: nat)
    requires i + 4 <= |s| && s[i] == 0 && s[i + 1] == 0 && s[i + 2] == 0 && s[i + 3] == 0
    ensures Le32(s, i) == 0
  {
  }

  lemma SliceOfSlice(s: seq<byte>, i: nat, j: nat, a: nat, b: nat)
    requires i <= j <= |s| && a <= b <= j - i
    ensures s[i..j][a..b] == s[i + a..i + b]
  {
    var x, y := s[i..j][a..b], s[i + a..i + b];
    assert |x| == |y|;
    forall k | 0 <= k < |x|
      ensures x[k] == y[k]
    {
      assert x[k] == s[i..j][a + k] == s[i + (a + k)];
      assert y[k] == s[(i + a) + k];
    }
  }

  lemma HeadWords(s: seq<byte>, ph: seq<byte>)
    requires |s| % 4 == 0 && |s| >= |ph| == 16 && s[..16] == ph
    ensures Words(s)[..4] == Words(ph)
  {
    hide Le32;
    forall i | 0 <= i < 4
      ensures Le32(s, 4 * i) == Le32(ph, 4 * i)
    {
      assert s[4 * i..4 * i + 4] == s[..16][4 * i..4 * i + 4];
      SameWord(s, 4 * i, ph, 4 * i);
    }
  }

  lemma DataWords(s: seq<byte>, data: seq<byte>, n: nat)
    requires |s| % 4 == 0 && |s| >= 16 + 4 * n && |data| >= 4 * n && s[16..16 + 4 * n] == data[..4 * n]
    ensures forall b | 0 <= b < n :: Words(s)[4 + b] == Le32(data, b * 4)
  {
    hide Le32;
    forall b | 0 <= b < n
      ensures Le32(s, 4 * (4 + b)) == Le32(data, b * 4)
    {
      var x, m := 4 * b, 4 * n;
      SliceOfSlice(s, 16, 16 + m, x, x + 4);
      SliceOfSlice(data, 0, m, x, x + 4);
      assert data[..m] == data[0..m];
      SameWord(s, 16 + x, data, x);
    }
  }

  lemma LastWords(s: seq<byte>, bs: seq<byte>, m: nat)
    requires |bs| <= 3 && |s| % 4 == 0 && |s| == 4 * m + 8 && s[4 * m..] == bs + [0x5a] + seq(7 - |bs|, _ => 0)
    ensures Words(s)[m] == Topped(bs) && Words(s)[m + 1] == 0
  {
    hide Topped;
    ToppedIsWord(bs);
    var t := bs + [0x5a] + seq(3 - |bs|, _ => 0);
    assert bs + [0x5a] + seq(7 - |bs|, _ => 0) == t + [0, 0, 0, 0];
    hide Le32;
    TailWord(s, m, t);
    assert t == (bs + [0x5a, 0, 0, 0])[..4];
    SameWord(t, 0, bs + [0x5a, 0, 0, 0], 0);
  }

  lemma TailWord(s: seq<byte>, m: nat, t: seq<byte>)
    requires |s| % 4 == 0 && |s| == 4 * m + 8 && |t| == 4 && s[4 * m..] == t + [0, 0, 0, 0]
    ensures Words(s)[m] == Le32(t, 0) && Words(s)[m + 1] == 0
  {
    hide Le32;
    SliceOfSlice(s, 4 * m, |s|, 0, 4);
    SliceOfSlice(s, 4 * m, |s|, 4, 8);
    var z: seq<byte> := [0, 0, 0, 0];
    assert (t + z)[..4] == t && (t + z)[4..8] == z;
    assert s[4 * m..|s|] == s[4 * m..];
    SameWord(s, 4 * m, t, 0);
    SameWord(s, 4 * m + 4, z, 0);
    ZeroWord(z, 0);
  }

  // The words of the padded message: the header's, the data's, the topped tail, and zero.
  lemma PaddedWords(h: Header, data: seq<byte>)
    requires ValidHeader(h)
    ensures var ws, n := Words(Padded(h, data)), |data| / 4;
            && |ws| == n + 6 && ws[..4] == Words(PseudoHeader(h))
            && (forall b | 0 <= b < n :: ws[4 + b] == Le32(data, b * 4))
            && ws[4 + n] == Topped(Left(data)) && ws[5 + n] == 0
  {
    PaddedParts(h, data);
    var s, n := Padded(h, data), |data| / 4;
    HeadWords(s, PseudoHeader(h));
    DataWords(s, data, n);
    LastWords(s, Left(data), 4 + n);
  }
}
