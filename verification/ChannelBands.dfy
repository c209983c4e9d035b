/** One channel array shared by three bands (iwlwifi/iwl-nvm-parse.c:325-437, 1344-1410 and
    iwlwifi/iwl-nvm-utils.c:13-33): channels are emitted in table order, and each band is the slice
    that a scan finds. */
module ChannelBands {

  const NUM_2GHZ_CHANNELS := 14
  const NUM_5GHZ_CHANNELS := 37
  const NUM_CHANNELS := 39
  const NUM_CHANNELS_EXT := 51
  const NUM_CHANNELS_UHB := 110
  const NUM_CHANNELS_UNII9 := 115

  datatype Band = BAND_2GHZ | BAND_5GHZ | BAND_6GHZ

  // Which table and how much of it a device uses.
  datatype Config = Config(unii9: bool, uhb: bool, ext: bool)

  const NVM_CHANNELS: seq<nat> := [
    1, 2, 3, 4, 5, 6, 7, 8, 9, 10, 11, 12, 13, 14,
    36, 40, 44, 48, 52, 56, 60, 64,
    100, 104, 108, 112, 116, 120, 124, 128, 132, 136, 140, 144,
    149, 153, 157, 161, 165
  ]

  const UNII9_2GHZ_CHANNELS: seq<nat> := [1, 2, 3, 4, 5, 6, 7, 8, 9, 10, 11, 12, 13, 14]

  const UNII9_5GHZ_CHANNELS: seq<nat> := [
    36, 40, 44, 48, 52, 56, 60, 64, 68, 72, 76, 80, 84, 88, 92,
    96, 100, 104, 108, 112, 116, 120, 124, 128, 132, 136, 140, 144,
    149, 153, 157, 161, 165, 169, 173, 177, 181
  ]

  const UNII9_6GHZ_LOW_CHANNELS: seq<nat> := [
    1, 5, 9, 13, 17, 21, 25, 29, 33, 37, 41, 45, 49, 53, 57, 61, 65, 69,
    73, 77, 81, 85, 89, 93, 97, 101, 105, 109, 113, 117, 121, 125, 129
  ]

  const UNII9_6GHZ_HIGH_CHANNELS: seq<nat> := [
    133, 137, 141, 145, 149, 153, 157, 161, 165, 169, 173, 177, 181, 185,
    189, 193, 197, 201, 205, 209, 213, 217, 221, 225, 229, 233,
    237, 241, 245, 249, 253
  ]

  const UNII9_NVM_CHANNELS: seq<nat> :=
    UNII9_2GHZ_CHANNELS + UNII9_5GHZ_CHANNELS + UNII9_6GHZ_LOW_CHANNELS + UNII9_6GHZ_HIGH_CHANNELS

  function Table(cfg: Config): (t: seq<nat>)
    ensures |t| == if cfg.unii9 || cfg.uhb || cfg.ext then 115 else 39
  {
    if cfg.unii9 || cfg.uhb || cfg.ext then UNII9_NVM_CHANNELS else NVM_CHANNELS
  }

  function NumOfCh(cfg: Config): (n: nat)
    ensures n <= |Table(cfg)|
  {
    if cfg.unii9 then NUM_CHANNELS_UNII9
    else if cfg.uhb then NUM_CHANNELS_UHB
    else if cfg.ext then NUM_CHANNELS_EXT
    else NUM_CHANNELS
  }

  function BandOf(idx: nat): Band {
    if idx >= NUM_2GHZ_CHANNELS + NUM_5GHZ_CHANNELS then BAND_6GHZ
    else if idx >= NUM_2GHZ_CHANNELS then BAND_5GHZ
    else BAND_2GHZ
  }

  // The stored flags of a channel that matter here.
  datatype Flags = Flags(valid: bool, w40: bool, w80: bool, w160: bool)

  datatype Channel = Channel(hwValue: nat, band: Band)

  // The SKU's and the caller's settings.
  datatype Setup = Setup(cfg: Config, band52: bool, lar: bool, noWideIn5: bool)

  predicate Emits(s: Setup, idx: nat, f: Flags) {
    (BandOf(idx) == BAND_5GHZ ==> s.band52) && (s.lar || f.valid)
  }

  // The flags after the workaround for wide channels.
  function Narrowed(s: Setup, idx: nat, f: Flags): Flags {
    if s.noWideIn5 && BandOf(idx) == BAND_5GHZ then f.(w40 := false, w80 := false, w160 := false) else f
  }

  function Emitted(s: Setup, flags: seq<Flags>, k: nat): (r: seq<Channel>)
    requires k <= NumOfCh(s.cfg) <= |flags|
    ensures |r| <= k
  {
    if k == 0 then []
    else Emitted(s, flags, k - 1)
         + if Emits(s, k - 1, flags[k - 1]) then [Channel(Table(s.cfg)[k - 1], BandOf(k - 1))] else []
  }

  /** The channel numbers, by position: 14 of the 2.4 GHz band one apart, then those of 5 GHz and, in
      the long table, of 6 GHz in steps of four; a device uses a front part of its table. */
  lemma TableIs(cfg: Config, i: nat)
    requires i < NumOfCh(cfg)
    ensures NumOfCh(cfg) == if cfg.unii9 then 115 else if cfg.uhb then 110 else if cfg.ext then 51 else 39
    ensures Table(cfg)[i]
            == if i < 14 then i + 1
               else if NumOfCh(cfg) == 39 then
                 if i < 22 then 36 + 4 * (i - 14) else if i < 34 then 100 + 4 * (i - 22) else 149 + 4 * (i - 34)
               else if i < 42 then 36 + 4 * (i - 14)
               else if i < 51 then 149 + 4 * (i - 42)
               else 1 + 4 * (i - 51)
  {
    if NumOfCh(cfg) == 39 {
      ShortTable(i);
    } else {
      LongTable(i);
    }
  }

  lemma ShortTable(i: nat)
    requires i < 39
    ensures NVM_CHANNELS[i]
            == if i < 14 then i + 1 else if i < 22 then 36 + 4 * (i - 14) else if i < 34 then 100 + 4 * (i - 22) else 149 + 4 * (i - 34)
  {
    assert |NVM_CHANNELS| == 39;
  }

  lemma LongTable(i: nat)
    requires i < 115
    ensures UNII9_NVM_CHANNELS[i]
            == if i < 14 then i + 1 else if i < 42 then 36 + 4 * (i - 14) else if i < 51 then 149 + 4 * (i - 42) else 1 + 4 * (i - 51)
  {
    OneApart();
    StepsIn5GHz();
    StepsIn6GHz();
    Joined(UNII9_2GHZ_CHANNELS, UNII9_5GHZ_CHANNELS, UNII9_6GHZ_LOW_CHANNELS, UNII9_6GHZ_HIGH_CHANNELS, i);
  }

  lemma OneApart()
    ensures |UNII9_2GHZ_CHANNELS| == 14 && forall k | 0 <= k < 14 :: UNII9_2GHZ_CHANNELS[k] == k + 1
  {
  }

  lemma StepsIn5GHz()
    ensures |UNII9_5GHZ_CHANNELS| == 37
    ensures forall k | 0 <= k < 37 :: UNII9_5GHZ_CHANNELS[k] == if k < 28 then 36 + 4 * k else 149 + 4 * (k - 28)
  {
  }

  lemma StepsIn6GHz()
    ensures |UNII9_6GHZ_LOW_CHANNELS| == 33 && forall k | 0 <= k < 33 :: UNII9_6GHZ_LOW_CHANNELS[k] == 1 + 4 * k
    ensures |UNII9_6GHZ_HIGH_CHANNELS| == 31 && forall k | 0 <= k < 31 :: UNII9_6GHZ_HIGH_CHANNELS[k] == 133 + 4 * k
  {
  }

  lemma Joined(a: seq<nat>, b: seq<nat>, c: seq<nat>, d: seq<nat>, i: nat)
    requires |a| == 14 && |b| == 37 && |c| == 33 && |d| == 31 && i < 115
    requires (forall k | 0 <= k < 14 :: a[k] == k + 1) && forall k | 0 <= k < 37 :: b[k] == if k < 28 then 36 + 4 * k else 149 + 4 * (k - 28)
    requires (forall k | 0 <= k < 33 :: c[k] == 1 + 4 * k) && forall k | 0 <= k < 31 :: d[k] == 133 + 4 * k
    ensures (a + b + c + d)[i]
            == if i < 14 then i + 1 else if i < 42 then 36 + 4 * (i - 14) else if i < 51 then 149 + 4 * (i - 42) else 1 + 4 * (i - 51)
  {
  }

  // Positions 14 to 50 are the 5 GHz band.
  predicate In5GHz(i: nat) { 14 <= i < 51 }

  // The positions `at` of the list cs: all those below k, in order, at which a channel is listed.
  ghost predicate ListedAt(s: Setup, flags: seq<Flags>, k: nat, cs: seq<Channel>, at: seq<nat>)
    requires k <= NumOfCh(s.cfg) <= |flags|
  {
    && |at| == |cs| && (forall i, j | 0 <= i < j < |at| :: at[i] < at[j])
    && (forall j | 0 <= j < |at| :: at[j] < k && cs[j].hwValue == Table(s.cfg)[at[j]])
    && (forall j | 0 <= j < |at| :: cs[j].band == if at[j] < 14 then BAND_2GHZ else if at[j] < 51 then BAND_5GHZ else BAND_6GHZ)
    && (forall i: nat | i < k :: i in at <==> (flags[i].valid || s.lar) && (In5GHz(i) ==> s.band52))
  }

  /** The channels are listed in the order of the table: valid ones only, unless the regulatory domain
      comes from the network, and none of the 5 GHz band if the SKU has none. */
  lemma {:induction false} EmittedIs(s: Setup, flags: seq<Flags>, k: nat) returns (at: seq<nat>)
    requires k <= NumOfCh(s.cfg) <= |flags|
    ensures ListedAt(s, flags, k, Emitted(s, flags, k), at)
  {
    at := [];
    if k > 0 {
      var before := EmittedIs(s, flags, k - 1);
      at := before + if Emits(s, k - 1, flags[k - 1]) then [k - 1] else [];
      ListedMore(s, flags, k - 1, Emitted(s, flags, k - 1), before);
    }
  }

  lemma ListedMore(s: Setup, flags: seq<Flags>, k: nat, cs: seq<Channel>, at: seq<nat>)
    requires k < NumOfCh(s.cfg) <= |flags| && ListedAt(s, flags, k, cs, at)
    ensures ListedAt(s, flags, k + 1,
                     cs + if Emits(s, k, flags[k]) then [Channel(Table(s.cfg)[k], BandOf(k))] else [],
                     at + if Emits(s, k, flags[k]) then [k] else [])
  {
    hide Table, NumOfCh;
    var at' := at + if Emits(s, k, flags[k]) then [k] else [];
    assert k !in at;
    assert forall i: nat | i < k + 1 :: i in at' <==> i in at || (i == k && Emits(s, k, flags[k]));
  }

  /** 160 MHz is on offer if some channel allows it, valid or not, except on a 5 GHz band that is
      missing or may not be used that widely. */
  lemma WideIs(s: Setup, flags: seq<Flags>, k: nat)
    requires k <= |flags|
    ensures Wide(s, flags, k) <==> exists i :: 0 <= i < k && flags[i].w160 && (In5GHz(i) ==> s.band52 && !s.noWideIn5)
  {
  }

  // A channel that is not switched off keeps 160 MHz.
  predicate WideAt(s: Setup, i: nat, f: Flags) {
    (BandOf(i) == BAND_5GHZ ==> s.band52) && Narrowed(s, i, f).w160
  }

  predicate Wide(s: Setup, flags: seq<Flags>, k: nat)
    requires k <= |flags|
  {
    exists i | 0 <= i < k :: WideAt(s, i, flags[i])
  }

  lemma WideStep(s: Setup, flags: seq<Flags>)
    ensures !Wide(s, flags, 0)
    ensures forall i | 0 <= i < |flags| :: Wide(s, flags, i + 1) == (Wide(s, flags, i) || WideAt(s, i, flags[i]))
  {
    hide WideAt;
  }

  // A band of the device: a slice of the channel array.
  datatype Sband = Sband(first: nat, n: nat)

  class NvmData {
    const channels: array<Channel>
    var vht160: bool
    var band2: Sband
    var band5: Sband
    var band6: Sband

    constructor ()
      ensures fresh(channels) && channels.Length == 115 && !vht160
    {
      channels := new Channel[115](_ => Channel(0, BAND_2GHZ));
      vht160, band2, band5, band6 := false, Sband(0, 0), Sband(0, 0), Sband(0, 0);
    }

    /** iwl_init_channel_map. */
    method InitChannelMap(s: Setup, flags: seq<Flags>) returns (n: nat)
      requires NumOfCh(s.cfg) <= |flags| && channels.Length == 115
      modifies this`vht160, channels
      ensures n <= channels.Length && channels[..n] == Emitted(s, flags, NumOfCh(s.cfg))
      ensures vht160 == (old(vht160) || Wide(s, flags, NumOfCh(s.cfg)))
    {
      n := 0;
      WideStep(s, flags);
      hide Table, NumOfCh, Wide, WideAt, Emits;
      for idx := 0 to NumOfCh(s.cfg)
        invariant n <= idx && channels[..n] == Emitted(s, flags, idx)
        invariant vht160 == (old(vht160) || Wide(s, flags, idx))
      {
        n := InitChannel(s, idx, flags[idx], n);
      }
    }

    // One round of the loop.
    method InitChannel(s: Setup, idx: nat, flags: Flags, n: nat) returns (n': nat)
      requires idx < NumOfCh(s.cfg) && n < channels.Length
      modifies this`vht160, channels
      ensures n' <= n + 1 && n' <= channels.Length
      ensures channels[..n'] == old(channels[..n]) + if Emits(s, idx, flags) then [Channel(Table(s.cfg)[idx], BandOf(idx))] else []
      ensures vht160 == (old(vht160) || WideAt(s, idx, flags))
    {
      hide Table, NumOfCh;
      n' := n;
      var band := BandOf(idx);
      var f := flags;
      if band == BAND_5GHZ && !s.band52 { return; }
      if s.noWideIn5 && band == BAND_5GHZ {
        f := f.(w40 := false, w80 := false, w160 := false);
      }
      if f.w160 { vht160 := true; }
      if !s.lar && !f.valid { return; }
      channels[n] := Channel(Table(s.cfg)[idx], band);
      n' := n + 1;
    }

    /** iwl_init_sband_channels: scan for the first channel of the band, then for the end of the
        stretch. */
    method InitSbandChannels(nChannels: nat, band: Band, ghost cs: seq<Channel>) returns (sband: Sband)
      requires nChannels <= channels.Length && cs == channels[..nChannels]
      ensures sband.first + sband.n <= nChannels
      ensures forall i | 0 <= i < sband.first :: cs[i].band != band
      ensures forall i | sband.first <= i < sband.first + sband.n :: cs[i].band == band
      ensures sband.first + sband.n < nChannels ==> cs[sband.first + sband.n].band != band
      ensures sband.n == 0 ==> sband.first == nChannels
      ensures InBandOrder(cs) ==> IsSlice(cs, sband, OfBand(cs, band)) && sband.n == |OfBand(cs, band)|
    {
      var n, idx := 0, 0;
      while idx < nChannels && channels[idx].band != band
        invariant 0 <= idx <= nChannels
        invariant forall i | 0 <= i < idx :: cs[i].band != band
      {
        idx := idx + 1;
      }
      var first := idx;
      while idx < nChannels && channels[idx].band == band
        invariant first <= idx <= nChannels && n == idx - first
        invariant forall i | first <= i < idx :: cs[i].band == band
        invariant first < nChannels ==> cs[first].band == band
      {
        idx := idx + 1;
        n := n + 1;
      }
      sband := Sband(first, n);
      if InBandOrder(cs) { SliceIsBand(cs, band, first, n); }
    }

    /** iwl_init_sbands: the three slices are the channels of their bands and use up the array;
        without HE or in FIPS mode the 6 GHz slice is then emptied. */
    method InitSbands(s: Setup, flags: seq<Flags>, he: bool, fips: bool) returns (n: nat, nUsed: nat)
      requires NumOfCh(s.cfg) <= |flags| && channels.Length == 115
      modifies this, channels
      ensures n <= channels.Length && channels[..n] == Emitted(s, flags, NumOfCh(s.cfg))
      ensures nUsed == n
      ensures IsSlice(channels[..n], band2, OfBand(channels[..n], BAND_2GHZ))
      ensures IsSlice(channels[..n], band5, OfBand(channels[..n], BAND_5GHZ))
      ensures IsSlice(channels[..n], band6, if he && !fips then OfBand(channels[..n], BAND_6GHZ) else [])
    {
      n := InitChannelMap(s, flags);
      ghost var cs := channels[..n];
      EmittedInBandOrder(s, flags, NumOfCh(s.cfg));
      hide Emitted, NumOfCh, Table, OfBand, InBandOrder;
      nUsed := SliceBands(n, he, fips, cs);
      assert channels[..n] == cs;
    }

    // The three scans; a suppressed 6 GHz slice still counts as used.
    method SliceBands(n: nat, he: bool, fips: bool, ghost cs: seq<Channel>) returns (nUsed: nat)
      requires n <= channels.Length && cs == channels[..n] && InBandOrder(cs)
      modifies this`band2, this`band5, this`band6
      ensures nUsed == n
      ensures IsSlice(cs, band2, OfBand(cs, BAND_2GHZ)) && IsSlice(cs, band5, OfBand(cs, BAND_5GHZ))
      ensures IsSlice(cs, band6, if he && !fips then OfBand(cs, BAND_6GHZ) else [])
    {
      SlicesCount(cs);
      hide OfBand, InBandOrder, IsSlice;
      band2 := InitSbandChannels(n, BAND_2GHZ, cs);
      nUsed := band2.n;
      band5 := InitSbandChannels(n, BAND_5GHZ, cs);
      nUsed := nUsed + band5.n;
      band6 := InitSbandChannels(n, BAND_6GHZ, cs);
      nUsed := nUsed + band6.n;
      if !(!fips && he) {
        band6 := band6.(n := 0);
        assert IsSlice(cs, band6, []) by { EmptySlice(cs, band6); }
      }
    }
  }

  lemma EmptySlice(cs: seq<Channel>, b: Sband)
    requires b.first <= |cs| && b.n == 0
    ensures IsSlice(cs, b, [])
  {
  }

  // The slice of cs that a band holds.
  ghost predicate IsSlice(cs: seq<Channel>, b: Sband, part: seq<Channel>) {
    b.first + b.n <= |cs| && cs[b.first..b.first + b.n] == part
  }

  // ---------- bands in order ----------

  function Rank(b: Band): nat {
    match b case BAND_2GHZ => 0 case BAND_5GHZ => 1 case BAND_6GHZ => 2
  }

  ghost predicate InBandOrder(cs: seq<Channel>) {
    forall i, j | 0 <= i < j < |cs| :: Rank(cs[i].band) <= Rank(cs[j].band)
  }

  function OfBand(cs: seq<Channel>, b: Band): seq<Channel> {
    if cs == [] then []
    else OfBand(cs[..|cs| - 1], b) + if cs[|cs| - 1].band == b then [cs[|cs| - 1]] else []
  }

  /** Whatever the flags and settings, channels are emitted band by band. */
  lemma {:induction false} EmittedInBandOrder(s: Setup, flags: seq<Flags>, k: nat)
    requires k <= NumOfCh(s.cfg) <= |flags|
    ensures InBandOrder(Emitted(s, flags, k))
    ensures forall c | c in Emitted(s, flags, k) :: k > 0 && Rank(c.band) <= Rank(BandOf(k - 1))
  {
    if k > 0 {
      EmittedInBandOrder(s, flags, k - 1);
      var c := Channel(Table(s.cfg)[k - 1], BandOf(k - 1));
      hide Table, NumOfCh;
      var front := Emitted(s, flags, k - 1);
      assert Emitted(s, flags, k) == front + if Emits(s, k - 1, flags[k - 1]) then [c] else [];
      assert k > 1 ==> Rank(BandOf(k - 2)) <= Rank(c.band);
      hide Emitted, Emits, BandOf, Rank;
      OrderAppend(front, c);
    }
  }

  lemma OrderAppend(cs: seq<Channel>, c: Channel)
    requires InBandOrder(cs) && forall d | d in cs :: Rank(d.band) <= Rank(c.band)
    ensures InBandOrder(cs + [c])
  {
    forall i | 0 <= i < |cs|
      ensures Rank(cs[i].band) <= Rank(c.band)
    {
      assert cs[i] in cs;
    }
  }

  /** In a list in band order, the stretch that the scan finds is everything of its band. */
  lemma {:induction false} SliceIsBand(cs: seq<Channel>, b: Band, first: nat, n: nat)
    requires InBandOrder(cs) && first + n <= |cs|
    requires forall i | 0 <= i < first :: cs[i].band != b
    requires forall i | first <= i < first + n :: cs[i].band == b
    requires first + n < |cs| ==> cs[first + n].band != b
    requires n == 0 ==> first == |cs|
    ensures cs[first..first + n] == OfBand(cs, b)
  {
    if cs == [] {
      assert OfBand(cs, b) == [];
      hide *;
    } else {
      var m := |cs| - 1;
      var front := cs[..m];
      assert OfBand(cs, b) == OfBand(front, b) + if cs[m].band == b then [cs[m]] else [];
      if n == 0 {
        NoneOfBand(cs, b);
      } else if first + n == |cs| {
        hide OfBand;
        if n == 1 { NoneOfBand(front, b); } else { SliceIsBand(front, b, first, n - 1); }
        assert cs[first..first + n] == front[first..first + n - 1] + [cs[m]];
      } else {
        hide OfBand;
        assert Rank(cs[first].band) <= Rank(cs[first + n].band) <= Rank(cs[m].band);
        SliceIsBand(front, b, first, n);
        assert cs[first..first + n] == front[first..first + n];
      }
    }
  }

  lemma {:induction false} NoneOfBand(cs: seq<Channel>, b: Band)
    requires forall i | 0 <= i < |cs| :: cs[i].band != b
    ensures OfBand(cs, b) == []
  {
    if cs != [] { NoneOfBand(cs[..|cs| - 1], b); }
  }

  /** The three bands, one after the other, are the whole list. */
  lemma {:induction false} SlicesCover(cs: seq<Channel>)
    requires InBandOrder(cs)
    ensures cs == OfBand(cs, BAND_2GHZ) + OfBand(cs, BAND_5GHZ) + OfBand(cs, BAND_6GHZ)
  {
    if cs != [] {
      var m := |cs| - 1;
      var front, last := cs[..m], cs[m];
      SlicesCover(front);
      assert cs == front + [last];
      if last.band != BAND_6GHZ { NoneAbove(cs, BAND_6GHZ); }
      if last.band == BAND_2GHZ { NoneAbove(cs, BAND_5GHZ); }
      var a, b, c := OfBand(front, BAND_2GHZ), OfBand(front, BAND_5GHZ), OfBand(front, BAND_6GHZ);
      var n := if last.band == BAND_2GHZ then 0 else if last.band == BAND_5GHZ then 1 else 2;
      assert OfBand(cs, BAND_2GHZ) == (if n == 0 then a + [last] else a)
             && OfBand(cs, BAND_5GHZ) == (if n == 1 then b + [last] else b)
             && OfBand(cs, BAND_6GHZ) == (if n == 2 then c + [last] else c);
      hide OfBand, InBandOrder;
      AppendThird(a, b, c, last, n);
    }
  }

  lemma AppendThird(a: seq<Channel>, b: seq<Channel>, c: seq<Channel>, x: Channel, n: nat)
    requires n <= 2 && (n < 2 ==> c == []) && (n < 1 ==> b == [])
    ensures (if n == 0 then a + [x] else a) + (if n == 1 then b + [x] else b) + (if n == 2 then c + [x] else c) == a + b + c + [x]
  {
  }

  lemma SlicesCount(cs: seq<Channel>)
    requires InBandOrder(cs)
    ensures |OfBand(cs, BAND_2GHZ)| + |OfBand(cs, BAND_5GHZ)| + |OfBand(cs, BAND_6GHZ)| == |cs|
  {
    SlicesCover(cs);
  }

  // Before a channel of a lower band there is none of a higher one.
  lemma NoneAbove(cs: seq<Channel>, b: Band)
    requires InBandOrder(cs) && cs != [] && Rank(cs[|cs| - 1].band) < Rank(b)
    ensures OfBand(cs[..|cs| - 1], b) == []
  {
    var m := |cs| - 1;
    forall i | 0 <= i < m
      ensures cs[i].band != b
    {
      assert Rank(cs[i].band) <= Rank(cs[m].band);
    }
    NoneOfBand(cs[..m], b);
  }
}
