/** The regulatory rules built from the firmware's channel list (iwlwifi/iwl-nvm-parse.c:1962-2106):
    neighbouring valid channels with equal flags share one rule. */
module Regulatory {

  // One entry of the channel list: its centre in MHz (0 if the number is not a channel), whether the
  // firmware calls it valid, and its regulatory flags.
  datatype Chan = Chan(freq: nat, valid: bool, flags: nat)

  // A rule's range and bandwidth in kHz.
  datatype Rule = Rule(start: int, end: int, maxBandwidth: nat, flags: nat, autoBw: bool)

  const EMPTY := Rule(0, 0, 0, 0, false)
  const DUMMY := Rule(2412000, 2413000, 1000, 0, false)
  const LOWEST := 20 // every channel lies above this, in MHz

  function Khz(mhz: int): int { mhz * 1000 }

  predicate Counts(c: Chan) { c.freq != 0 && c.valid }

  // The channels that take part, in list order.
  function Valids(cs: seq<Chan>): (r: seq<Chan>)
    ensures |r| <= |cs|
  {
    if cs == [] then []
    else Valids(cs[..|cs| - 1]) + if Counts(cs[|cs| - 1]) then [cs[|cs| - 1]] else []
  }

  // b continues the rule of a.
  predicate Linked(a: Chan, b: Chan) {
    a.flags == b.flags && b.freq - a.freq <= 20
  }

  // Channel i starts a new run.
  predicate Break(vs: seq<Chan>, i: nat)
    requires i < |vs|
  {
    i == 0 || !Linked(vs[i - 1], vs[i])
  }

  // Where the maximal runs of linked channels start.
  function Starts(vs: seq<Chan>): (r: seq<nat>)
    ensures |r| <= |vs| && (vs != [] ==> r != [])
  {
    if vs == [] then []
    else Starts(vs[..|vs| - 1]) + if Break(vs, |vs| - 1) then [|vs| - 1] else []
  }

  /** The starts are exactly the breaks, in increasing order. */
  lemma {:induction false} StartsExact(vs: seq<Chan>)
    ensures forall i: nat :: i in Starts(vs) <==> 0 <= i < |vs| && Break(vs, i)
    ensures forall j, k | 0 <= j < k < |Starts(vs)| :: Starts(vs)[j] < Starts(vs)[k]
    ensures vs != [] ==> Starts(vs)[0] == 0
  {
    if vs != [] {
      var n := |vs| - 1;
      var front := vs[..n];
      StartsExact(front);
      var starts := Starts(vs);
      assert starts == Starts(front) + if Break(vs, n) then [n] else [];
      hide Starts;
      forall i: nat
        ensures i in starts <==> i < |vs| && Break(vs, i)
      {
        if i < n { assert Break(front, i) <==> Break(vs, i); }
      }
      forall j | 0 <= j < |Starts(front)|
        ensures Starts(front)[j] < n
      {
        assert Starts(front)[j] in Starts(front);
      }
    }
  }

  // Where run k ends, exclusively.
  function End(vs: seq<Chan>, k: nat): (e: nat)
    requires k < |Starts(vs)|
  {
    if k + 1 < |Starts(vs)| then Starts(vs)[k + 1] else |vs|
  }

  /** Run k is a nonempty stretch of linked channels, and no longer stretch contains it. */
  lemma RunIsMaximal(vs: seq<Chan>, k: nat)
    requires k < |Starts(vs)|
    ensures var s, e := Starts(vs)[k], End(vs, k);
            && s < e <= |vs|
            && (forall i | s < i < e :: !Break(vs, i))
            && Break(vs, s) && (e < |vs| ==> Break(vs, e))
  {
    StartsExact(vs);
    var starts := Starts(vs);
    hide Starts;
    assert starts[k] in starts;
    if k + 1 < |starts| { assert starts[k + 1] in starts; }
    forall i | starts[k] < i < End(vs, k)
      ensures !Break(vs, i)
    {
      forall j | 0 <= j < |starts|
        ensures starts[j] != i
      {
        assert j < k ==> starts[j] < starts[k];
        assert k + 1 < j ==> starts[k + 1] < starts[j];
      }
    }
  }

  /** Every channel lies in exactly one run. */
  lemma {:induction false} RunOf(vs: seq<Chan>, i: nat) returns (k: nat)
    requires i < |vs|
    ensures k < |Starts(vs)| && Starts(vs)[k] <= i < End(vs, k)
    ensures forall j | 0 <= j < |Starts(vs)| && j != k :: !(Starts(vs)[j] <= i < End(vs, j))
  {
    StartsExact(vs);
    var starts := Starts(vs);
    hide Starts;
    k := |starts| - 1;
    while starts[k] > i
      invariant 0 <= k < |starts| && i < End(vs, k)
    {
      k := k - 1;
    }
  }

  // The rule for run k: from 10 MHz below its first channel to 10 MHz above its last one.
  function RuleFor(vs: seq<Chan>, k: nat): Rule
    requires k < |Starts(vs)|
  {
    RunIsMaximal(vs, k);
    Rule(Khz(vs[Starts(vs)[k]].freq - 10), Khz(vs[End(vs, k) - 1].freq + 10), 0, vs[End(vs, k) - 1].flags, true)
  }

  // The list the builder must produce.
  function Rules(cs: seq<Chan>): (r: seq<Rule>)
    ensures r != []
  {
    var vs := Valids(cs);
    if vs == [] then [DUMMY] else seq(|Starts(vs)|, k requires 0 <= k < |Starts(vs)| => RuleFor(vs, k))
  }

  // ---------- the builder ----------

  ghost predicate Built(rules: array<Rule>, vs: seq<Chan>)
    reads rules
  {
    |Starts(vs)| <= rules.Length && forall k | 0 <= k < |Starts(vs)| :: rules[k] == RuleFor(vs, k)
  }

  // One more channel leaves all earlier runs as they are, and extends the last one or starts a new one.
  lemma OneMore(vs: seq<Chan>, v: Chan)
    ensures var vs' := vs + [v]; var n := |Starts(vs)|;
            && Starts(vs') == (if vs == [] || !Linked(vs[|vs| - 1], v) then Starts(vs) + [|vs|] else Starts(vs))
            && (forall k | 0 <= k < n :: k + 1 < n || |Starts(vs')| == n + 1 ==> RuleFor(vs', k) == RuleFor(vs, k))
            && (|Starts(vs')| == n + 1 ==> RuleFor(vs', n) == Rule(Khz(v.freq - 10), Khz(v.freq + 10), 0, v.flags, true))
            && (|Starts(vs')| == n ==> n > 0 && RuleFor(vs', n - 1) == Rule(RuleFor(vs, n - 1).start, Khz(v.freq + 10), 0, v.flags, true))
  {
    var vs' := vs + [v];
    assert vs'[..|vs|] == vs;
    assert vs != [] ==> (Break(vs', |vs|) <==> !Linked(vs[|vs| - 1], v));
    hide Starts;
    forall k | 0 <= k < |Starts(vs)|
      ensures Starts(vs)[k] < End(vs, k) <= |vs|
    {
      RunIsMaximal(vs, k);
    }
  }

  // The loop's state after the valid channels vs.
  ghost predicate Progress(regRules: array<Rule>, vs: seq<Chan>, count: nat, prevFreq: nat, prevFlags: nat)
    reads regRules
  {
    && count == |Starts(vs)| <= |vs| && Built(regRules, vs)
    && if vs == [] then prevFreq == 0 && prevFlags == 0
       else prevFreq == vs[|vs| - 1].freq && prevFlags == vs[|vs| - 1].flags
  }

  // The part of the loop body for a valid channel; prevFreq and prevFlags are those of the last one.
  method AddChannel(regRules: array<Rule>, count: nat, c: Chan, first: bool, prevFreq: nat, prevFlags: nat, ghost vs: seq<Chan>)
      returns (count': nat)
    requires Progress(regRules, vs, count, prevFreq, prevFlags) && |vs| < regRules.Length && c.freq > LOWEST
    requires first ==> vs == []
    modifies regRules
    ensures Progress(regRules, vs + [c], count', c.freq, c.flags)
  {
    OneMore(vs, c);
    hide Starts, RuleFor, End;
    count' := count;
    var newRule := false;
    if first || prevFlags != c.flags || c.freq - prevFreq > 20 {
      count' := count' + 1;
      newRule := true;
    }
    if newRule { regRules[count' - 1] := regRules[count' - 1].(start := Khz(c.freq - 10)); }
    regRules[count' - 1] := Rule(regRules[count' - 1].start, Khz(c.freq + 10), 0, c.flags, true);
  }

  /** iwl_parse_nvm_mcc_info's loop over the channels: the array has a slot per channel and is filled
      from the front.  Only the dummy rule for an empty list has no slot (`fits` is false). */
  method BuildRules(cs: seq<Chan>) returns (regRules: array<Rule>, count: nat, fits: bool)
    requires forall c | c in cs :: c.freq == 0 || c.freq > LOWEST
    ensures fresh(regRules) && regRules.Length == |cs| && count == |Rules(cs)|
    ensures fits <==> cs != []
    ensures fits ==> count <= regRules.Length && regRules[..count] == Rules(cs)
  {
    regRules := new Rule[|cs|](_ => EMPTY);
    fits := true;
    count := AddChannels(regRules, cs);
    RulesByRun(cs);
    hide Valids, Starts, RuleFor, Rules;
    if count == 0 {
      count := 1;
      if regRules.Length == 0 { return regRules, count, false; }
      regRules[0] := DUMMY;
    }
  }

  // The loop itself.
  method AddChannels(regRules: array<Rule>, cs: seq<Chan>) returns (count: nat)
    requires regRules.Length == |cs| && forall c | c in cs :: c.freq == 0 || c.freq > LOWEST
    modifies regRules
    ensures count == |Starts(Valids(cs))| <= |cs| && Built(regRules, Valids(cs))
  {
    count := 0;
    var prevFreq, prevFlags := 0, 0;
    ghost var vs: seq<Chan> := [];
    for i := 0 to |cs|
      invariant vs == Valids(cs[..i]) && |vs| <= i
      invariant Progress(regRules, vs, count, prevFreq, prevFlags)
    {
      var c := cs[i];
      ValidsStep(cs, i);
      hide Valids, Progress;
      if c.freq == 0 { continue; }
      if !c.valid { continue; }
      count := AddChannel(regRules, count, c, i == 0, prevFreq, prevFlags, vs);
      prevFreq, prevFlags := c.freq, c.flags;
      vs := vs + [c];
    }
    assert cs[..|cs|] == cs;
  }

  lemma RulesByRun(cs: seq<Chan>)
    ensures var vs := Valids(cs);
            && (|Starts(vs)| == 0 ==> Rules(cs) == [DUMMY])
            && (|Starts(vs)| > 0 ==> |Rules(cs)| == |Starts(vs)| && forall k | 0 <= k < |Starts(vs)| :: Rules(cs)[k] == RuleFor(vs, k))
  {
  }

  lemma ValidsStep(cs: seq<Chan>, i: nat)
    requires i < |cs|
    ensures cs[i] in cs && Valids(cs[..i + 1]) == Valids(cs[..i]) + if Counts(cs[i]) then [cs[i]] else []
  {
    assert cs[..i + 1][..i] == cs[..i];
  }

  // ---------- what the rules cover ----------

  /** At least one rule, and no more than there are valid channels; so the array's slots, one per
      channel, are enough unless the list is empty.  The dummy rule stands for no valid channel. */
  lemma RuleCount(cs: seq<Chan>)
    ensures 1 <= |Rules(cs)| <= (if Valids(cs) == [] then 1 else |Valids(cs)|)
    ensures |Rules(cs)| <= |cs| <==> cs != []
    ensures (forall c | c in cs :: c.freq == 0 || !c.valid) ==> Rules(cs) == [Rule(2412000, 2413000, 1000, 0, false)]
  {
    ValidsMembers(cs);
    assert Valids(cs) != [] ==> Valids(cs)[0] in Valids(cs);
  }

  // How far channel i lies above the one before it, in MHz.
  function Gap(vs: seq<Chan>, i: nat): int
    requires 0 < i < |vs|
  {
    vs[i].freq - vs[i - 1].freq
  }

  // A rule stands for a stretch of channels that have its flags and are at most 20 MHz apart, and
  // reaches 10 MHz beyond both ends; the channels next to the stretch do not belong to it.
  ghost predicate StandsFor(r: Rule, vs: seq<Chan>, s: nat, e: nat) {
    && s < e <= |vs|
    && r == Rule(vs[s].freq * 1000 - 10000, vs[e - 1].freq * 1000 + 10000, 0, vs[s].flags, true)
    && (forall i | s <= i < e :: vs[i].flags == r.flags)
    && (forall i | s < i < e :: Gap(vs, i) <= 20)
    && (s > 0 ==> vs[s - 1].flags != r.flags || Gap(vs, s) > 20)
    && (e < |vs| ==> vs[e].flags != r.flags || Gap(vs, e) > 20)
  }

  /** Every rule stands for such a stretch of the valid channels. */
  lemma RuleIs(cs: seq<Chan>, k: nat) returns (s: nat, e: nat)
    requires Valids(cs) != [] && k < |Rules(cs)|
    ensures StandsFor(Rules(cs)[k], Valids(cs), s, e)
  {
    var vs := Valids(cs);
    s, e := RunStandsFor(vs, k);
    hide StandsFor;
    assert Rules(cs)[k] == RuleFor(vs, k);
  }

  lemma RunStandsFor(vs: seq<Chan>, k: nat) returns (s: nat, e: nat)
    requires k < |Starts(vs)|
    ensures StandsFor(RuleFor(vs, k), vs, s, e)
  {
    s, e := Starts(vs)[k], End(vs, k);
    RunIsMaximal(vs, k);
    var r := RuleFor(vs, k);
    hide Starts, End, RuleFor;
    OneStretch(vs, s, e);
    assert s > 0 ==> !Linked(vs[s - 1], vs[s]);
    assert e < |vs| ==> !Linked(vs[e - 1], vs[e]);
  }

  lemma {:induction false} OneStretch(vs: seq<Chan>, s: nat, e: nat)
    requires s < e <= |vs| && forall i | s < i < e :: !Break(vs, i)
    ensures forall i | s <= i < e :: vs[i].flags == vs[s].flags
    ensures forall i | s < i < e :: Gap(vs, i) <= 20
  {
    for i := s + 1 to e
      invariant forall j | s <= j < i :: vs[j].flags == vs[s].flags
      invariant forall j | s < j < i :: Gap(vs, j) <= 20
    {
      assert !Break(vs, i);
    }
  }

  // Channels come in the order of their frequencies; those that are no channels do not matter.
  ghost predicate Increasing(cs: seq<Chan>) {
    forall i, j | 0 <= i < j < |cs| && cs[i].freq != 0 && cs[j].freq != 0 :: cs[i].freq < cs[j].freq
  }

  // No other channel is less than 20 MHz away from channel i.
  ghost predicate Isolated(cs: seq<Chan>, i: nat)
    requires i < |cs|
  {
    forall j | 0 <= j < |cs| && j != i && cs[j].freq != 0 :: cs[j].freq <= cs[i].freq - 20 || cs[i].freq + 20 <= cs[j].freq
  }

  // Channels j and m are valid, and none between them is, except perhaps channel i.
  ghost predicate Neighbours(cs: seq<Chan>, j: nat, i: nat, m: nat) {
    && j < i < m < |cs|
    && cs[j].freq != 0 && cs[j].valid && cs[m].freq != 0 && cs[m].valid
    && forall x | j < x < m && x != i :: cs[x].freq == 0 || !cs[x].valid
  }

  // The valid channels next to channel i, one before it and one after it, have the same flags and are
  // at most 20 MHz apart.
  ghost predicate Bridged(cs: seq<Chan>, i: nat) {
    exists j: nat, m: nat :: Neighbours(cs, j, i, m) && cs[j].flags == cs[m].flags && cs[m].freq <= cs[j].freq + 20
  }

  // They share a rule: the p-th valid channel does not start a run.
  predicate Shared(vs: seq<Chan>, p: nat) {
    0 < p < |vs| && Linked(vs[p - 1], vs[p])
  }

  predicate Covers(r: Rule, freq: int) {
    r.start <= Khz(freq - 10) && Khz(freq + 10) <= r.end
  }

  ghost predicate Covered(cs: seq<Chan>, i: nat)
    requires i < |cs|
  {
    exists k :: 0 <= k < |Rules(cs)| && Covers(Rules(cs)[k], cs[i].freq)
  }

  lemma {:induction false} ValidsMembers(cs: seq<Chan>)
    ensures forall c :: c in Valids(cs) <==> c in cs && Counts(c)
  {
    if cs != [] {
      var n := |cs| - 1;
      assert cs == cs[..n] + [cs[n]];
      ValidsMembers(cs[..n]);
    }
  }

  lemma {:induction false} ValidsConcat(a: seq<Chan>, b: seq<Chan>)
    ensures Valids(a + b) == Valids(a) + Valids(b)
  {
    if b == [] {
      assert a + b == a;
    } else {
      var n := |b| - 1;
      ValidsConcat(a, b[..n]);
      assert (a + b)[..|a + b| - 1] == a + b[..n];
    }
  }

  lemma SplitAt(cs: seq<Chan>, i: nat)
    requires i <= |cs|
    ensures Valids(cs) == Valids(cs[..i]) + Valids(cs[i..])
  {
    hide *;
    var a, b := cs[..i], cs[i..];
    assert a + b == cs;
    ValidsConcat(a, b);
  }

  lemma ValidsOne(c: Chan)
    ensures Valids([c]) == if Counts(c) then [c] else []
  {
    assert [c][..0] == [];
  }

  // All of s lie below f, by at least `gap`.
  ghost predicate Below(s: seq<Chan>, f: int, gap: int) {
    forall c | c in s :: c.freq <= f - gap
  }

  ghost predicate Above(s: seq<Chan>, f: int, gap: int) {
    forall c | c in s :: f + gap <= c.freq
  }

  // The valid channels are those before channel i, itself if it is valid, and those after it.
  lemma Parts(cs: seq<Chan>, i: nat)
    requires i < |cs|
    ensures Valids(cs) == Valids(cs[..i]) + (if Counts(cs[i]) then [cs[i]] else []) + Valids(cs[i + 1..])
  {
    ValidsStep(cs, i);
    SplitAt(cs, i + 1);
    hide *;
  }

  // Those before it lie below it, those after it above it, and far away if it is isolated.
  lemma Sides(cs: seq<Chan>, i: nat)
    requires Increasing(cs) && i < |cs| && cs[i].freq != 0
    ensures var gap := if Isolated(cs, i) then 20 else 1;
            Below(Valids(cs[..i]), cs[i].freq, gap) && Above(Valids(cs[i + 1..]), cs[i].freq, gap)
  {
    ValidsMembers(cs[..i]);
    ValidsMembers(cs[i + 1..]);
    hide Valids;
    assert forall c | c in cs[..i] && c.freq != 0 :: exists j :: 0 <= j < i && cs[j] == c;
    assert forall c | c in cs[i + 1..] && c.freq != 0 :: exists j :: i < j < |cs| && cs[j] == c;
  }

  // A rule covers just what lies between its first and its last channel.
  lemma CoversSpan(vs: seq<Chan>, k: nat, f: int)
    requires k < |Starts(vs)|
    ensures var s, e := Starts(vs)[k], End(vs, k);
            s < e <= |vs| && (Covers(RuleFor(vs, k), f) <==> vs[s].freq <= f <= vs[e - 1].freq)
  {
    RunIsMaximal(vs, k);
  }

  lemma {:induction false} ValidsIncreasing(cs: seq<Chan>)
    requires Increasing(cs)
    ensures Ordered(Valids(cs))
  {
    if cs != [] {
      var n := |cs| - 1;
      var front := cs[..n];
      ValidsIncreasing(front);
      ValidsMembers(front);
      assert forall c | c in front && c.freq != 0 && cs[n].freq != 0 :: c.freq < cs[n].freq;
    }
  }

  lemma {:induction false} LastValid(cs: seq<Chan>) returns (j: nat)
    requires Valids(cs) != []
    ensures j < |cs| && Counts(cs[j]) && cs[j] == Valids(cs)[|Valids(cs)| - 1]
    ensures forall x | j < x < |cs| :: !Counts(cs[x])
  {
    var n := |cs| - 1;
    if Counts(cs[n]) { return n; }
    j := LastValid(cs[..n]);
  }

  lemma {:induction false} FirstValid(cs: seq<Chan>) returns (j: nat)
    requires Valids(cs) != []
    ensures j < |cs| && Counts(cs[j]) && cs[j] == Valids(cs)[0]
    ensures forall x | 0 <= x < j :: !Counts(cs[x])
  {
    var n := |cs| - 1;
    if Valids(cs[..n]) != [] {
      j := FirstValid(cs[..n]);
    } else {
      ValidsMembers(cs[..n]);
      assert forall x | 0 <= x < n :: cs[x] in cs[..n];
      j := n;
    }
  }

  // For a channel that is not valid, its neighbours share a rule exactly if it is bridged.
  lemma BridgedIsShared(cs: seq<Chan>, i: nat)
    requires i < |cs| && !Counts(cs[i])
    ensures Bridged(cs, i) <==> Shared(Valids(cs), |Valids(cs[..i])|)
  {
    Parts(cs, i);
    var before, after := cs[..i], cs[i + 1..];
    ValidsMembers(before);
    ValidsMembers(after);
    var left, right := Valids(before), Valids(after);
    assert Valids(cs) == left + right;
    hide Valids;
    if left == [] || right == [] {
      NoBridge(cs, i);
    } else {
      var j := LastValid(before);
      var m := FirstValid(after);
      assert cs[j] == left[|left| - 1] && cs[m + i + 1] == right[0];
      Nearest(cs, i, j, m, before, after);
      OneBridge(cs, j, i, m + i + 1);
      hide *;
      SharedMiddle(left, right);
    }
  }

  lemma Nearest(cs: seq<Chan>, i: nat, j: nat, m: nat, before: seq<Chan>, after: seq<Chan>)
    requires i < |cs| && before == cs[..i] && after == cs[i + 1..]
    requires j < i && m < |after| && Counts(before[j]) && Counts(after[m])
    requires (forall x | j < x < i :: !Counts(before[x])) && forall x | 0 <= x < m :: !Counts(after[x])
    ensures Neighbours(cs, j, i, m + i + 1)
  {
    forall x | j < x < m + i + 1 && x != i
      ensures !Counts(cs[x])
    {
      if x < i { assert cs[x] == before[x]; } else { assert cs[x] == after[x - i - 1]; }
    }
  }

  // Without a valid channel on both sides there is no bridge.
  lemma NoBridge(cs: seq<Chan>, i: nat)
    requires i < |cs|
    requires (forall c | c in cs[..i] :: !Counts(c)) || (forall c | c in cs[i + 1..] :: !Counts(c))
    ensures !Bridged(cs, i)
  {
    forall j: nat, m: nat | j < i < m < |cs|
      ensures !(Counts(cs[j]) && Counts(cs[m]))
    {
      assert cs[j] == cs[..i][j] && cs[m] == cs[i + 1..][m - i - 1];
      assert cs[..i][j] in cs[..i] && cs[i + 1..][m - i - 1] in cs[i + 1..];
    }
  }

  lemma SharedMiddle(left: seq<Chan>, right: seq<Chan>)
    requires left != [] && right != []
    ensures Shared(left + right, |left|) <==> Linked(left[|left| - 1], right[0])
  {
  }

  // There is only one such pair.
  lemma OneBridge(cs: seq<Chan>, j: nat, i: nat, m: nat)
    requires Neighbours(cs, j, i, m)
    ensures Bridged(cs, i) <==> Linked(cs[j], cs[m])
  {
    forall j': nat, m': nat | Neighbours(cs, j', i, m')
      ensures j' == j && m' == m
    {
    }
  }

  /** On every increasing list, the 20 MHz around a channel lie inside some rule exactly when the
      channel is valid or the valid channels next to it have the same flags and are at most 20 MHz
      apart. */
  lemma RulesCover(cs: seq<Chan>, i: nat)
    requires Increasing(cs) && i < |cs| && cs[i].freq != 0
    ensures Covered(cs, i) <==> cs[i].valid || Bridged(cs, i)
  {
    var vs, left, f := Valids(cs), Valids(cs[..i]), cs[i].freq;
    var p := |left|;
    Parts(cs, i);
    Sides(cs, i);
    if !cs[i].valid { BridgedIsShared(cs, i); }
    hide Valids, Starts, Bridged;
    if cs[i].valid {
      CoveredBy(cs, vs, i, p);
    } else if Shared(vs, p) {
      assert vs[p - 1] == left[p - 1] && left[p - 1] in left;
      assert vs[p] == Valids(cs[i + 1..])[0];
      CoveredBy(cs, vs, i, p);
    } else {
      NotCovered(cs, vs, i, p);
    }
  }

  // A run that holds valid channels on both sides of channel i, or channel i itself, covers it.
  lemma CoveredBy(cs: seq<Chan>, vs: seq<Chan>, i: nat, p: nat)
    requires Increasing(cs) && i < |cs| && vs == Valids(cs) && p < |vs|
    requires vs[p] == cs[i] || (p > 0 && !Break(vs, p) && vs[p - 1].freq <= cs[i].freq <= vs[p].freq)
    ensures Covered(cs, i)
  {
    hide Valids, Starts;
    var k := RunOf(vs, p);
    ValidsIncreasing(cs);
    Inside(vs, k, p, cs[i].freq);
    assert Rules(cs)[k] == RuleFor(vs, k);
  }

  ghost predicate Ordered(vs: seq<Chan>) {
    forall p, q | 0 <= p < q < |vs| :: vs[p].freq < vs[q].freq
  }

  lemma Inside(vs: seq<Chan>, k: nat, p: nat, f: int)
    requires Ordered(vs) && k < |Starts(vs)| && Starts(vs)[k] <= p < End(vs, k) && p < |vs|
    requires vs[p].freq == f || (p > 0 && !Break(vs, p) && vs[p - 1].freq <= f <= vs[p].freq)
    ensures Covers(RuleFor(vs, k), f)
  {
    RunIsMaximal(vs, k);
    CoversSpan(vs, k, f);
    hide RuleFor;
    var s, e := Starts(vs)[k], End(vs, k);
    hide Starts, End;
    assert s < p ==> vs[s].freq <= vs[p - 1].freq;
    assert vs[p].freq <= vs[e - 1].freq && vs[s].freq <= vs[p].freq;
  }

  // No rule covers a channel between two that are not linked, or outside of all.
  lemma NotCovered(cs: seq<Chan>, vs: seq<Chan>, i: nat, p: nat)
    requires i < |cs| && vs == Valids(cs) && p <= |vs|
    requires Below(vs[..p], cs[i].freq, 1) && Above(vs[p..], cs[i].freq, 1)
    requires 0 < p < |vs| ==> Break(vs, p)
    ensures !Covered(cs, i)
  {
    forall k | 0 <= k < |Rules(cs)|
      ensures !Covers(Rules(cs)[k], cs[i].freq)
    {
      if vs != [] { Outside(vs, k, p, cs[i].freq); }
    }
  }

  lemma Outside(vs: seq<Chan>, k: nat, p: nat, f: int)
    requires k < |Starts(vs)| && p <= |vs| && Below(vs[..p], f, 1) && Above(vs[p..], f, 1)
    requires 0 < p < |vs| ==> Break(vs, p)
    ensures !Covers(RuleFor(vs, k), f)
  {
    RunIsMaximal(vs, k);
    CoversSpan(vs, k, f);
    hide RuleFor;
    var s, e := Starts(vs)[k], End(vs, k);
    hide Starts, End;
    if s >= p { assert vs[s] == vs[p..][s - p]; }
    if e <= p { assert vs[e - 1] == vs[..p][e - 1]; }
  }

  /** So where no other channel is less than 20 MHz away, as in the 5 and 6 GHz bands, a channel lies
      inside some rule exactly when it is valid, whatever the rest of the list looks like. */
  lemma RulesCoverValid(cs: seq<Chan>, i: nat)
    requires Increasing(cs) && i < |cs| && cs[i].freq != 0 && Isolated(cs, i)
    ensures Covered(cs, i) <==> cs[i].valid
  {
    RulesCover(cs, i);
    if !cs[i].valid {
      BridgedIsShared(cs, i);
      Parts(cs, i);
      Sides(cs, i);
      var vs, left, right := Valids(cs), Valids(cs[..i]), Valids(cs[i + 1..]);
      var p := |left|;
      hide Valids, Covered, Bridged;
      if 0 < p < |vs| {
        assert vs[p - 1] == left[p - 1] && left[p - 1] in left;
        assert vs[p] == right[0] && right[0] in right;
      }
    }
  }

  /** In the 2.4 GHz band, where channels are 5 MHz apart, it need not be: channel 2 is covered by the
      rule that channels 1 and 3 share. */
  lemma InvalidIsCovered(flags: nat)
    ensures var cs := [Chan(2412, true, flags), Chan(2417, false, flags), Chan(2422, true, flags)];
            Increasing(cs) && !cs[1].valid && Covered(cs, 1)
  {
    var cs := [Chan(2412, true, flags), Chan(2417, false, flags), Chan(2422, true, flags)];
    assert Neighbours(cs, 0, 1, 2);
    RulesCover(cs, 1);
  }
}
