/** How the driver escalates device resets (iwlwifi/iwl-trans.c:22-28, 62-71, 127-199, 230-247). */
module ResetEscalation {

  // In the order of the source's enumeration, which the comparison of modes uses.
  datatype Mode = SW_RESET | REPROBE | TOP_RESET | REMOVE_ONLY | RESCAN | FUNC_RESET | PROD_RESET | BACKOFF

  function Rank(m: Mode): nat {
    match m
    case SW_RESET => 0 case REPROBE => 1 case TOP_RESET => 2 case REMOVE_ONLY => 3
    case RESCAN => 4 case FUNC_RESET => 5 case PROD_RESET => 6 case BACKOFF => 7
  }

  function Max(a: Mode, b: Mode): Mode { if Rank(a) >= Rank(b) then a else b }

  const RESET_OK_TIME := 7 // seconds
  const WRAP := 0x1_0000_0000 // the count is an unsigned int

  const ESCALATION_LIST_OLD: seq<Mode> := [SW_RESET, REPROBE, REPROBE, FUNC_RESET, PROD_RESET]
  const ESCALATION_LIST_TOP: seq<Mode> :=
    [SW_RESET, REPROBE, REPROBE, FUNC_RESET, TOP_RESET, PROD_RESET, TOP_RESET, PROD_RESET, TOP_RESET, PROD_RESET]

  function Escalation(topSupported: bool): (l: seq<Mode>)
    ensures 0 < |l| <= 10 && forall m | m in l :: m != BACKOFF
  {
    if topSupported then ESCALATION_LIST_TOP else ESCALATION_LIST_OLD
  }

  // What is remembered about a device, across reprobes.
  datatype Data = Data(count: nat, lastError: int, backoff: bool)

  // A device failure, when the worker gets to it.
  datatype Failure = Failure(now: int, duringReset: bool, topRequested: bool, topFailed: bool)

  function Floor(f: Failure): Mode { if f.duringReset then REPROBE else SW_RESET }

  // The escalating part of the decision.
  function Escalate(d: Data, f: Failure, list: seq<Mode>): (Mode, Data)
    requires list != []
  {
    var count := if !d.backoff && f.now - d.lastError >= RESET_OK_TIME then 0 else d.count;
    if count < |list| then (Max(Floor(f), list[count]), d.(count := count))
    else if !d.backoff then (BACKOFF, d.(count := count, backoff := true))
    else (Max(Floor(f), list[|list| - 1]), d.(count := count, backoff := false))
  }

  function Decide(d: Data, f: Failure, topSupported: bool): (Mode, Data) {
    if f.topFailed then (PROD_RESET, d)
    else if f.topRequested then (if topSupported then TOP_RESET else PROD_RESET, d)
    else Escalate(d, f, Escalation(topSupported))
  }

  // A reset is counted unless it is put off.
  function Counted(d: Data, now: int): Data { Data((d.count + 1) % WRAP, now, d.backoff) }

  function Counting(decided: (Mode, Data), now: int): (Mode, Data) {
    (decided.0, if decided.0 == BACKOFF then decided.1 else Counted(decided.1, now))
  }

  function Handle(d: Data, f: Failure, topSupported: bool): (Mode, Data) {
    Counting(Decide(d, f, topSupported), f.now)
  }

  class RestartData {
    var restartCount: nat
    var lastError: int
    var backoff: bool

    constructor ()
      ensures Now() == Data(0, 0, false)
    {
      restartCount, lastError, backoff := 0, 0, false;
    }

    function Now(): Data
      reads this
    {
      Data(restartCount, lastError, backoff)
    }

    /** iwl_trans_determine_restart_mode. */
    method DetermineRestartMode(f: Failure, topSupported: bool) returns (mode: Mode)
      modifies this`restartCount, this`backoff
      ensures (mode, Now()) == Decide(old(Now()), f, topSupported)
    {
      var atLeast := SW_RESET;
      if f.topFailed { return PROD_RESET; }
      if f.topRequested {
        if topSupported { return TOP_RESET; }
        return PROD_RESET;
      }
      var list := Escalation(topSupported);
      if f.duringReset { atLeast := REPROBE; }
      if !backoff && f.now - lastError >= RESET_OK_TIME { restartCount := 0; }
      var index := restartCount;
      if index >= |list| {
        index := |list| - 1;
        if !backoff {
          backoff := true;
          return BACKOFF;
        }
        backoff := false;
      }
      mode := Max(atLeast, list[index]);
    }

    /** iwl_trans_inc_restart_count. */
    method IncRestartCount(now: int)
      modifies this`restartCount, this`lastError
      ensures Now() == Counted(old(Now()), now)
    {
      lastError := now;
      restartCount := (restartCount + 1) % WRAP;
    }

    /** The part of the restart worker that decides and counts. */
    method Work(f: Failure, topSupported: bool) returns (mode: Mode)
      modifies this
      ensures (mode, Now()) == Handle(old(Now()), f, topSupported)
    {
      mode := DetermineRestartMode(f, topSupported);
      if mode == BACKOFF { return; }
      IncRestartCount(f.now);
    }

    /** A run of failures. */
    method Run(fs: seq<Failure>, topSupported: bool) returns (modes: seq<Mode>)
      modifies this
      ensures modes == Modes(old(Now()), fs, topSupported) && Now() == After(old(Now()), fs, topSupported)
    {
      modes := [];
      for i := 0 to |fs|
        invariant modes == Modes(old(Now()), fs[..i], topSupported) && Now() == After(old(Now()), fs[..i], topSupported)
      {
        assert fs[..i + 1][..i] == fs[..i];
        var mode := Work(fs[i], topSupported);
        modes := modes + [mode];
      }
      assert fs[..|fs|] == fs;
    }
  }

  // ---------- runs ----------

  function After(d: Data, fs: seq<Failure>, topSupported: bool): Data {
    if fs == [] then d else Handle(After(d, fs[..|fs| - 1], topSupported), fs[|fs| - 1], topSupported).1
  }

  function Modes(d: Data, fs: seq<Failure>, topSupported: bool): (ms: seq<Mode>)
    ensures |ms| == |fs|
  {
    if fs == [] then []
    else Modes(d, fs[..|fs| - 1], topSupported)
         + [Handle(After(d, fs[..|fs| - 1], topSupported), fs[|fs| - 1], topSupported).0]
  }

  // Failure i follows a decision to back off.
  predicate AfterBackoff(i: nat, n: nat) {
    i > n && (i - n) % 2 == 1
  }

  // The decision that the law gives for failure i on a list of n entries.
  function Expected(i: nat, list: seq<Mode>, f: Failure): Mode
    requires list != []
  {
    if i < |list| then Max(Floor(f), list[i])
    else if AfterBackoff(i, |list|) then Max(Floor(f), list[|list| - 1])
    else BACKOFF
  }

  // Each failure comes soon after the last counted one, except that a backoff may last any time.
  ghost predicate Prompt(fs: seq<Failure>, n: nat) {
    forall i | 0 < i < |fs| && !AfterBackoff(i, n) :: SoonAfter(fs, i)
  }

  ghost predicate SoonAfter(fs: seq<Failure>, i: nat)
    requires 0 < i < |fs|
  {
    fs[i].now - fs[i - 1].now < RESET_OK_TIME
  }

  ghost predicate NoTop(fs: seq<Failure>) {
    forall f | f in fs :: !f.topRequested && !f.topFailed
  }

  // Every decision of the run is the one the law gives.
  ghost predicate Follows(modes: seq<Mode>, fs: seq<Failure>, list: seq<Mode>)
    requires list != []
  {
    |modes| == |fs| && forall i | 0 <= i < |fs| :: modes[i] == Expected(i, list, fs[i])
  }

  lemma FollowsMore(modes: seq<Mode>, fs: seq<Failure>, list: seq<Mode>, mode: Mode, f: Failure)
    requires list != [] && Follows(modes, fs, list) && mode == Expected(|fs|, list, f)
    ensures Follows(modes + [mode], fs + [f], list)
  {
    hide Expected;
  }

  // Where the record stands before failure i of such a run.
  ghost function Standing(i: nat, n: nat, last: int): Data {
    if i <= n then Data(i, last, false)
    else Data(n + (i - n) / 2, last, AfterBackoff(i, n))
  }

  /** The law of a whole run: the first resets walk up the escalation list, and past its end backing
      off and the last entry alternate; a reset during a reset is never below a reprobe. */
  lemma {:induction false} EscalationLaw(d: Data, fs: seq<Failure>, topSupported: bool)
    requires d.count == 0 && !d.backoff && |fs| < WRAP
    requires NoTop(fs) && Prompt(fs, |Escalation(topSupported)|)
    ensures Follows(Modes(d, fs, topSupported), fs, Escalation(topSupported))
    ensures var n := |Escalation(topSupported)|;
            var e := After(d, fs, topSupported);
            && e == Standing(|fs|, n, e.lastError)
            && (fs != [] && !AfterBackoff(|fs|, n) ==> e.lastError == fs[|fs| - 1].now)
  {
    if fs != [] {
      var n := |fs| - 1;
      var front, f := fs[..n], fs[n];
      var list := Escalation(topSupported);
      assert fs == front + [f] && f in fs;
      ModesOne(d, front, f, topSupported);
      PromptFront(fs, |list|);
      hide Modes, After, Expected, Escalate, Escalation, Prompt;
      EscalationLaw(d, front, topSupported);
      var e := After(d, front, topSupported);
      StandingStep(n, list, e, f);
      FollowsMore(Modes(d, front, topSupported), front, list, Handle(e, f, topSupported).0, f);
    }
  }

  lemma ModesOne(d: Data, fs: seq<Failure>, f: Failure, topSupported: bool)
    ensures var step := Handle(After(d, fs, topSupported), f, topSupported);
            && Modes(d, fs + [f], topSupported) == Modes(d, fs, topSupported) + [step.0]
            && After(d, fs + [f], topSupported) == step.1
  {
    assert (fs + [f])[..|fs|] == fs;
  }

  lemma PromptFront(fs: seq<Failure>, m: nat)
    requires fs != [] && Prompt(fs, m) && NoTop(fs)
    ensures var n := |fs| - 1;
            && Prompt(fs[..n], m) && NoTop(fs[..n])
            && (n > 0 && !AfterBackoff(n, m) ==> fs[n].now - fs[n - 1].now < RESET_OK_TIME)
  {
    var n := |fs| - 1;
    var front := fs[..n];
    assert forall i | 0 < i < n :: SoonAfter(fs, i) ==> SoonAfter(front, i);
    assert n > 0 && !AfterBackoff(n, m) ==> SoonAfter(fs, n);
  }

  // One failure moves the record from one standing to the next.
  lemma StandingStep(i: nat, list: seq<Mode>, e: Data, f: Failure)
    requires 0 < |list| <= 10 && i + 1 < WRAP && (forall m | m in list :: m != BACKOFF)
    requires e == Standing(i, |list|, e.lastError)
    requires i > 0 && !AfterBackoff(i, |list|) ==> f.now - e.lastError < RESET_OK_TIME
    ensures var (mode, e') := Escalate(e, f, list);
            && mode == Expected(i, list, f)
            && (if mode == BACKOFF then e' else Counted(e', f.now)) == Standing(i + 1, |list|, if mode == BACKOFF then e.lastError else f.now)
            && (mode == BACKOFF <==> AfterBackoff(i + 1, |list|))
  {
    assert i < |list| ==> list[i] in list;
    assert list[|list| - 1] in list;
  }

  // Failures seven and more seconds apart are not prompt.
  ghost predicate Quick(fs: seq<Failure>) {
    forall i, j | 0 <= i < j < |fs| :: fs[j].now - fs[i].now < 7
  }

  /** The decisions for a quick run of failures of a new device, none of them during a reset. */
  lemma QuickRun(fs: seq<Failure>, topSupported: bool)
    requires Quick(fs) && NoTop(fs) && (forall f | f in fs :: !f.duringReset)
    requires |fs| == if topSupported then 14 else 9
    ensures Modes(Data(0, 0, false), fs, topSupported)
            == if topSupported then
                 [SW_RESET, REPROBE, REPROBE, FUNC_RESET, TOP_RESET, PROD_RESET, TOP_RESET, PROD_RESET, TOP_RESET, PROD_RESET,
                  BACKOFF, PROD_RESET, BACKOFF, PROD_RESET]
               else [SW_RESET, REPROBE, REPROBE, FUNC_RESET, PROD_RESET, BACKOFF, PROD_RESET, BACKOFF, PROD_RESET]
  {
    var list, d := Escalation(topSupported), Data(0, 0, false);
    var ms := Modes(d, fs, topSupported);
    assert Prompt(fs, |list|) by {
      forall i | 0 < i < |fs|
        ensures SoonAfter(fs, i)
      {
        assert fs[i].now - fs[i - 1].now < 7;
      }
    }
    EscalationLaw(d, fs, topSupported);
    hide Modes, After, Escalate;
    assert forall i | 0 <= i < |fs| :: fs[i] in fs;
    assert forall i | 0 <= i < |fs| :: Floor(fs[i]) == SW_RESET;
    if topSupported { TopRun(ms, fs); } else { OldRun(ms, fs); }
  }

  lemma OldRun(ms: seq<Mode>, fs: seq<Failure>)
    requires |fs| == 9 && Follows(ms, fs, ESCALATION_LIST_OLD) && forall i | 0 <= i < 9 :: Floor(fs[i]) == SW_RESET
    ensures ms == [SW_RESET, REPROBE, REPROBE, FUNC_RESET, PROD_RESET, BACKOFF, PROD_RESET, BACKOFF, PROD_RESET]
  {
    assert ms[0] == SW_RESET && ms[1] == REPROBE && ms[2] == REPROBE && ms[3] == FUNC_RESET && ms[4] == PROD_RESET;
    assert ms[5] == BACKOFF && ms[6] == PROD_RESET && ms[7] == BACKOFF && ms[8] == PROD_RESET;
  }

  lemma TopRun(ms: seq<Mode>, fs: seq<Failure>)
    requires |fs| == 14 && Follows(ms, fs, ESCALATION_LIST_TOP) && forall i | 0 <= i < 14 :: Floor(fs[i]) == SW_RESET
    ensures ms == [SW_RESET, REPROBE, REPROBE, FUNC_RESET, TOP_RESET, PROD_RESET, TOP_RESET, PROD_RESET, TOP_RESET, PROD_RESET,
                   BACKOFF, PROD_RESET, BACKOFF, PROD_RESET]
  {
    assert ms[0] == SW_RESET && ms[1] == REPROBE && ms[2] == REPROBE && ms[3] == FUNC_RESET;
    assert ms[4] == ms[6] == ms[8] == TOP_RESET && ms[5] == ms[7] == ms[9] == PROD_RESET;
    assert ms[10] == ms[12] == BACKOFF && ms[11] == ms[13] == PROD_RESET;
  }

  /** What the walk does not decide: a failed TOP reset is answered by a PROD reset, and a requested TOP
      reset is granted where it is supported; both count, wherever the walk stands.  A failure during a
      reset is never answered by a software reset alone. */
  lemma OffTheWalk(d: Data, f: Failure, topSupported: bool)
    ensures f.topFailed ==> Handle(d, f, topSupported) == (PROD_RESET, Data((d.count + 1) % 0x1_0000_0000, f.now, d.backoff))
    ensures !f.topFailed && f.topRequested ==>
              Handle(d, f, topSupported)
              == (if topSupported then TOP_RESET else PROD_RESET, Data((d.count + 1) % 0x1_0000_0000, f.now, d.backoff))
    ensures f.duringReset ==> Handle(d, f, topSupported).0 != SW_RESET
  {
  }

  /** A quiet spell starts the walk anew, unless a reset has been put off. */
  lemma QuietSpell(d: Data, f: Failure, topSupported: bool)
    requires !f.topRequested && !f.topFailed && f.now - d.lastError >= 7
    ensures !d.backoff ==> Handle(d, f, topSupported) == (if f.duringReset then REPROBE else SW_RESET, Data(1, f.now, false))
    ensures d.backoff && d.count >= (if topSupported then 10 else 5) ==>
              Handle(d, f, topSupported) == (PROD_RESET, Data((d.count + 1) % 0x1_0000_0000, f.now, false))
  {
    var list := Escalation(topSupported);
    assert list[0] in list && list[|list| - 1] in list;
  }
}
