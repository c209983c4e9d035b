/** Transmit block-ack sessions of one station (mac80211/agg-tx.c): a session per TID is opened and
    closed by API calls, timers, driver callbacks, peer frames and a worker, while the TX path keeps
    queueing frames. */
module BlockAckTx {

  const FIRST_TSPEC_TSID := 8
  const MAX_RETRIES := 15
  const BURST_RETRIES := 3
  const STA_MAX_TX_BUFFER := 64
  const MAX_AMPDU_BUF_HT := 64
  const MAX_AMPDU_BUF_HE := 256

  // The number of values of an unsigned long.
  type Wrap = x: nat | x == 0x1_0000_0000 || x == 0x1_0000_0000_0000_0000 witness 0x1_0000_0000

  const ENOENT := -2
  const EAGAIN := -11
  const ENOMEM := -12
  const EBUSY := -16
  const EINVAL := -22
  const EALREADY := -114

  datatype Action = START | OPERATIONAL | STOP_CONT | STOP_FLUSH | STOP_FLUSH_CONT
  datatype Reason = DECLINED | LOCAL_REQUEST | PEER_REQUEST | DESTROY_STA
  datatype Initiator = WLAN_BACK_RECIPIENT | WLAN_BACK_INITIATOR
  // The driver's answer to START.
  datatype StartAnswer = Ok | Immediate | DelayAddba | Denied
  datatype Frame = Frame(tid: nat, id: int)

  // ---------- the order of a session's driver actions ----------

  datatype Phase = Unstarted | Started | Running | Stopped | Bad

  function Next(p: Phase, a: Action): Phase {
    match a
    case START => if p == Unstarted then Started else Bad
    case OPERATIONAL => if p == Started then Running else Bad
    case STOP_CONT => if p == Started || p == Running then Stopped else Bad
    case STOP_FLUSH => if p == Started || p == Running then Stopped else Bad
    case STOP_FLUSH_CONT => if p == Stopped then Stopped else Bad
  }

  function PhaseOf(log: seq<Action>): Phase {
    if log == [] then Unstarted else Next(PhaseOf(log[..|log| - 1]), log[|log| - 1])
  }

  predicate IsStop(a: Action) {
    a in {STOP_CONT, STOP_FLUSH, STOP_FLUSH_CONT}
  }

  // START comes first and only first.
  ghost predicate StartsOnce(log: seq<Action>)
    requires log != []
  {
    log[0] == START && forall i | 0 < i < |log| :: log[i] != START
  }

  // OPERATIONAL comes second if at all.
  ghost predicate RunsSecond(log: seq<Action>) {
    forall i | 0 < i < |log| && log[i] == OPERATIONAL :: i == 1
  }

  // After a stop there are only flushes, and a further flush comes after a stop.
  ghost predicate FlushesLast(log: seq<Action>) {
    && (forall i, j | 0 < i < j < |log| && IsStop(log[i]) :: log[j] == STOP_FLUSH_CONT)
    && (forall j | 0 < j < |log| && log[j] == STOP_FLUSH_CONT :: IsStop(log[j - 1]))
  }

  // The words START, OPERATIONAL at most once, one stop, then flushes only.
  ghost predicate Orderly(log: seq<Action>) {
    log == [] || (StartsOnce(log) && RunsSecond(log) && FlushesLast(log))
  }

  // What may follow an orderly word.
  ghost predicate MayFollow(log: seq<Action>, a: Action) {
    if log == [] then a == START
    else
      match a
      case START => false
      case OPERATIONAL => |log| == 1
      case STOP_FLUSH_CONT => IsStop(log[|log| - 1])
      case _ => !IsStop(log[|log| - 1])
  }

  lemma FlushesExtend(log: seq<Action>, a: Action)
    requires log != [] && log[0] == START
    ensures FlushesLast(log + [a]) <==>
              FlushesLast(log) && (IsStop(log[|log| - 1]) <==> a == STOP_FLUSH_CONT)
  {
    var all, n := log + [a], |log|;
    assert all[n] == a && forall i | 0 <= i < n :: all[i] == log[i];
    if FlushesLast(log) && (IsStop(log[n - 1]) <==> a == STOP_FLUSH_CONT) {
      forall i, j | 0 < i < j < |all| && IsStop(all[i])
        ensures all[j] == STOP_FLUSH_CONT
      {
        assert i < n - 1 ==> log[n - 1] == STOP_FLUSH_CONT;
      }
    }
    if FlushesLast(all) {
      assert n > 1 && IsStop(all[n - 1]) ==> all[n] == STOP_FLUSH_CONT;
      forall i, j | 0 < i < j < n && IsStop(log[i])
        ensures log[j] == STOP_FLUSH_CONT
      {
        assert all[j] == STOP_FLUSH_CONT;
      }
      forall j | 0 < j < n && log[j] == STOP_FLUSH_CONT
        ensures IsStop(log[j - 1])
      {
        assert IsStop(all[j - 1]);
      }
    }
  }

  lemma OrderlyExtend(log: seq<Action>, a: Action)
    ensures Orderly(log + [a]) <==> Orderly(log) && MayFollow(log, a)
  {
    var all, n := log + [a], |log|;
    assert all[n] == a && forall i | 0 <= i < n :: all[i] == log[i];
    if log == [] {
      assert FlushesLast(all);
    } else if log[0] == START {
      FlushesExtend(log, a);
      hide FlushesLast;
      assert StartsOnce(all) <==> StartsOnce(log) && a != START;
      assert RunsSecond(all) <==> RunsSecond(log) && (a == OPERATIONAL ==> n == 1) by {
        assert RunsSecond(all) && a == OPERATIONAL ==> all[n] == OPERATIONAL;
      }
      hide RunsSecond, StartsOnce;
      assert Orderly(log) && n == 1 ==> !IsStop(log[0]);
    }
  }

  /** A log that never leaves the state machine is an orderly word, and conversely. */
  lemma {:induction false} OrderlyPhases(log: seq<Action>)
    ensures PhaseOf(log) != Bad <==> Orderly(log)
    ensures PhaseOf(log) == Unstarted <==> log == []
    ensures PhaseOf(log) == Started <==> log == [START]
    ensures PhaseOf(log) == Running <==> log == [START, OPERATIONAL]
    ensures PhaseOf(log) == Stopped ==> log != [] && IsStop(log[|log| - 1])
  {
    if log != [] {
      var n := |log| - 1;
      var rest := log[..n];
      OrderlyPhases(rest);
      OrderlyExtend(rest, log[n]);
      assert PhaseOf(log) == Next(PhaseOf(rest), log[n]);
      hide PhaseOf, Orderly;
      assert log == rest + [log[n]];
    }
  }

  // ---------- frames ----------

  // A frame that left a session: handed to the shared pending queue, or dropped at the cap.
  datatype Departure = Departure(frame: Frame, moved: bool)

  ghost function Names(d: seq<Departure>): seq<Frame> {
    if d == [] then [] else Names(d[..|d| - 1]) + [d[|d| - 1].frame]
  }

  ghost function MovedOf(d: seq<Departure>): seq<Frame> {
    if d == [] then [] else MovedOf(d[..|d| - 1]) + if d[|d| - 1].moved then [d[|d| - 1].frame] else []
  }

  ghost function OfTid(q: seq<Frame>, t: nat): seq<Frame> {
    if q == [] then [] else OfTid(q[..|q| - 1], t) + if q[|q| - 1].tid == t then [q[|q| - 1]] else []
  }

  ghost function Moves(fs: seq<Frame>): (d: seq<Departure>) {
    if fs == [] then [] else Moves(fs[..|fs| - 1]) + [Departure(fs[|fs| - 1], true)]
  }

  ghost predicate AllOf(fs: seq<Frame>, t: nat) {
    forall f | f in fs :: f.tid == t
  }

  lemma OneDeparture(d: seq<Departure>, x: Departure)
    ensures Names(d + [x]) == Names(d) + [x.frame]
    ensures MovedOf(d + [x]) == if x.moved then MovedOf(d) + [x.frame] else MovedOf(d)
  {
    assert (d + [x])[..|d + [x]| - 1] == d;
  }

  lemma OneQueued(q: seq<Frame>, f: Frame, t: nat)
    ensures OfTid(q + [f], t) == OfTid(q, t) + if f.tid == t then [f] else []
  {
    assert (q + [f])[..|q + [f]| - 1] == q;
  }

  // Moving all of fs adds exactly fs, in order, to the frames that left and to those moved.
  lemma {:induction false} MoveFrames(d: seq<Departure>, fs: seq<Frame>)
    ensures Names(d + Moves(fs)) == Names(d) + fs
    ensures MovedOf(d + Moves(fs)) == MovedOf(d) + fs
  {
    if fs == [] {
      assert d + Moves(fs) == d;
    } else {
      var n := |fs| - 1;
      var front, x := fs[..n], Departure(fs[n], true);
      assert Moves(fs) == Moves(front) + [x];
      hide *;
      MoveFrames(d, front);
      assert d + Moves(fs) == (d + Moves(front)) + [x];
      OneDeparture(d + Moves(front), x);
      assert front + [fs[n]] == fs;
      assert (Names(d) + front) + [fs[n]] == Names(d) + fs && (MovedOf(d) + front) + [fs[n]] == MovedOf(d) + fs;
    }
  }

  // In a shared queue the frames of one TID are not disturbed by those of another.
  lemma {:induction false} QueueFrames(q: seq<Frame>, fs: seq<Frame>, t: nat, u: nat)
    requires AllOf(fs, t)
    ensures OfTid(q + fs, u) == OfTid(q, u) + if t == u then fs else []
  {
    if fs == [] {
      assert q + fs == q;
    } else {
      var n := |fs| - 1;
      var front := fs[..n];
      QueueFrames(q, front, t, u);
      assert q + fs == (q + front) + [fs[n]];
      OneQueued(q + front, fs[n], u);
      assert front + [fs[n]] == fs;
    }
  }

  // The books still balance when all pending frames p have moved to the queue q.
  lemma MoveBalances(all: seq<Frame>, d: seq<Departure>, p: seq<Frame>, q: seq<Frame>, t: nat)
    requires all == Names(d) + p && OfTid(q, t) == MovedOf(d) && AllOf(p, t)
    ensures all == Names(d + Moves(p)) + [] && OfTid(q + p, t) == MovedOf(d + Moves(p))
  {
    MoveFrames(d, p);
    QueueFrames(q, p, t, t);
  }

  // The pending frames and the departures after a frame joined; beyond the cap the oldest leaves.
  ghost function Held(pending: seq<Frame>, f: Frame): seq<Frame> {
    if |pending| < STA_MAX_TX_BUFFER then pending + [f] else (pending + [f])[1..]
  }

  ghost function Left(d: seq<Departure>, pending: seq<Frame>, f: Frame): seq<Departure> {
    if |pending| < STA_MAX_TX_BUFFER then d else d + [Departure((pending + [f])[0], false)]
  }

  lemma HoldFrame(all: seq<Frame>, d: seq<Departure>, pending: seq<Frame>, f: Frame)
    requires all == Names(d) + pending && |pending| <= STA_MAX_TX_BUFFER && AllOf(pending, f.tid)
    ensures all + [f] == Names(Left(d, pending, f)) + Held(pending, f) && MovedOf(Left(d, pending, f)) == MovedOf(d)
    ensures |Held(pending, f)| <= STA_MAX_TX_BUFFER && AllOf(Held(pending, f), f.tid)
  {
    var p := pending + [f];
    OneDeparture(d, Departure(p[0], false));
    assert all + [f] == Names(d) + p;
    assert p == [p[0]] + p[1..];
  }

  // ---------- sessions ----------

  class TidTx {
    const tid: nat
    const dialogToken: nat
    var drvReady: bool
    var responseReceived: bool
    var operational: bool
    var stopping: bool
    var wantStart: bool
    var wantStop: bool
    var startCb: bool
    var stopCb: bool
    var sentAddba: bool
    var pending: seq<Frame>
    var timeout: nat
    var bufSize: nat
    var amsdu: bool
    var ssn: nat
    var stopInitiator: Initiator
    var txStop: bool
    var lastTx: nat            // jiffies of the last use, as the counter shows it
    ghost var used: nat        // and in true time
    ghost var log: seq<Action> // driver actions of this session
    ghost var requests: nat    // ADDBA requests sent by it

    constructor (tid: nat, dialogToken: nat, timeout: nat)
      ensures this.tid == tid && this.dialogToken == dialogToken && this.timeout == timeout
      ensures wantStart && !drvReady && !responseReceived && !operational && !stopping
      ensures !wantStop && !startCb && !stopCb && !sentAddba
      ensures pending == [] && log == [] && requests == 0 && lastTx == used == 0
    {
      this.tid, this.dialogToken, this.timeout := tid, dialogToken, timeout;
      drvReady, responseReceived, operational, stopping := false, false, false, false;
      wantStart, wantStop, startCb, stopCb, sentAddba := true, false, false, false, false;
      pending, bufSize, amsdu, ssn, stopInitiator, txStop, lastTx := [], 0, false, 0, WLAN_BACK_RECIPIENT, false, 0;
      log, requests, used := [], 0, 0;
    }

    // The state bits tell where the driver stands.
    ghost function Stage(): Phase
      reads this`wantStart, this`stopping, this`operational
    {
      if wantStart then Unstarted else if stopping then Stopped else if operational then Running else Started
    }

    ghost predicate Frames()
      reads this`pending, this`operational, this`wantStart
    {
      && AllOf(pending, tid) && |pending| <= STA_MAX_TX_BUFFER
      && (operational || wantStart ==> pending == [])
    }

    ghost predicate Bits()
      reads this`operational, this`sentAddba, this`drvReady, this`responseReceived, this`stopping, this`wantStart, this`requests
    {
      && (operational ==> sentAddba && drvReady && responseReceived && !stopping)
      && (wantStart ==> !drvReady && !responseReceived && !operational && !stopping && !sentAddba)
      && requests == (if sentAddba then 1 else 0)
    }

    ghost predicate Valid(maxSubframes: nat)
      reads this
    {
      && tid < FIRST_TSPEC_TSID && PhaseOf(log) == Stage() && Bits() && Frames()
      && (responseReceived ==> 1 <= bufSize <= maxSubframes)
    }

    // A driver that is ready without a request means that the session is on its way out.
    ghost predicate Settled()
      reads this`drvReady, this`sentAddba, this`wantStop, this`stopping
    {
      drvReady && !sentAddba ==> wantStop || stopping
    }
  }

  // What the worker is in the middle of for the TID; it holds the wiphy mutex all the while.
  datatype Worker = Idle | Installed | InDriver

  // One hardware queue: the frames ever handed to its shared pending list, in order (the list is
  // drained elsewhere, so this is its history), and its count of aggregation stops.
  class Queue {
    var handed: seq<Frame>
    var aggStop: int
    var stopped: bool // stopped for the reason "aggregation"

    constructor ()
      ensures Valid() && handed == [] && aggStop == 0
    {
      handed, aggStop, stopped := [], 0, false;
    }

    // The queue is stopped exactly while some stop is still to be taken back.
    ghost predicate Valid()
      reads this
    {
      0 <= aggStop && (stopped <==> aggStop > 0)
    }

    /** ieee80211_stop_queue_agg: the queue is stopped, whoever else stopped it before. */
    method StopAgg()
      requires Valid()
      modifies this`aggStop, this`stopped
      ensures Valid() && stopped && aggStop == old(aggStop) + 1
    {
      aggStop := aggStop + 1;
      if aggStop == 1 { stopped := true; }
    }

    /** ieee80211_wake_queue_agg: takes back one stop; the queue runs exactly if it was the last. */
    method WakeAgg()
      requires Valid() && aggStop > 0
      modifies this`aggStop, this`stopped
      ensures Valid() && aggStop == old(aggStop) - 1 && (!stopped <==> old(aggStop) == 1)
    {
      aggStop := aggStop - 1;
      if aggStop == 0 { stopped := false; }
    }
  }

  // Request i came at least `period` after the one before it.
  ghost predicate Apart(times: seq<nat>, i: nat, period: nat)
    requires 0 < i < |times|
  {
    times[i] - times[i - 1] >= period
  }

  datatype Event =
    | StartSession(timeout: nat, eligible: bool, reserved: bool, allocOk: bool)
    | StopSession | DriverStarted | DriverStopped | AddbaTimeout | SessionTimeout
    | TxFrame(id: int) | Tick(jiffies: nat) | SetBlocked(b: bool) | OthersMove(t: nat, ids: seq<int>)
    | DriverAnswers(answer: StartAnswer, ssn: nat)
    | Install(fragments: bool) | BeginStart | StartCallback | StopWanted | StopCallback | Stop(reason: Reason)
    | AddbaResponse(token: nat, success: bool, size: nat, amsdu: bool, respTimeout: nat)

  /** The slots of one TID in a station's aggregation state. */
  class Tid {
    const tid: nat
    const queue: Queue
    const hasTxq: bool        // the driver has its own queue for the TID
    const maxSubframes: nat   // what the hardware can aggregate
    const retriesPeriod: nat  // 15 * HZ
    const wrap: Wrap          // the values of jiffies
    const ticks: nat -> nat   // time units in jiffies
    const heCap: bool
    const fullSize: bool      // EHT, MLO or a strict device: ask for the hardware maximum

    var tx: TidTx?            // tid_tx[tid]
    var start: TidTx?         // tid_start_tx[tid]
    var addbaReqNum: nat
    var lastReqTime: nat
    var tokenAllocator: nat
    var blocked: bool         // WLAN_STA_BLOCK_BA
    var worker: Worker
    var now: nat              // true time in jiffies

    ghost var arrived: seq<Frame>      // every frame any session of the TID queued
    ghost var departed: seq<Departure> // every frame that left again
    ghost var reqTimes: seq<nat>       // ADDBA requests since the last accepted response
    ghost var retired: seq<seq<Action>> // logs of freed sessions

    constructor (tid: nat, queue: Queue, hasTxq: bool, maxSubframes: nat, retriesPeriod: nat, wrap: Wrap, ticks: nat -> nat, heCap: bool, fullSize: bool)
      requires tid < FIRST_TSPEC_TSID && 0 < retriesPeriod < wrap / 2
      requires queue.Valid() && OfTid(queue.handed, tid) == []
      ensures Inv() && arrived == [] && reqTimes == [] && Quiet()
      ensures this.queue == queue && this.retriesPeriod == retriesPeriod && this.wrap == wrap
    {
      this.tid, this.queue, this.hasTxq, this.maxSubframes := tid, queue, hasTxq, maxSubframes;
      this.retriesPeriod, this.wrap, this.ticks, this.heCap, this.fullSize := retriesPeriod, wrap, ticks, heCap, fullSize;
      tx, start, addbaReqNum, lastReqTime, tokenAllocator, blocked, worker, now := null, null, 0, 0, 0, false, Idle, 0;
      arrived, departed, reqTimes, retired := [], [], [], [];
    }

    ghost function Live(): set<TidTx>
      reads this`tx
    {
      if tx == null then {} else {tx}
    }

    ghost function Pending(): seq<Frame>
      reads this`tx, tx
    {
      if tx == null then [] else tx.pending
    }

    // Every queued frame is still pending, or left in arrival order; those moved appear in the
    // shared queue in the same order.
    ghost predicate Conserved()
      reads this`arrived, this`departed, this`tx, tx, queue`handed
    {
      && arrived == Names(departed) + Pending()
      && OfTid(queue.handed, tid) == MovedOf(departed)
    }

    // Nothing is going on.
    ghost predicate Quiet()
      reads this`tx, this`start, this`worker, this`blocked
    {
      tx == null && start == null && worker == Idle && !blocked
    }

    // A session whose ADDBA request is still to come.
    ghost predicate Unsent()
      reads this`start, this`tx, tx
    {
      start != null || (tx != null && !tx.sentAddba)
    }

    // Another request may be sent now.
    ghost predicate MaySend()
      reads this`reqTimes, this`now
    {
      |reqTimes| <= MAX_RETRIES && (|reqTimes| > BURST_RETRIES ==> now - reqTimes[|reqTimes| - 1] >= retriesPeriod)
    }

    // Requests since the last accepted response are few, and later ones are spread in time.
    ghost predicate Spread()
      reads this`reqTimes, this`now, this`addbaReqNum, this`lastReqTime, this`start, this`tx, tx
    {
      && |reqTimes| == addbaReqNum <= MAX_RETRIES + 1
      && (reqTimes != [] ==> reqTimes[|reqTimes| - 1] <= now && lastReqTime == reqTimes[|reqTimes| - 1] % wrap)
      && (forall i | BURST_RETRIES < i < |reqTimes| :: Apart(reqTimes, i, retriesPeriod))
      && (Unsent() ==> MaySend())
    }

    ghost predicate Sessions()
      reads this`tx, this`start, this`now, tx, start
    {
      && (tx != null ==> tx.tid == tid && tx.Valid(maxSubframes) && tx.used <= now && tx.lastTx == tx.used % wrap)
      && (start != null ==> tx == null && start.tid == tid && start.Valid(maxSubframes) && start.wantStart && start.lastTx == start.used == 0)
    }

    ghost predicate AtWork()
      reads this, tx
    {
      match worker
      case Idle => tx != null ==> !tx.wantStart
      case Installed => tx != null && tx.wantStart
      case InDriver => tx != null && !tx.wantStart && !tx.drvReady && !tx.sentAddba && !tx.responseReceived && !tx.stopping
    }

    // What holds even in the middle of a step.
    ghost predicate Base()
      reads this, tx, start, queue
    {
      && tid < FIRST_TSPEC_TSID && 0 < retriesPeriod < wrap / 2 && queue.Valid()
      && Sessions() && Conserved() && Spread()
      && forall log | log in retired :: PhaseOf(log) != Bad
    }

    ghost predicate Inv()
      reads this, tx, start, queue
    {
      Base() && AtWork() && (tx != null ==> tx.Settled())
    }

    // ---------- steps that need no wiphy mutex ----------

    // The checks of ieee80211_start_tx_ba_session, in order.  `eligible` stands for those of
    // capabilities, interface type and authorisation, `reserved` says that the TID is reserved.
    function StartVerdict(eligible: bool, reserved: bool, allocOk: bool): int
      reads this
    {
      if reserved || !eligible || blocked then EINVAL
      else if addbaReqNum > MAX_RETRIES then EBUSY
      else if addbaReqNum > BURST_RETRIES
              && TimeBefore(now % wrap, (lastReqTime + retriesPeriod) % wrap, wrap) then EBUSY
      else if tx != null || start != null then EAGAIN
      else if !allocOk then ENOMEM
      else 0
    }

    // The wrapped clock reads later than the retry period after the last request.
    ghost predicate ReadsLate()
      requires reqTimes != []
      reads this`reqTimes, this`now
    {
      (now - reqTimes[|reqTimes| - 1] - retriesPeriod) % wrap < wrap / 2
    }

    // What a start needs besides.
    ghost predicate Startable(eligible: bool, reserved: bool, allocOk: bool)
      reads this`blocked, this`tx, this`start
    {
      eligible && !reserved && !blocked && allocOk && tx == null && start == null
    }

    /** How a start is answered: after more than three requests since the last accepted response it is
        refused while the clock does not read late, after more than fifteen always. */
    lemma StartAnswer(eligible: bool, reserved: bool, allocOk: bool)
      requires Inv()
      ensures StartVerdict(eligible, reserved, allocOk)
              == if reserved || !eligible || blocked then -22
                 else if |reqTimes| > 15 || (|reqTimes| > 3 && !ReadsLate()) then -16
                 else if tx != null || start != null then -11
                 else if !allocOk then -12
                 else 0
    {
      if reqTimes != [] { JiffiesCompare(now, reqTimes[|reqTimes| - 1], retriesPeriod, wrap); }
    }

    /** Exactly when it is accepted.  It is then never too early, and it is accepted on time until the
        jiffies counter has run half its range past the retry period. */
    lemma StartIsThrottled(eligible: bool, reserved: bool, allocOk: bool)
      requires Inv()
      ensures StartVerdict(eligible, reserved, allocOk) == 0 <==>
                && Startable(eligible, reserved, allocOk) && |reqTimes| <= 15 && (|reqTimes| > 3 ==> ReadsLate())
      ensures reqTimes != [] && ReadsLate() ==> now - reqTimes[|reqTimes| - 1] >= retriesPeriod
      ensures reqTimes != [] && retriesPeriod <= now - reqTimes[|reqTimes| - 1] < retriesPeriod + wrap / 2 ==> ReadsLate()
      ensures StartVerdict(eligible, reserved, allocOk) == 0 ==> MaySend()
    {
      if reqTimes != [] { JiffiesCompare(now, reqTimes[|reqTimes| - 1], retriesPeriod, wrap); }
    }

    /** ieee80211_start_tx_ba_session. */
    method StartSession(timeout: nat, eligible: bool, reserved: bool, allocOk: bool) returns (ret: int)
      requires Inv()
      modifies this`start, this`tokenAllocator
      ensures Inv() && ret == old(StartVerdict(eligible, reserved, allocOk))
      ensures if ret == 0 then start != null && fresh(start) && start.timeout == timeout && !start.wantStop else start == old(start)
      ensures tokenAllocator == if ret == 0 then (old(tokenAllocator) + 1) % 256 else old(tokenAllocator)
      ensures ret == 0 ==> start.dialogToken == tokenAllocator && start.pending == []
    {
      ret := StartVerdict(eligible, reserved, allocOk);
      StartIsThrottled(eligible, reserved, allocOk);
      if ret == 0 {
        tokenAllocator := (tokenAllocator + 1) % 256;
        start := new TidTx(tid, tokenAllocator, timeout);
      }
    }

    /** ieee80211_stop_tx_ba_session: ask the worker to stop the session. */
    method StopSession() returns (ret: int)
      requires Inv()
      modifies Live()`wantStop
      ensures Inv()
      ensures ret == if tx == null then -2 else 0
      ensures tx != null ==> tx.wantStop == (old(tx.wantStop) || !tx.stopping)
    {
      hide Names, MovedOf, OfTid, PhaseOf;
      if tx == null { return ENOENT; }
      if tx.stopping { return 0; }
      tx.wantStop := true;
      ret := 0;
    }

    /** ieee80211_start_tx_ba_cb_irqsafe and ieee80211_stop_tx_ba_cb_irqsafe. */
    method DriverStarted()
      requires Inv()
      modifies Live()`startCb
      ensures Inv() && (tx != null ==> tx.startCb)
    {
      hide Names, MovedOf, OfTid, PhaseOf;
      if tx != null { tx.startCb := true; }
    }

    method DriverStopped()
      requires Inv()
      modifies Live()`stopCb
      ensures Inv() && (tx != null ==> tx.stopCb)
    {
      hide Names, MovedOf, OfTid, PhaseOf;
      if tx != null { tx.stopCb := true; }
    }

    /** sta_addba_resp_timer_expired. */
    method AddbaTimeout()
      requires Inv()
      modifies Live()`wantStop
      ensures Inv()
      ensures tx != null ==> tx.wantStop == (old(tx.wantStop) || !(tx.responseReceived || tx.stopping))
    {
      if tx != null && !tx.responseReceived {
        var r := StopSession();
      }
    }

    // Has the session been idle for its timeout, as far as the wrapped counter can tell?
    ghost predicate LooksIdle()
      requires tx != null
      reads this`tx, this`now, tx`used, tx`timeout
    {
      (now - tx.used - ticks(tx.timeout)) % wrap < wrap / 2
    }

    /** sta_tx_agg_session_timer_expired: a session that looks idle is on its way out, any other is
        left alone; and until half the counter's range has passed, it looks idle if it is. */
    method SessionTimeout()
      requires Inv()
      modifies Live()`wantStop
      ensures Inv()
      ensures tx != null && !tx.stopping ==> tx.wantStop == (old(tx.wantStop) || LooksIdle())
      ensures tx != null && tx.stopping ==> tx.wantStop == old(tx.wantStop)
      ensures tx != null && ticks(tx.timeout) < wrap / 2 && now - tx.used < ticks(tx.timeout) + wrap / 2 ==>
                (LooksIdle() <==> now - tx.used >= ticks(tx.timeout))
    {
      hide Names, MovedOf, OfTid, PhaseOf;
      if tx == null { return; }
      JiffiesCompare(now, tx.used, ticks(tx.timeout), wrap);
      if !tx.stopping && !TimeBefore(now % wrap, (tx.lastTx + ticks(tx.timeout)) % wrap, wrap) {
        var r := StopSession();
      }
    }

    /** The TX path (ieee80211_tx_prep_agg): a frame is held back while the session is being set up or
        torn down, unless the driver has its own queue for the TID. */
    method TxFrame(f: Frame) returns (queued: bool)
      requires Inv() && f.tid == tid
      modifies this`arrived, this`departed, Live()`pending, Live()`lastTx, Live()`used
      ensures Inv()
      ensures queued <==> tx != null && !tx.operational && !tx.wantStart && !hasTxq
      ensures queued && old(|Pending()|) < 64 ==> tx.pending == old(tx.pending) + [f] && departed == old(departed)
      ensures queued && old(|Pending()|) >= 64 ==> tx.pending == old(tx.pending)[1..] + [f]
      ensures tx != null && !queued ==> tx.pending == old(tx.pending)
      ensures tx != null ==> tx.used == if tx.operational then now else old(tx.used)
      ensures arrived == if queued then old(arrived) + [f] else old(arrived)
      ensures departed == if queued then Left(old(departed), old(Pending()), f) else old(departed)
    {
      hide Names, MovedOf, OfTid, PhaseOf;
      queued := false;
      if tx == null { return; }
      if tx.operational {
        Touch();
      } else if !tx.wantStart && !hasTxq {
        queued := true;
        Hold(f);
      }
    }

    method Touch()
      requires Inv() && tx != null
      modifies tx`lastTx, tx`used
      ensures Inv() && tx.used == now
    {
      hide Names, MovedOf, OfTid, PhaseOf;
      tx.lastTx, tx.used := now % wrap, now;
    }

    // Put a frame on the session; beyond the cap the oldest one is dropped.
    method Hold(f: Frame)
      requires Inv() && f.tid == tid && tx != null && !tx.operational && !tx.wantStart
      modifies this`arrived, this`departed, tx`pending
      ensures Inv() && arrived == old(arrived) + [f] && departed == Left(old(departed), old(tx.pending), f)
      ensures tx.pending == if old(|tx.pending|) < 64 then old(tx.pending) + [f] else old(tx.pending)[1..] + [f]
    {
      hide Names, MovedOf, OfTid, PhaseOf;
      HoldFrame(arrived, departed, tx.pending, f);
      arrived, departed := arrived + [f], Left(departed, tx.pending, f);
      var p := tx.pending + [f];
      if |p| > STA_MAX_TX_BUFFER { p := p[1..]; }
      tx.pending := p;
    }

    // ---------- moving frames and freeing sessions ----------

    // The session's frames go to the end of the shared queue.
    method Move()
      requires Base() && tx != null
      modifies this`departed, tx`pending, queue`handed
      ensures Base() && tx.pending == []
      ensures queue.handed == old(queue.handed) + old(tx.pending) && departed == old(departed) + Moves(old(tx.pending))
    {
      MoveBalances(arrived, departed, tx.pending, queue.handed, tid);
      departed := departed + Moves(tx.pending);
      queue.handed := queue.handed + tx.pending;
      tx.pending := [];
    }

    /** ieee80211_agg_splice_packets: stop the queue and hand it the session's frames. */
    method Splice()
      requires Base() && tx != null
      modifies this`departed, tx`pending, queue
      ensures Base() && tx.pending == []
      ensures queue.handed == old(queue.handed) + old(tx.pending) && departed == old(departed) + Moves(old(tx.pending))
      ensures queue.aggStop == old(queue.aggStop) + 1
    {
      hide Names, MovedOf, OfTid, PhaseOf;
      queue.StopAgg();
      Move();
    }

    // The session is gone; its frames must be, too.
    method Free()
      requires Base() && tx != null && tx.pending == []
      modifies this`tx, this`worker, this`retired
      ensures Inv() && tx == null && worker == Idle && retired == old(retired) + [old(tx).log]
    {
      hide Names, MovedOf, OfTid, PhaseOf;
      OrderlyPhases(tx.log);
      retired := retired + [tx.log];
      tx, worker := null, Idle;
    }

    /** ieee80211_remove_tid_tx, and the same steps when the driver denies a start. */
    method Remove()
      requires Base() && tx != null
      modifies this`tx, this`worker, this`retired, this`departed, tx`pending, queue
      ensures Inv() && tx == null && worker == Idle && retired == old(retired) + [old(tx.log)]
      ensures queue.handed == old(queue.handed) + old(tx.pending) && departed == old(departed) + Moves(old(tx.pending))
      ensures queue.aggStop == old(queue.aggStop) && old(tx).pending == []
    {
      hide Names, MovedOf, OfTid, PhaseOf;
      Splice();
      Free();
      queue.WakeAgg();
    }

    // ---------- steps under the wiphy mutex ----------

    // The receive window asked for in the ADDBA request.
    function BufferSize(): nat
      reads this
    {
      if fullSize then maxSubframes
      else if heCap then Min(maxSubframes, MAX_AMPDU_BUF_HE)
      else MAX_AMPDU_BUF_HT
    }

    /** ieee80211_send_addba_with_timeout: at most once per session, and never for one that is on
        its way out. */
    method SendAddba() returns (bufSize: nat)
      requires Base() && tx != null && !tx.sentAddba && !tx.wantStart
      modifies this`lastReqTime, this`addbaReqNum, this`reqTimes, tx`sentAddba, tx`requests
      ensures Base() && tx.Settled() && bufSize == BufferSize()
      ensures fullSize ==> bufSize == maxSubframes
      ensures !fullSize ==> bufSize == if !heCap then 64 else if maxSubframes < 256 then maxSubframes else 256
      ensures tx.sentAddba <==> !tx.stopping && !tx.wantStop
      ensures reqTimes == if tx.sentAddba then old(reqTimes) + [now] else old(reqTimes)
    {
      hide Names, MovedOf, OfTid, PhaseOf;
      bufSize := BufferSize();
      if tx.stopping || tx.wantStop { return; }
      lastReqTime := now % wrap;
      addbaReqNum := addbaReqNum + 1;
      assert forall i | BURST_RETRIES < i < |reqTimes| :: Apart(reqTimes, i, retriesPeriod) ==> Apart(reqTimes + [now], i, retriesPeriod);
      assert |reqTimes| > BURST_RETRIES ==> Apart(reqTimes + [now], |reqTimes|, retriesPeriod);
      reqTimes := reqTimes + [now];
      tx.sentAddba := true;
      tx.requests := tx.requests + 1;
    }

    /** ieee80211_agg_tx_operational: tell the driver, hand on what was held back, and let the TX
        path go. */
    method BecomeOperational()
      requires Base() && tx != null && tx.Stage() == Started
      requires tx.drvReady && tx.sentAddba && tx.responseReceived
      modifies this`departed, tx`pending, tx`operational, tx`log, queue
      ensures Base() && tx.operational && tx.pending == []
      ensures tx.log == old(tx.log) + [OPERATIONAL] && queue.aggStop == old(queue.aggStop)
      ensures queue.handed == old(queue.handed) + old(tx.pending) && departed == old(departed) + Moves(old(tx.pending))
    {
      hide Names, MovedOf, OfTid, PhaseOf;
      Splice();
      MarkOperational();
      queue.WakeAgg();
    }

    method MarkOperational()
      requires Base() && tx != null && tx.Stage() == Started && tx.pending == []
      requires tx.drvReady && tx.sentAddba && tx.responseReceived
      modifies tx`operational, tx`log
      ensures Base() && tx.operational && tx.log == old(tx.log) + [OPERATIONAL]
    {
      Append(tx.log, OPERATIONAL);
      tx.log := tx.log + [OPERATIONAL];
      tx.operational := true;
    }

    /** The worker moves a session waiting for start to the normal slot (mac80211/ht.c:389-441), unless
        the TID is in the middle of a fragmented frame; then it comes back later.  The slot is always
        free. */
    method Install(fragments: bool)
      requires Inv() && worker == Idle
      modifies this`start, this`tx, this`worker
      ensures Inv()
      ensures if old(blocked || start == null) || fragments then tx == old(tx) && start == old(start) && worker == Idle
              else old(tx) == null && tx == old(start) && start == null && worker == Installed
    {
      hide Names, MovedOf, OfTid, PhaseOf;
      if !blocked && start != null {
        if fragments { return; }
        var s := start;
        start := null;
        if tx == null { tx := s; }
        worker := Installed;
      }
    }

    /** ieee80211_tx_ba_session_handle_start up to the driver's START call. */
    method BeginStart()
      requires Inv() && worker == Installed
      modifies this`worker, tx`wantStart, tx`log
      ensures Inv() && worker == InDriver && tx.log == [START]
    {
      hide Names, MovedOf, OfTid, PhaseOf, Orderly;
      OrderlyPhases(tx.log);
      Append(tx.log, START);
      assert tx.log + [START] == [START];
      tx.wantStart := false;
      tx.log := tx.log + [START];
      worker := InDriver;
    }

    // The driver took the START: go on to the ADDBA request unless the driver wants to wait.
    method Accepted(answer: StartAnswer, ssn: nat)
      requires Inv() && worker == InDriver && answer != Denied
      modifies this`worker, this`lastReqTime, this`addbaReqNum, this`reqTimes
      modifies tx`ssn, tx`drvReady, tx`sentAddba, tx`requests
      ensures Inv() && worker == Idle && tx.drvReady == (answer == Immediate)
      ensures tx.sentAddba == (answer != DelayAddba && !tx.wantStop)
      ensures reqTimes == if tx.sentAddba then old(reqTimes) + [now] else old(reqTimes)
    {
      hide Names, MovedOf, OfTid, PhaseOf;
      tx.ssn := ssn;
      worker := Idle;
      if answer == DelayAddba { return; }
      if answer == Immediate { tx.drvReady := true; }
      var b := SendAddba();
    }

    /** The rest of it, once the driver has answered. */
    method FinishStart(answer: StartAnswer, ssn: nat)
      requires Inv() && worker == InDriver
      modifies this`worker, this`lastReqTime, this`addbaReqNum, this`reqTimes, this`tx, this`retired, this`departed
      modifies tx`ssn, tx`drvReady, tx`sentAddba, tx`requests, tx`pending, queue
      ensures Inv() && worker == Idle && queue.aggStop == old(queue.aggStop)
      ensures answer == Denied ==> tx == null && departed == old(departed) + Moves(old(tx.pending))
      ensures answer != Denied ==>
                && tx == old(tx) && tx.drvReady == (answer == Immediate)
                && tx.sentAddba == (answer != DelayAddba && !tx.wantStop)
                && departed == old(departed) && tx.pending == old(tx.pending) && queue.handed == old(queue.handed)
      ensures reqTimes == if answer != Denied && tx.sentAddba then old(reqTimes) + [now] else old(reqTimes)
    {
      hide Names, MovedOf, OfTid, PhaseOf;
      if answer == Denied {
        Remove();
      } else {
        Accepted(answer, ssn);
      }
    }

    // The frames p went to the shared queue, and none is held any more.
    twostate predicate HandedOn(p: seq<Frame>)
      requires tx != null
      reads this, tx, queue
    {
      departed == old(departed) + Moves(p) && queue.handed == old(queue.handed) + p && tx.pending == []
    }

    twostate predicate NothingHandedOn()
      requires tx != null && tx == old(tx)
      reads this, tx, queue
    {
      departed == old(departed) && queue.handed == old(queue.handed) && tx.pending == old(tx.pending)
    }

    // START_CB is set on an installed session, and sessions are not blocked.
    ghost predicate Called()
      reads this`tx, this`blocked, tx
    {
      tx != null && !blocked && tx.startCb
    }

    /** ieee80211_start_tx_ba_cb, run by the worker for START_CB: the driver is ready.  The first time,
        a request that the driver had put off is sent, or an answered session becomes operational and
        hands on its frames; unless the session is to stop.  Without START_CB nothing happens. */
    method StartCallback()
      requires Inv() && worker == Idle
      modifies this`departed, this`lastReqTime, this`addbaReqNum, this`reqTimes, queue
      modifies Live()`startCb, Live()`drvReady, Live()`sentAddba, Live()`requests, Live()`operational, Live()`log, Live()`pending
      ensures Inv() && tx == old(tx) && queue.aggStop == old(queue.aggStop)
      ensures old(Called()) ==> !tx.startCb && tx.drvReady
      ensures old(Called() && !tx.drvReady) ==>
                && (tx.operational <==> old(tx.sentAddba && tx.responseReceived && !tx.stopping && !tx.wantStop))
                && (tx.sentAddba <==> old(tx.sentAddba || !(tx.stopping || tx.wantStop)))
                && reqTimes == (if tx.sentAddba && !old(tx.sentAddba) then old(reqTimes) + [now] else old(reqTimes))
                && (if tx.operational then HandedOn(old(tx.pending)) else NothingHandedOn())
      ensures old(Called() && tx.drvReady) ==> tx.operational == old(tx.operational) && tx.sentAddba == old(tx.sentAddba)
      ensures !old(Called() && !tx.drvReady) ==> reqTimes == old(reqTimes) && departed == old(departed) && queue.handed == old(queue.handed)
      ensures tx != null && !old(Called()) ==>
                && tx.startCb == old(tx.startCb) && tx.drvReady == old(tx.drvReady) && tx.sentAddba == old(tx.sentAddba)
                && tx.operational == old(tx.operational) && tx.pending == old(tx.pending) && tx.log == old(tx.log)
    {
      hide Names, MovedOf, OfTid, PhaseOf;
      if tx == null || blocked || !tx.startCb { return; }
      tx.startCb := false;
      if tx.drvReady { return; }
      DriverReady();
    }

    // The first start callback of a session.
    method DriverReady()
      requires Inv() && worker == Idle && tx != null && !tx.drvReady
      modifies this`departed, this`lastReqTime, this`addbaReqNum, this`reqTimes
      modifies tx`drvReady, tx`sentAddba, tx`requests, tx`operational, tx`log, tx`pending, queue
      ensures Inv() && tx.drvReady && queue.aggStop == old(queue.aggStop)
      ensures tx.operational <==> old(tx.sentAddba && tx.responseReceived && !tx.stopping && !tx.wantStop)
      ensures tx.sentAddba <==> old(tx.sentAddba || !(tx.stopping || tx.wantStop))
      ensures reqTimes == if tx.sentAddba && !old(tx.sentAddba) then old(reqTimes) + [now] else old(reqTimes)
      ensures if tx.operational then HandedOn(old(tx.pending)) else NothingHandedOn()
    {
      hide Names, MovedOf, OfTid, PhaseOf;
      tx.drvReady := true;
      if tx.stopping || tx.wantStop { return; }
      if !tx.sentAddba {
        var b := SendAddba();
        return;
      }
      if tx.responseReceived {
        BecomeOperational();
      }
    }

    /** __ieee80211_stop_tx_ba_session. */
    method Stop(reason: Reason) returns (ret: int)
      requires Base() && AtWork() && worker != InDriver
      modifies this`start, this`tx, this`worker, this`retired
      modifies Live()`stopping, Live()`operational, Live()`stopInitiator, Live()`txStop, Live()`log
      ensures Inv() && start == null && worker == Idle
      ensures ret == if old(tx) == null then -2 else if old(Leaving()) && reason != DESTROY_STA then -114 else 0
      ensures if old(tx == null || tx.wantStart) then tx == null
              else tx == old(tx) && tx.stopping && tx.log == old(tx.log) + StopActions(old(Leaving()), reason)
      ensures old(tx != null && !tx.wantStart && !tx.stopping) ==>
                && tx.log == old(tx.log) + [if reason == DESTROY_STA then STOP_FLUSH else STOP_CONT]
                && (tx.stopInitiator == WLAN_BACK_RECIPIENT <==> reason == PEER_REQUEST) && (tx.txStop <==> reason == LOCAL_REQUEST)
      ensures old(Leaving()) ==>
                && tx.log == old(tx.log) + (if reason == DESTROY_STA then [STOP_FLUSH_CONT] else [])
                && tx.stopInitiator == old(tx.stopInitiator) && tx.txStop == old(tx.txStop)
    {
      hide Names, MovedOf, OfTid, PhaseOf;
      DropStart();
      if tx == null { return ENOENT; }
      ret := 0;
      if tx.stopping {
        if reason != DESTROY_STA { ret := EALREADY; } else { FlushAgain(); }
      } else if tx.wantStart {
        Free();
      } else {
        Teardown(reason);
      }
    }

    // A session that only waits to be started is freed at once.
    method DropStart()
      requires Base() && AtWork()
      modifies this`start
      ensures Base() && AtWork() && start == null
    {
      hide Names, MovedOf, OfTid, PhaseOf;
      start := null;
    }

    ghost predicate Leaving()
      reads this, tx
    {
      tx != null && tx.stopping
    }

    // What a stop tells the driver.
    ghost function StopActions(already: bool, reason: Reason): seq<Action> {
      if already then (if reason == DESTROY_STA then [STOP_FLUSH_CONT] else [])
      else if reason == DESTROY_STA then [STOP_FLUSH] else [STOP_CONT]
    }

    method FlushAgain()
      requires Base() && AtWork() && tx != null && tx.stopping
      modifies tx`log
      ensures Inv() && tx.log == old(tx.log) + [STOP_FLUSH_CONT]
    {
      Append(tx.log, STOP_FLUSH_CONT);
      tx.log := tx.log + [STOP_FLUSH_CONT];
    }

    // The first stop of a started session.
    method Teardown(reason: Reason)
      requires Base() && AtWork() && worker == Idle && tx != null && !tx.stopping && !tx.wantStart
      modifies tx`stopping, tx`operational, tx`stopInitiator, tx`txStop, tx`log
      ensures Inv() && tx.stopping && !tx.operational
      ensures tx.log == old(tx.log) + StopActions(false, reason)
      ensures tx.stopInitiator == (if reason == PEER_REQUEST then WLAN_BACK_RECIPIENT else WLAN_BACK_INITIATOR)
      ensures tx.txStop == (reason == LOCAL_REQUEST)
    {
      hide Names, MovedOf, OfTid, PhaseOf;
      Append(tx.log, if reason == DESTROY_STA then STOP_FLUSH else STOP_CONT);
      SetStop(reason);
      tx.log := tx.log + [if reason == DESTROY_STA then STOP_FLUSH else STOP_CONT];
    }

    method SetStop(reason: Reason)
      requires tx != null
      modifies tx`stopping, tx`operational, tx`stopInitiator, tx`txStop
      ensures tx.stopping && !tx.operational && tx.txStop == (reason == LOCAL_REQUEST)
      ensures tx.stopInitiator == (if reason == PEER_REQUEST then WLAN_BACK_RECIPIENT else WLAN_BACK_INITIATOR)
    {
      tx.stopping := true;
      tx.operational := false;
      tx.stopInitiator := if reason == PEER_REQUEST then WLAN_BACK_RECIPIENT else WLAN_BACK_INITIATOR;
      tx.txStop := reason == LOCAL_REQUEST;
    }

    /** The worker's reaction to WANT_STOP. */
    method StopWanted()
      requires Inv() && worker == Idle
      modifies this`start, this`tx, this`worker, this`retired, Live()
      ensures Inv() && worker == Idle && tx == old(tx) && (start == old(start) || start == null)
      ensures old(tx != null && tx.wantStop) ==> start == null && tx.stopping && !tx.wantStop
      ensures old(tx != null && tx.wantStop && !tx.stopping) ==> tx.stopInitiator == WLAN_BACK_INITIATOR && tx.txStop
      ensures tx != null && !old(tx != null && tx.wantStop) ==>
                start == old(start) && tx.stopping == old(tx.stopping) && tx.operational == old(tx.operational) && tx.log == old(tx.log)
    {
      hide Names, MovedOf, OfTid, PhaseOf;
      if tx == null || !tx.wantStop { return; }
      ClearWantStop();
      var r := Stop(LOCAL_REQUEST);
    }

    method ClearWantStop()
      requires Inv() && worker == Idle && tx != null
      modifies tx`wantStop
      ensures Base() && AtWork() && !tx.wantStop
    {
      hide Names, MovedOf, OfTid, PhaseOf;
      tx.wantStop := false;
    }

    /** ieee80211_stop_tx_ba_cb, run for STOP_CB: the session ends, and a peer that did not ask for it
        is told. */
    method StopCallback() returns (delba: bool)
      requires Inv() && worker == Idle
      modifies this`tx, this`worker, this`retired, this`departed, Live()`stopCb, Live()`pending, queue
      ensures Inv() && worker == Idle && queue.aggStop == old(queue.aggStop)
      ensures old(Live() != {} && tx.stopCb && tx.stopping) ==>
                && tx == null && departed == old(departed) + Moves(old(tx.pending))
                && delba == old(tx.stopInitiator == WLAN_BACK_INITIATOR && tx.txStop)
      ensures !old(Live() != {} && tx.stopCb && tx.stopping) ==> tx == old(tx) && departed == old(departed) && !delba
      ensures tx != null ==> !tx.stopCb && tx.pending == old(tx.pending)
    {
      hide Names, MovedOf, OfTid, PhaseOf;
      delba := false;
      if tx == null || !tx.stopCb { return; }
      tx.stopCb := false;
      if !tx.stopping { return; }
      delba := tx.stopInitiator == WLAN_BACK_INITIATOR && tx.txStop;
      Remove();
    }

    /** ieee80211_process_addba_resp. */
    method AddbaResponse(token: nat, success: bool, size: nat, amsdu: bool, timeout: nat)
      requires Inv() && worker == Idle
      modifies this`departed, this`addbaReqNum, this`reqTimes, this`start, this`tx, this`worker, this`retired, Live(), queue
      ensures Inv() && tx == old(tx) && (start == old(start) || start == null) && queue.aggStop == old(queue.aggStop)
      ensures old(Awaits(token)) && !(success && size != 0 && maxSubframes != 0) ==>
                tx.stopping && tx.stopInitiator == WLAN_BACK_INITIATOR && !tx.txStop && reqTimes == old(reqTimes)
      ensures old(Awaits(token)) && success && size != 0 && maxSubframes != 0 && !old(tx.responseReceived) ==>
                && reqTimes == [] && tx.responseReceived && tx.bufSize == (if size <= maxSubframes then size else maxSubframes)
                && tx.amsdu == amsdu && tx.timeout == timeout && tx.used == (if timeout != 0 then now else old(tx.used))
                && tx.operational == tx.drvReady == old(tx.drvReady)
                && (if tx.operational then HandedOn(old(tx.pending)) else NothingHandedOn())
      ensures old(Awaits(token)) && success && size != 0 && maxSubframes != 0 && old(tx.responseReceived) ==> Same(token)
      ensures !old(Awaits(token)) ==> start == old(start) && (tx != null ==> Same(token))
    {
      hide Names, MovedOf, OfTid, PhaseOf;
      var bufSize := Min(size, maxSubframes);
      if tx == null || token != tx.dialogToken || tx.wantStop || tx.stopping { return; }
      if success && bufSize != 0 {
        if tx.responseReceived { return; }
        RecordResponse(bufSize, amsdu, timeout);
        if tx.drvReady { BecomeOperational(); }
      } else {
        var r := Stop(DECLINED);
      }
    }

    // The peer accepted: requests are counted afresh, and the session timer starts.
    method RecordResponse(bufSize: nat, amsdu: bool, timeout: nat)
      requires Inv() && tx != null && !tx.responseReceived && !tx.wantStart && 1 <= bufSize <= maxSubframes
      modifies this`addbaReqNum, this`reqTimes
      modifies tx`responseReceived, tx`bufSize, tx`amsdu, tx`timeout, tx`lastTx, tx`used
      requires worker == Idle
      ensures Inv() && tx.responseReceived && tx.bufSize == bufSize && reqTimes == []
      ensures tx.amsdu == amsdu && tx.timeout == timeout && tx.used == if timeout != 0 then now else old(tx.used)
    {
      hide Names, MovedOf, OfTid, PhaseOf;
      KeepAnswer(bufSize, amsdu, timeout);
      addbaReqNum, reqTimes := 0, [];
    }

    method KeepAnswer(bufSize: nat, amsdu: bool, timeout: nat)
      requires tx != null
      modifies tx`responseReceived, tx`bufSize, tx`amsdu, tx`timeout, tx`lastTx, tx`used
      ensures tx.responseReceived && tx.bufSize == bufSize && tx.amsdu == amsdu && tx.timeout == timeout
      ensures if timeout != 0 then tx.lastTx == now % wrap && tx.used == now else tx.lastTx == old(tx.lastTx) && tx.used == old(tx.used)
    {
      tx.responseReceived := true;
      tx.bufSize := bufSize;
      tx.amsdu := amsdu;
      tx.timeout := timeout;
      if timeout != 0 { tx.lastTx, tx.used := now % wrap, now; }
    }

    // A response with this token is meant for the installed session, which is not on its way out.
    ghost predicate Awaits(token: nat)
      reads this, tx
    {
      tx != null && token == tx.dialogToken && !tx.wantStop && !tx.stopping
    }

    // The response makes no difference.
    twostate predicate Same(token: nat)
      requires old(tx) != null && tx == old(tx)
      reads this, tx
    {
      && reqTimes == old(reqTimes) && departed == old(departed) && tx.pending == old(tx.pending) && tx.log == old(tx.log)
      && tx.operational == old(tx.operational) && tx.responseReceived == old(tx.responseReceived) && tx.stopping == old(tx.stopping)
      && tx.bufSize == old(tx.bufSize) && tx.amsdu == old(tx.amsdu) && tx.timeout == old(tx.timeout)
    }

    // ---------- the surroundings ----------

    method Tick(jiffies: nat)
      requires Inv()
      modifies this`now
      ensures Inv() && now == old(now) + jiffies
    {
      hide Names, MovedOf, OfTid, PhaseOf;
      now := now + jiffies;
    }

    method SetBlocked(b: bool)
      requires Inv()
      modifies this`blocked
      ensures Inv() && blocked == b
    {
      hide Names, MovedOf, OfTid, PhaseOf;
      blocked := b;
    }

    // Another TID's frames reach the shared queue.
    method OthersMove(t: nat, fs: seq<Frame>)
      requires Inv() && t != tid && AllOf(fs, t)
      modifies queue`handed
      ensures Inv() && queue.handed == old(queue.handed) + fs
    {
      QueueFrames(queue.handed, fs, t, tid);
      queue.handed := queue.handed + fs;
    }

    // ---------- runs ----------

    // A step that can happen at any moment.
    method Interrupt(e: Event)
      requires Inv()
      modifies this`start, this`tokenAllocator, this`arrived, this`departed, this`now, this`blocked, Live(), queue`handed
      ensures Inv() && Known() && queue.aggStop == old(queue.aggStop) && (start == old(start) || start == null || fresh(start))
    {
      hide Names, MovedOf, OfTid, PhaseOf;
      match e
      case StartSession(timeout, eligible, reserved, allocOk) => var r := StartSession(timeout, eligible, reserved, allocOk);
      case StopSession => var r := StopSession();
      case DriverStarted => DriverStarted();
      case DriverStopped => DriverStopped();
      case AddbaTimeout => AddbaTimeout();
      case SessionTimeout => SessionTimeout();
      case TxFrame(id) => var q := TxFrame(Frame(tid, id));
      case Tick(jiffies) => Tick(jiffies);
      case SetBlocked(b) => SetBlocked(b);
      case OthersMove(t, ids) =>
        if t != tid { OthersMove(t, seq(|ids|, i requires 0 <= i < |ids| => Frame(t, ids[i]))); }
      case _ =>
    }

    // A step under the mutex.
    method Work(e: Event)
      requires Inv()
      modifies this`start, this`tx, this`worker, this`retired, this`departed
      modifies this`lastReqTime, this`addbaReqNum, this`reqTimes, Live(), queue
      ensures Inv() && Known() && queue.aggStop == old(queue.aggStop) && (start == old(start) || start == null)
    {
      hide Names, MovedOf, OfTid, PhaseOf;
      if worker == Installed {
        if e.BeginStart? { BeginStart(); }
        return;
      }
      if worker == InDriver {
        match e {
          case DriverAnswers(answer, ssn) => FinishStart(answer, ssn);
          case _ =>
        }
        return;
      }
      match e
      case Install(fragments) => Install(fragments);
      case StartCallback => StartCallback();
      case StopWanted => StopWanted();
      case StopCallback => var d := StopCallback();
      case Stop(reason) => var r := Stop(reason);
      case AddbaResponse(token, success, size, amsdu, timeout) => AddbaResponse(token, success, size, amsdu, timeout);
      case _ =>
    }

    // The session in the slot is the one that was there, or was waiting to get there.
    twostate predicate Known()
      reads this
    {
      tx == null || tx == old(tx) || tx == old(start)
    }

    /** Every run, from any good state and with the worker, the driver, the peer, the timers, the TX
        path and other TIDs interleaved in any way, keeps the invariant and takes back every stop of the
        queue. */
    method Run(events: seq<Event>)
      requires Inv()
      modifies this, Live(), queue, start
      ensures Inv() && queue.aggStop == old(queue.aggStop)
    {
      hide Names, MovedOf, OfTid, PhaseOf;
      for k := 0 to |events|
        invariant Inv() && queue.aggStop == old(queue.aggStop)
        invariant tx == null || tx == old(tx) || tx == old(start) || fresh(tx)
        invariant start == null || start == old(start) || fresh(start)
      {
        Interrupt(events[k]);
        Work(events[k]);
      }
    }

    // The log of an operational session.
    lemma OperationalLog()
      requires Inv() && tx != null && tx.operational
      ensures tx.log == [START, OPERATIONAL]
    {
      OrderlyPhases(tx.log);
    }

    /** What the invariant says about driver actions, ADDBA requests and frames. */
    lemma Guarantees()
      requires Inv()
      ensures forall log | log in retired :: Orderly(log)
      ensures tx != null ==> Orderly(tx.log) && tx.requests <= 1
      ensures tx != null && tx.operational ==> tx.sentAddba && tx.drvReady && tx.responseReceived && !tx.stopping
      ensures tid < 8 && |reqTimes| <= 16
      ensures forall i | 3 < i < |reqTimes| :: reqTimes[i] - reqTimes[i - 1] >= retriesPeriod
      ensures arrived == Names(departed) + Pending() && OfTid(queue.handed, tid) == MovedOf(departed)
      ensures tx == null ==> arrived == Names(departed)
    {
      forall log | log in retired
        ensures Orderly(log)
      {
        OrderlyPhases(log);
      }
      if tx != null { OrderlyPhases(tx.log); }
      forall i | BURST_RETRIES < i < |reqTimes|
        ensures reqTimes[i] - reqTimes[i - 1] >= retriesPeriod
      {
        assert Apart(reqTimes, i, retriesPeriod);
      }
    }
  }

  function Min(a: nat, b: nat): nat { if a <= b then a else b }

  lemma Append(log: seq<Action>, a: Action)
    ensures PhaseOf(log + [a]) == Next(PhaseOf(log), a)
  {
    assert (log + [a])[..|log + [a]| - 1] == log;
  }

  // time_before: the signed difference of two jiffies values.
  predicate TimeBefore(a: nat, b: nat, wrap: Wrap) {
    (a - b) % wrap >= wrap / 2
  }

  lemma OnlyZero(w: int, a: int, r: int)
    requires w * a == r && -w < r < w
    ensures a == 0
  {
    assert a >= 1 ==> w * a >= w;
    assert a <= -1 ==> w * a <= -w;
  }

  lemma ModOf(x: int, w: nat, q: int, r: int)
    requires w > 0 && x == w * q + r && 0 <= r < w
    ensures x % w == r
  {
    assert x == w * (x / w) + x % w;
    assert w * (x / w - q) == r - x % w;
    OnlyZero(w, x / w - q, r - x % w);
  }

  lemma SameMod(x: int, y: int, k: int, w: nat)
    requires w > 0 && x == y + w * k
    ensures x % w == y % w
  {
    var q, r := y / w, y % w;
    assert y == w * q + r;
    assert x == w * (q + k) + r;
    ModOf(x, w, q + k, r);
  }

  // The comparison of wrapped values depends on the true distance, modulo the range: so it is right
  // up to half the range past the period.
  lemma JiffiesCompare(now: nat, last: nat, period: nat, wrap: Wrap)
    requires last <= now
    ensures TimeBefore(now % wrap, (last % wrap + period) % wrap, wrap) <==> (now - last - period) % wrap >= wrap / 2
    ensures now - last < period < wrap / 2 ==> (now - last - period) % wrap >= wrap / 2
    ensures period < wrap / 2 && period <= now - last < period + wrap / 2 ==> (now - last - period) % wrap < wrap / 2
  {
    WrappedDistance(now, last, period, wrap);
    var x := now - last - period;
    if x < 0 && period < wrap / 2 {
      ModOf(x, wrap, -1, x + wrap);
    } else if 0 <= x < wrap / 2 {
      ModOf(x, wrap, 0, x);
    }
  }

  lemma WrappedDistance(now: nat, last: nat, period: nat, w: nat)
    requires w > 0
    ensures (now % w - (last % w + period) % w) % w == (now - last - period) % w
  {
    var t := last % w + period;
    DivMod(now, w);
    DivMod(last, w);
    DivMod(t, w);
    Collect(now, last, period, w, now / w, last / w, t / w, now % w, last % w, t % w);
    SameMod(now % w - t % w, now - last - period, last / w + t / w - now / w, w);
  }

  lemma DivMod(x: nat, w: nat)
    requires w > 0
    ensures x == w * (x / w) + x % w
  {
  }

  lemma Collect(now: int, last: int, period: int, w: int, a: int, b: int, c: int, x: int, y: int, z: int)
    requires now == w * a + x && last == w * b + y && y + period == w * c + z
    ensures x - z == (now - last - period) + w * (b + c - a)
  {
  }

  // ---------- a session from start to end ----------

  /** A session that the driver and the peer accept: a frame that comes before is held, and goes on
      when the session is operational. */
  method Established(t: Tid, f: Frame, size: nat)
    requires t.Inv() && t.Quiet() && |t.reqTimes| <= BURST_RETRIES && !t.hasTxq && f.tid == t.tid
    requires 0 < size && 0 < t.maxSubframes
    modifies t, t.queue
    ensures t.Inv() && fresh(t.tx) && t.tx != null && t.tx.operational && t.tx.log == [START, OPERATIONAL]
    ensures t.arrived == old(t.arrived) + [f] && t.departed == old(t.departed) + [Departure(f, true)]
    ensures t.queue.handed == old(t.queue.handed) + [f] && t.queue.aggStop == old(t.queue.aggStop)
    ensures t.reqTimes == [] && t.tx.bufSize == (if size <= t.maxSubframes then size else t.maxSubframes)
  {
    Requested(t);
    Confirmed(t, f, size);
  }

  // The session is requested: the frame, the callback, and the answer follow.
  method Confirmed(t: Tid, f: Frame, size: nat)
    requires t.Inv() && t.worker == Idle && !t.blocked && !t.hasTxq && f.tid == t.tid && 0 < size && 0 < t.maxSubframes
    requires t.tx != null && AsRequested(t.tx)
    modifies t, t.tx, t.queue
    ensures t.Inv() && t.tx == old(t.tx) && t.tx.operational && t.tx.log == [START, OPERATIONAL]
    ensures t.arrived == old(t.arrived) + [f] && t.departed == old(t.departed) + [Departure(f, true)]
    ensures t.queue.handed == old(t.queue.handed) + [f] && t.queue.aggStop == old(t.queue.aggStop)
    ensures t.reqTimes == [] && t.tx.bufSize == (if size <= t.maxSubframes then size else t.maxSubframes)
  {
    hide Names, MovedOf, OfTid, PhaseOf, Left, Moves, Orderly;
    var queued := t.TxFrame(f);
    assert t.tx.pending == [f];
    Called(t);
    Answered(t, size);
    OneMove(f);
    t.OperationalLog();
  }

  // The driver is ready.
  method Called(t: Tid)
    requires t.Inv() && t.worker == Idle && !t.blocked && t.tx != null
    requires !t.tx.drvReady && t.tx.sentAddba && !t.tx.responseReceived && !t.tx.stopping && !t.tx.wantStop
    modifies t, t.tx, t.queue
    ensures t.Inv() && t.tx == old(t.tx) && t.worker == Idle && !t.blocked
    ensures t.tx.drvReady && t.tx.sentAddba && !t.tx.responseReceived && !t.tx.stopping && !t.tx.wantStop
    ensures t.tx.pending == old(t.tx.pending) && t.arrived == old(t.arrived) && t.departed == old(t.departed)
    ensures t.queue.handed == old(t.queue.handed) && t.queue.aggStop == old(t.queue.aggStop)
  {
    hide Names, MovedOf, OfTid, PhaseOf, Moves, Orderly;
    t.DriverStarted();
    t.StartCallback();
  }

  // The peer accepts.
  method Answered(t: Tid, size: nat)
    requires t.Inv() && t.worker == Idle && t.tx != null && 0 < size && 0 < t.maxSubframes
    requires t.tx.drvReady && t.tx.sentAddba && !t.tx.responseReceived && !t.tx.stopping && !t.tx.wantStop
    modifies t, t.tx, t.queue
    ensures t.Inv() && t.tx == old(t.tx) && t.tx.operational && t.reqTimes == [] && t.arrived == old(t.arrived)
    ensures t.departed == old(t.departed) + Moves(old(t.tx.pending))
    ensures t.queue.handed == old(t.queue.handed) + old(t.tx.pending) && t.queue.aggStop == old(t.queue.aggStop)
    ensures t.tx.bufSize == if size <= t.maxSubframes then size else t.maxSubframes
  {
    hide Names, MovedOf, OfTid, PhaseOf, Moves, Orderly;
    t.AddbaResponse(t.tx.dialogToken, true, size, false, 0);
  }

  // Started, its request sent, nothing heard and nothing held yet.
  ghost predicate AsRequested(s: TidTx)
    reads s
  {
    && !s.wantStart && !s.drvReady && s.sentAddba && !s.responseReceived && !s.operational && !s.stopping && !s.wantStop
    && s.pending == []
  }

  lemma OneMove(f: Frame)
    ensures Moves([f]) == [Departure(f, true)]
  {
    assert [f][..0] == [];
  }

  // ---------- a start that is refused too late ----------

  // A session is requested and not answered.
  method Requested(t: Tid)
    requires t.Inv() && t.Quiet() && |t.reqTimes| <= BURST_RETRIES
    modifies t, t.queue
    ensures t.Inv() && fresh(t.tx) && t.tx != null && t.start == null && t.worker == Idle && !t.blocked && AsRequested(t.tx)
    ensures t.reqTimes == old(t.reqTimes) + [t.now] && t.now == old(t.now)
    ensures t.arrived == old(t.arrived) && t.departed == old(t.departed)
    ensures t.queue.handed == old(t.queue.handed) && t.queue.aggStop == old(t.queue.aggStop)
  {
    hide Names, MovedOf, OfTid, PhaseOf, TimeBefore;
    t.StartIsThrottled(true, false, true);
    var ret := t.StartSession(0, true, false, true);
    t.Install(false);
    t.BeginStart();
    t.FinishStart(Ok, 0);
  }

  // It is stopped again.
  method GivenUp(t: Tid)
    requires t.Inv() && t.tx != null && t.start == null && t.worker == Idle && !t.blocked
    modifies t, t.tx, t.queue
    ensures t.Inv() && t.Quiet() && t.reqTimes == old(t.reqTimes) && t.now == old(t.now)
  {
    hide Names, MovedOf, OfTid, PhaseOf, TimeBefore;
    if !t.tx.stopping {
      var ret := t.StopSession();
      t.StopWanted();
    }
    t.DriverStopped();
    var delba := t.StopCallback();
  }

  /** The exception is real: after four unanswered requests and a pause of half the counter's range
      past the period, a start is refused although the period is long over. */
  method RefusedTooLate() returns (t: Tid)
    ensures fresh(t) && t.Inv() && t.MaySend() && t.Startable(true, false, true)
    ensures t.StartVerdict(true, false, true) == EBUSY
  {
    var queue := new Queue();
    t := new Tid(0, queue, false, 64, 15000, 0x1_0000_0000, tu => tu, false, false);
    for i := 0 to BURST_RETRIES + 1
      invariant fresh(t) && fresh(t.queue) && t.Inv() && t.Quiet()
      invariant |t.reqTimes| == i && (i > 0 ==> t.reqTimes[i - 1] == t.now)
    {
      Requested(t);
      GivenUp(t);
    }
    t.Tick(15000 + 0x8000_0000);
    TooLate(t);
  }

  lemma TooLate(t: Tid)
    requires t.Inv() && t.Quiet() && |t.reqTimes| == BURST_RETRIES + 1
    requires t.now == t.reqTimes[BURST_RETRIES] + t.retriesPeriod + t.wrap / 2
    ensures t.MaySend() && t.Startable(true, false, true) && t.StartVerdict(true, false, true) == EBUSY
  {
    t.StartIsThrottled(true, false, true);
  }
}
