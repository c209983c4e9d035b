/** Receive block-ack sessions of one station (mac80211/agg-rx.c): ADDBA requests open a session per
    TID, stops close it, and the driver hears of both. */
module BlockAckRx {

  const NUM_TIDS := 16
  const FIRST_TSPEC_TSID := 8
  const MAX_AMPDU_BUF_HT := 64
  const MAX_AMPDU_BUF_HE := 256
  const MAX_AMPDU_BUF_EHT := 1024

  datatype Status = SUCCESS | REQUEST_DECLINED | INVALID_QOS_PARAM
  datatype Initiator = WLAN_BACK_RECIPIENT | WLAN_BACK_INITIATOR

  // ---------- what the driver sees of one TID ----------

  // RX_START with the driver's answer, or RX_STOP.
  datatype Action = RxStart(ok: bool) | RxStop
  datatype Driver = Closed | Open | Confused

  // A start opens a closed session if the driver agrees; a stop closes an open one.
  function Next(d: Driver, a: Action): Driver {
    match a
    case RxStart(ok) => if d == Closed then (if ok then Open else Closed) else Confused
    case RxStop => if d == Open then Closed else Confused
  }

  function After(log: seq<Action>): Driver {
    if log == [] then Closed else Next(After(log[..|log| - 1]), log[|log| - 1])
  }

  // The log without the starts that the driver refused.
  function Effective(log: seq<Action>): seq<Action> {
    if log == [] then []
    else Effective(log[..|log| - 1]) + if log[|log| - 1] == RxStart(false) then [] else [log[|log| - 1]]
  }

  ghost predicate Alternating(log: seq<Action>) {
    forall i | 0 <= i < |log| :: log[i] == if i % 2 == 0 then RxStart(true) else RxStop
  }

  /** Unless the driver was confused, successful starts and stops alternate strictly, and a session
      is open exactly after an odd number of them. */
  lemma {:induction false} DriverAlternates(log: seq<Action>)
    requires After(log) != Confused
    ensures Alternating(Effective(log))
    ensures After(log) == Open <==> |Effective(log)| % 2 == 1
  {
    if log != [] {
      var n := |log| - 1;
      DriverAlternates(log[..n]);
    }
  }

  lemma AfterOne(log: seq<Action>, a: Action)
    ensures After(log + [a]) == Next(After(log), a)
  {
    assert (log + [a])[..|log + [a]| - 1] == log;
  }

  // ---------- sessions ----------

  // A reorder session.
  class TidRx {
    const tid: nat
    const bufSize: nat
    const timeout: nat
    const ssn: nat
    const autoSeq: bool
    var removed: bool

    constructor (tid: nat, bufSize: nat, timeout: nat, ssn: nat, autoSeq: bool)
      ensures this.tid == tid && this.bufSize == bufSize && this.timeout == timeout && this.ssn == ssn
      ensures this.autoSeq == autoSeq && !removed
    {
      this.tid, this.bufSize, this.timeout, this.ssn, this.autoSeq := tid, bufSize, timeout, ssn, autoSeq;
      removed := false;
    }
  }

  // What the peer and we can do, as far as the checks of a request go.
  datatype Peer = Peer(mlo: bool, ht: bool, he: bool, eht: bool, s1g: bool, htDelayed: bool, s1gDelayed: bool)

  datatype Request = Request(tid: nat, token: nat, timeout: nat, ssn: nat, policy: nat, bufSize: nat, autoSeq: bool)

  datatype Event =
    | Requested(q: Request, allocOk: bool, drvOk: bool)
    | Stopped(tid: nat, initiator: Initiator, tx: bool)
    | TornDown(tx: bool)
    | Blocked(b: bool)

  function Min(a: nat, b: nat): nat { if a <= b then a else b }

  // The largest buffer the peer's class of station may ask for.
  function ClassMaximum(p: Peer): nat {
    if p.mlo || p.eht then MAX_AMPDU_BUF_EHT else if p.he then MAX_AMPDU_BUF_HE else MAX_AMPDU_BUF_HT
  }

  predicate Capable(p: Peer) {
    p.mlo || p.ht || p.he || p.s1g
  }

  predicate BadParameters(p: Peer, q: Request) {
    || (q.policy != 1 && (p.mlo || !p.htDelayed || !p.s1gDelayed))
    || q.bufSize > ClassMaximum(p)
  }

  class Station {
    const peer: Peer
    const reordersInHw: bool  // the device has its own reordering buffer
    const maxRxSubframes: nat // what the device can receive

    var tidRx: seq<TidRx?>
    var valid: seq<bool>      // agg_session_valid
    var unexpected: seq<bool> // unexpected_agg
    var token: seq<nat>       // tid_rx_token
    var blocked: bool         // WLAN_STA_BLOCK_BA
    ghost var log: seq<seq<Action>>

    constructor (peer: Peer, reordersInHw: bool, maxRxSubframes: nat)
      requires 0 < maxRxSubframes
      ensures Inv() && forall t | 0 <= t < NUM_TIDS :: !valid[t] && log[t] == []
    {
      this.peer, this.reordersInHw, this.maxRxSubframes := peer, reordersInHw, maxRxSubframes;
      tidRx := seq(NUM_TIDS, _ => null);
      valid := seq(NUM_TIDS, _ => false);
      unexpected := seq(NUM_TIDS, _ => false);
      token := seq(NUM_TIDS, _ => 0);
      blocked := false;
      log := seq(NUM_TIDS, _ => []);
    }

    ghost predicate Shape()
      reads this
    {
      |tidRx| == |valid| == |unexpected| == |token| == |log| == NUM_TIDS && 0 < maxRxSubframes
    }

    // One TID: the valid bit says whether the driver has a session open, and without a reordering
    // device that is when a reorder session is installed, of an acceptable size.
    ghost predicate TidInv(t: nat)
      requires Shape() && t < NUM_TIDS
      reads this, tidRx
    {
      && (valid[t] ==> t < FIRST_TSPEC_TSID)
      && After(log[t]) == (if valid[t] then Open else Closed)
      && (tidRx[t] != null <==> valid[t] && !reordersInHw)
      && (tidRx[t] != null ==>
            && tidRx[t].tid == t && !tidRx[t].removed
            && 1 <= tidRx[t].bufSize <= ClassMaximum(peer) && tidRx[t].bufSize <= maxRxSubframes)
    }

    ghost predicate Inv()
      reads this, tidRx
    {
      Shape() && forall t | 0 <= t < NUM_TIDS :: TidInv(t)
    }

    // Nothing is said to the driver, nothing changes.
    twostate predicate Same()
      reads this
    {
      tidRx == old(tidRx) && valid == old(valid) && token == old(token) && log == old(log)
    }

    // Only TID t is concerned.
    twostate predicate Only(t: nat)
      reads this
    {
      && |tidRx| == old(|tidRx|) && |valid| == old(|valid|) && |token| == old(|token|) && |log| == old(|log|)
      && |unexpected| == old(|unexpected|) && (forall u | 0 <= u < |unexpected| && u != t :: unexpected[u] == old(unexpected[u]))
      && forall u | 0 <= u < |tidRx| && u < |valid| && u < |token| && u < |log| && u != t ::
           tidRx[u] == old(tidRx[u]) && valid[u] == old(valid[u]) && token[u] == old(token[u]) && log[u] == old(log[u])
    }

    /** __ieee80211_stop_rx_ba_session: an open session is closed, once; `delba` says whether the
        peer is told. */
    method Stop(tid: nat, initiator: Initiator, tx: bool) returns (delba: bool)
      requires Inv() && tid < NUM_TIDS
      modifies this`tidRx, this`valid, this`log, tidRx[tid]
      ensures Inv() && Only(tid) && token == old(token) && !valid[tid] && tidRx[tid] == null
      ensures old(valid[tid]) ==> log[tid] == old(log[tid]) + [RxStop] && delba == (initiator == WLAN_BACK_RECIPIENT && tx)
      ensures !old(valid[tid]) ==> Same() && !delba
      ensures old(tidRx[tid]) != null ==> old(tidRx[tid]).removed
    {
      delba := false;
      var session := tidRx[tid];
      assert TidInv(tid);
      if !valid[tid] { return; }
      AfterOne(log[tid], RxStop);
      tidRx := tidRx[tid := null];
      valid := valid[tid := false];
      log := log[tid := log[tid] + [RxStop]];
      delba := initiator == WLAN_BACK_RECIPIENT && tx;
      if session != null {
        session.removed := true;
      }
      forall t | 0 <= t < NUM_TIDS
        ensures TidInv(t)
      {
        assert old(TidInv(t));
      }
    }

    // The buffer size granted: the one asked for, or the class maximum if none is named, within
    // what the device can receive.
    function Granted(bufSize: nat): (r: nat)
      ensures bufSize <= ClassMaximum(peer) ==> r <= ClassMaximum(peer)
      ensures 0 < maxRxSubframes ==> 1 <= r <= maxRxSubframes
      ensures 0 < bufSize <= maxRxSubframes ==> r == bufSize
      ensures bufSize == 0 && ClassMaximum(peer) <= maxRxSubframes ==> r == if peer.mlo || peer.eht then 1024 else if peer.he then 256 else 64
      ensures bufSize > maxRxSubframes ==> r == maxRxSubframes
    {
      Min(if bufSize == 0 then ClassMaximum(peer) else bufSize, maxRxSubframes)
    }

    // The checks that need no look at a session.
    function Screen(q: Request): Status
      reads this
    {
      if q.tid >= FIRST_TSPEC_TSID || !Capable(peer) || blocked then REQUEST_DECLINED
      else if BadParameters(peer, q) then INVALID_QOS_PARAM
      else SUCCESS
    }

    /** Open a session on a TID that has none: the driver is asked, and unless the device reorders
        by itself a reorder session is installed. */
    method OpenSession(q: Request, allocOk: bool, drvOk: bool) returns (status: Status)
      requires Inv() && q.tid < FIRST_TSPEC_TSID && !valid[q.tid] && q.bufSize <= ClassMaximum(peer)
      modifies this`tidRx, this`valid, this`unexpected, this`token, this`log
      ensures Inv() && Only(q.tid)
      ensures status == if (reordersInHw || allocOk) && drvOk then SUCCESS else REQUEST_DECLINED
      ensures valid[q.tid] == status.SUCCESS?
      ensures log[q.tid] == old(log[q.tid]) + if reordersInHw || allocOk then [RxStart(drvOk)] else []
      ensures status.SUCCESS? ==> token[q.tid] == q.token
      ensures unexpected[q.tid] == (old(unexpected[q.tid]) && status != SUCCESS)
      ensures tidRx[q.tid] != null ==>
                && fresh(tidRx[q.tid]) && tidRx[q.tid].bufSize == Granted(q.bufSize) && tidRx[q.tid].timeout == q.timeout
                && tidRx[q.tid].ssn == q.ssn
    {
      status := REQUEST_DECLINED;
      assert TidInv(q.tid);
      if !reordersInHw && !allocOk { return; }
      AfterOne(log[q.tid], RxStart(drvOk));
      log := log[q.tid := log[q.tid] + [RxStart(drvOk)]];
      if drvOk {
        if !reordersInHw {
          var session := new TidRx(q.tid, Granted(q.bufSize), q.timeout, q.ssn, q.autoSeq);
          tidRx := tidRx[q.tid := session];
        }
        status := SUCCESS;
        valid := valid[q.tid := true];
        unexpected := unexpected[q.tid := false];
        token := token[q.tid := q.token];
      }
      forall t | 0 <= t < NUM_TIDS
        ensures TidInv(t)
      {
        assert old(TidInv(t));
      }
    }

    // Aggregated frames on the TID are no surprise any more.
    method Expect(tid: nat)
      requires Inv() && tid < NUM_TIDS
      modifies this`unexpected
      ensures Inv() && unexpected == old(unexpected)[tid := false]
    {
      unexpected := unexpected[tid := false];
      forall t | 0 <= t < NUM_TIDS
        ensures TidInv(t)
      {
        assert old(TidInv(t));
      }
    }

    /** __ieee80211_start_rx_ba_session.  A request that repeats the open session's token is only
        compared with it; any other closes the old session first. */
    method Start(q: Request, allocOk: bool, drvOk: bool) returns (status: Status)
      requires Inv() && q.tid < NUM_TIDS
      modifies this`tidRx, this`valid, this`unexpected, this`token, this`log, tidRx[q.tid]
      ensures Inv() && Only(q.tid)
      ensures tidRx[q.tid] == null || tidRx[q.tid] == old(tidRx[q.tid]) || fresh(tidRx[q.tid])
      ensures unexpected[q.tid] == (old(unexpected[q.tid]) && status != SUCCESS)
      ensures old(Screen(q)) != SUCCESS ==> status == old(Screen(q)) && Same()
      // a TSPEC TID, a peer without block-ack support and a blocked station are declined
      ensures q.tid >= 8 || !(peer.mlo || peer.ht || peer.he || peer.s1g) || blocked ==> status == REQUEST_DECLINED && Same()
      // then only immediate agreements, or delayed ones that both sides know, within what the class of peer allows
      ensures q.tid < 8 && (peer.mlo || peer.ht || peer.he || peer.s1g) && !blocked ==>
                (status == INVALID_QOS_PARAM <==>
                   || (q.policy != 1 && (peer.mlo || !(peer.htDelayed && peer.s1gDelayed)))
                   || q.bufSize > (if peer.mlo || peer.eht then 1024 else if peer.he then 256 else 64))
                && (status == INVALID_QOS_PARAM ==> Same())
      ensures old(Screen(q)) == SUCCESS && old(valid[q.tid] && token[q.tid] == q.token) ==>
                && Same()
                && status == if tidRx[q.tid] != null && tidRx[q.tid].timeout == q.timeout then SUCCESS else REQUEST_DECLINED
      ensures old(Screen(q)) == SUCCESS && !old(valid[q.tid] && token[q.tid] == q.token) ==>
                && status == (if (reordersInHw || allocOk) && drvOk then SUCCESS else REQUEST_DECLINED)
                && valid[q.tid] == status.SUCCESS?
                && log[q.tid] == old(log[q.tid]) + (if old(valid[q.tid]) then [RxStop] else [])
                                 + (if reordersInHw || allocOk then [RxStart(drvOk)] else [])
                && (tidRx[q.tid] != null ==> tidRx[q.tid].bufSize == Granted(q.bufSize) && tidRx[q.tid].timeout == q.timeout)
                && (old(tidRx[q.tid]) != null ==> old(tidRx[q.tid]).removed && old(tidRx[q.tid]) != tidRx[q.tid])
    {
      status := Screen(q);
      if status != SUCCESS { return; }
      assert TidInv(q.tid);
      if valid[q.tid] {
        if token[q.tid] == q.token {
          status := if tidRx[q.tid] != null && tidRx[q.tid].timeout == q.timeout then SUCCESS else REQUEST_DECLINED;
          if status == SUCCESS { Expect(q.tid); }
          return;
        }
        var delba := Stop(q.tid, WLAN_BACK_RECIPIENT, false);
      }
      status := OpenSession(q, allocOk, drvOk);
    }

    /** The receive part of ieee80211_sta_tear_down_BA_sessions (mac80211/ht.c:326-331): afterwards no
        session is open, for the driver either. */
    method TearDown(tx: bool)
      requires Inv()
      modifies this`tidRx, this`valid, this`log, tidRx
      ensures Inv() && forall t | 0 <= t < NUM_TIDS :: !valid[t] && tidRx[t] == null && After(log[t]) == Closed
      ensures forall s | s in old(tidRx) && s != null :: s.removed
    {
      for i := 0 to NUM_TIDS
        invariant Inv() && forall t | 0 <= t < i :: !valid[t]
        invariant forall t | i <= t < NUM_TIDS :: tidRx[t] == old(tidRx)[t]
        invariant forall t | 0 <= t < i && old(tidRx)[t] != null :: old(tidRx)[t].removed
      {
        var delba := Stop(i, WLAN_BACK_RECIPIENT, tx);
      }
      forall t | 0 <= t < NUM_TIDS
        ensures !valid[t] && tidRx[t] == null && After(log[t]) == Closed
      {
        assert TidInv(t);
      }
    }

    /** Any sequence of requests, stops and teardowns keeps the invariant. */
    method Run(events: seq<Event>)
      requires Inv()
      modifies this, tidRx
      ensures Inv()
    {
      for k := 0 to |events|
        invariant Inv()
        invariant forall t | 0 <= t < NUM_TIDS :: tidRx[t] == null || tidRx[t] in old(tidRx) || fresh(tidRx[t])
      {
        ghost var before := tidRx;
        match events[k] {
          case Requested(q, allocOk, drvOk) =>
            if q.tid < NUM_TIDS { var status := Start(q, allocOk, drvOk); }
          case Stopped(tid, initiator, tx) =>
            if tid < NUM_TIDS { var delba := Stop(tid, initiator, tx); }
          case TornDown(tx) =>
            TearDown(tx);
            assert forall t | 0 <= t < NUM_TIDS :: !valid[t] && tidRx[t] == null;
          case Blocked(b) => SetBlocked(b);
        }
        assert forall t | 0 <= t < NUM_TIDS :: tidRx[t] == null || tidRx[t] == before[t] || fresh(tidRx[t]);
      }
    }

    method SetBlocked(b: bool)
      requires Inv()
      modifies this`blocked
      ensures Inv() && blocked == b
    {
      blocked := b;
      forall t | 0 <= t < NUM_TIDS
        ensures TidInv(t)
      {
        assert old(TidInv(t));
      }
    }

    /** On every TID, at any time, the driver's successful starts and stops alternate and the valid
        bit is set exactly while its session is open. */
    lemma Guarantees(t: nat)
      requires Inv() && t < NUM_TIDS
      ensures Alternating(Effective(log[t])) && (valid[t] <==> |Effective(log[t])| % 2 == 1)
      ensures tidRx[t] != null ==> valid[t] && 1 <= tidRx[t].bufSize <= Min(ClassMaximum(peer), maxRxSubframes)
    {
      assert TidInv(t);
      DriverAlternates(log[t]);
    }
  }
}
