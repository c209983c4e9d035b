/** The state of the channel-context protocol as a value, and what its steps make of it: who is on
    which context, who reserves which, and which contexts are paired.  The operations of
    `ChannelContexts` work on objects in place; their contracts speak of these values. */
module ChannelWorlds {
  import opened ChannelUsers

  const EAGAIN := -11
  const EBUSY := -16
  const EINVAL := -22
  const EOPNOTSUPP := -95

  // ---------- context lists ----------

  ghost predicate Distinct(s: seq<ChanCtx>) {
    forall i, j | 0 <= i < j < |s| :: s[i] != s[j]
  }

  // A context list without one of its members.
  function Without(s: seq<ChanCtx>, c: ChanCtx): (r: seq<ChanCtx>)
    ensures forall d | d in s :: d != c ==> d in r
    ensures forall d | d in r :: d in s && d != c
    ensures Distinct(s) ==> Distinct(r)
  {
    if s == [] then []
    else if s[0] == c then Without(s[1..], c)
    else
      assert forall i | 0 <= i < |s[1..]| :: s[1..][i] == s[i + 1];
      assert Distinct(s) ==> s[0] !in s[1..];
      [s[0]] + Without(s[1..], c)
  }

  lemma WithoutAbsent(s: seq<ChanCtx>, c: ChanCtx)
    requires c !in s
    ensures Without([c] + s, c) == s == Without(s, c)
  {
    assert ([c] + s)[1..] == s;
    if s != [] { WithoutAbsent(s[1..], c); }
  }

  // What is left of the list s without the contexts in `gone`.
  ghost function Except(s: seq<ChanCtx>, gone: set<ChanCtx>): seq<ChanCtx> {
    if s == [] then []
    else if s[0] in gone then Except(s[1..], gone)
    else [s[0]] + Except(s[1..], gone)
  }

  lemma ExceptMembers(s: seq<ChanCtx>, gone: set<ChanCtx>)
    ensures forall d | d in s && d !in gone :: d in Except(s, gone)
    ensures forall d | d in Except(s, gone) :: d in s && d !in gone
    ensures Distinct(s) ==> Distinct(Except(s, gone))
  {
    if s != [] {
      ExceptMembers(s[1..], gone);
      assert forall i | 0 <= i < |s[1..]| :: s[1..][i] == s[i + 1];
    }
  }

  lemma ExceptNothing(s: seq<ChanCtx>)
    ensures Except(s, {}) == s
  {
  }

  lemma {:induction false} ExceptOneMore(s: seq<ChanCtx>, gone: set<ChanCtx>, c: ChanCtx)
    ensures Without(Except(s, gone), c) == Except(s, gone + {c})
  {
    if s != [] {
      ExceptOneMore(s[1..], gone, c);
      var rest := Except(s[1..], gone);
      assert ([s[0]] + rest)[1..] == rest;
    }
  }

  // ---------- worlds ----------

  datatype CtxV = CtxV(state: ReplaceState, partner: ChanCtx?)
  datatype LinkV = LinkV(chanctx: ChanCtx?, chanreq: ChanReq, radar: bool,
                         reserved: ChanCtx?, resReq: ChanReq, resRadar: bool, ready: bool)

  /** The listed contexts in list order with their records, and the record of every user link. */
  datatype World = World(list: seq<ChanCtx>, ctx: map<ChanCtx, CtxV>, link: map<Link, LinkV>)

  predicate IsState(w: World, c: ChanCtx?, s: ReplaceState) {
    c != null && c in w.ctx && w.ctx[c].state == s
  }

  ghost function Leaving(w: World): set<ChanCtx> {
    set c | c in w.ctx && w.ctx[c].state == WILL_BE_REPLACED
  }

  predicate OnlyOrdinary(w: World) {
    forall c | c in w.list :: c in w.ctx && w.ctx[c] == CtxV(NONE, null)
  }

  predicate Uses(links: map<Link, LinkV>, c: ChanCtx?) {
    exists l | l in links :: links[l].chanctx == c || links[l].reserved == c
  }

  // The link reserves a replacement.
  predicate Joins(w: World, v: LinkV) { IsState(w, v.reserved, REPLACES_OTHER) }

  // It is on a context that goes away, too: it takes part in the swap.
  predicate Moves(w: World, v: LinkV) { Joins(w, v) && IsState(w, v.chanctx, WILL_BE_REPLACED) }

  // ---------- single links ----------

  // The world with another record of one link.
  function With(w: World, l: Link, v: LinkV): World {
    w.(link := w.link[l := v])
  }

  // The context c is freed if nobody uses it any more.
  function Reap(w: World, c: ChanCtx): World {
    if Uses(w.link, c) then w else World(Without(w.list, c), w.ctx - {c}, w.link)
  }

  function Readied(w: World, l: Link): World
    requires l in w.link
  {
    With(w, l, w.link[l].(ready := true))
  }

  // How a reservation obtained its context: refused, joined a listed one, added an ordinary one,
  // or paired a new one with the context it will replace.
  datatype Origin = Refused | Joined | Added | Replacing(p: ChanCtx)

  // The link reserves c.
  function Reserved(w: World, l: Link, o: Origin, c: ChanCtx, req: ChanReq, radar: bool): World
    requires l in w.link
  {
    var links := w.link[l := w.link[l].(reserved := c, resReq := req, resRadar := radar, ready := false)];
    match o
    case Added => World([c] + w.list, w.ctx[c := CtxV(NONE, null)], links)
    case Replacing(p) => World([c] + w.list, w.ctx[c := CtxV(REPLACES_OTHER, p)][p := CtxV(WILL_BE_REPLACED, c)], links)
    case _ => w.(link := links)
  }

  // The link drops its reservation; the partner of a replacement that is freed is ordinary again.
  function Unreserved(w: World, l: Link): World
    requires l in w.link
  {
    var v := w.link[l];
    var w' := With(w, l, v.(reserved := null));
    if v.reserved == null then w
    else if Uses(w'.link, v.reserved) then w'
    else
      var p := if Joins(w, v) then w.ctx[v.reserved].partner else null;
      World(Without(w.list, v.reserved), (if p == null then w.ctx else w.ctx[p := CtxV(NONE, null)]) - {v.reserved}, w'.link)
  }

  // The link gives up its context.
  function Left(w: World, l: Link): World
    requires l in w.link
  {
    var v := w.link[l];
    if v.chanctx == null then w else Reap(With(w, l, v.(chanctx := null, radar := false)), v.chanctx)
  }

  function Released(w: World, l: Link): World
    requires l in w.link
  {
    if w.link[l].chanctx == null then w else Left(Unreserved(w, l), l)
  }

  // The link uses its reservation of an ordinary context: the request must still fit (`compat`), and
  // the driver answers `drvErr`.
  function Moved(w: World, l: Link, compat: bool, drvErr: int): World
    requires l in w.link && w.link[l].reserved != null
  {
    var v := w.link[l];
    var dropped := v.(reserved := null);
    if !compat then w
    else if v.chanctx == null then
      if drvErr != 0 then Reap(With(w, l, dropped), v.reserved)
      else With(w, l, dropped.(chanctx := v.reserved))
    else
      if drvErr != 0 then Reap(With(w, l, dropped.(chanreq := v.resReq)), v.reserved)
      else Reap(With(w, l, dropped.(chanctx := v.reserved, chanreq := v.resReq, radar := v.resRadar)), v.chanctx)
  }

  // Moving the link away would free a context that still waits for its replacement.
  predicate Orphans(w: World, l: Link)
    requires l in w.link
  {
    && IsState(w, w.link[l].chanctx, WILL_BE_REPLACED)
    && forall m | m in w.link && m != l :: w.link[m].chanctx != w.link[l].chanctx
  }

  // Releasing it would, while others still reserve the replacement.
  predicate Strands(w: World, l: Link)
    requires l in w.link
  {
    && Orphans(w, l)
    && exists m | m in w.link && m != l :: w.link[m].reserved == w.ctx[w.link[l].chanctx].partner
  }

  // Others reserve the same replacement, so a switch is worth retrying without the link.
  predicate Shares(w: World, l: Link)
    requires l in w.link
  {
    Joins(w, w.link[l]) && exists m | m in w.link && m != l :: w.link[m].reserved == w.link[l].reserved
  }

  // ---------- the switch ----------

  // Can a pair swap now, must it wait, or can it never finish?
  datatype Verdict = Go | Defer | Stuck

  predicate AllReserved(w: World, a: ChanCtx) {
    forall l | l in w.link && w.link[l].chanctx == a :: w.link[l].reserved != null
  }

  predicate AllReady(w: World, a: ChanCtx) {
    forall l | l in w.link && w.link[l].chanctx == a && w.link[l].reserved != null :: w.link[l].ready
  }

  predicate SwapReady(w: World, c: ChanCtx) {
    forall l | l in w.link && w.link[l].reserved == c && Moves(w, w.link[l]) :: w.link[l].ready
  }

  // A replacement is ready when every link on the old context has a reservation and every
  // link about to swap to it is ready; if some link has no reservation while all others are
  // ready, it never will be.
  function PairVerdict(w: World, c: ChanCtx, a: ChanCtx): Verdict {
    if !AllReserved(w, a) then (if AllReady(w, a) then Stuck else Defer)
    else if SwapReady(w, c) then Go else Defer
  }

  function VerdictOf(w: World, c: ChanCtx): Verdict {
    if IsState(w, c, REPLACES_OTHER) && w.ctx[c].partner != null then PairVerdict(w, c, w.ctx[c].partner) else Go
  }

  // The first pair in list order that is not ready decides.
  function ListVerdict(w: World, cs: seq<ChanCtx>): Verdict {
    if cs == [] then Go else if VerdictOf(w, cs[0]) != Go then VerdictOf(w, cs[0]) else ListVerdict(w, cs[1..])
  }

  lemma {:induction false} GoMeansReserved(w: World, cs: seq<ChanCtx>, c: ChanCtx)
    requires ListVerdict(w, cs) == Go && c in cs && IsState(w, c, REPLACES_OTHER) && w.ctx[c].partner != null
    ensures AllReserved(w, w.ctx[c].partner)
  {
    if cs[0] != c { GoMeansReserved(w, cs[1..], c); }
  }

  // Some replacement among cs is reserved by a link that moves (or, for !moving, does not).
  predicate Reserver(w: World, cs: seq<ChanCtx>, moving: bool) {
    exists l | l in w.link :: Joins(w, w.link[l]) && w.link[l].reserved in cs && Moves(w, w.link[l]) == moving
  }

  predicate PairIn(w: World, cs: seq<ChanCtx>) {
    exists c | c in cs :: IsState(w, c, REPLACES_OTHER)
  }

  /** The answer of the switch: wait, impossible, nothing to do, or what the driver says to the links
      that swap and to those that only join. */
  function Decision(w: World, drvErr: int, ctxErr: int): int {
    match ListVerdict(w, w.list)
    case Defer => EAGAIN
    case Stuck => EBUSY
    case Go =>
      if !PairIn(w, w.list) then EINVAL
      else if Reserver(w, w.list, true) && drvErr != 0 then drvErr
      else if Reserver(w, w.list, false) then ctxErr
      else 0
  }

  // A link after a successful switch: those that swap are on what they reserved, with the reserved
  // request; those that only join are refused if they are ready, and go on waiting if not.
  function AfterSwap(w: World, v: LinkV): LinkV {
    if !Joins(w, v) then v
    else if Moves(w, v) then v.(chanctx := v.reserved, chanreq := v.resReq, radar := v.resRadar, reserved := null)
    else if v.ready then v.(reserved := null)
    else v
  }

  // The replaced contexts are gone, all others are ordinary.
  ghost predicate Swap(w: World, w': World) {
    && w'.link.Keys == w.link.Keys
    && (forall l | l in w.link :: w'.link[l] == AfterSwap(w, w.link[l]))
    && w'.list == Except(w.list, Leaving(w))
    && OnlyOrdinary(w')
  }

  // Every reservation of a replacement is dropped; the replacements are gone.
  ghost predicate Unwound(w: World, w': World) {
    && w'.link.Keys == w.link.Keys
    && (forall l | l in w.link ::
          w'.link[l] == if Joins(w, w.link[l]) then w.link[l].(reserved := null) else w.link[l])
    && (forall c | c in w.ctx :: c in w'.list <==> w.ctx[c].state != REPLACES_OTHER)
    && (forall c | c in w'.list :: c in w.ctx)
    && OnlyOrdinary(w')
  }

  /** What the switch makes of a world. */
  ghost predicate AfterSwitch(w: World, drvErr: int, ctxErr: int, w': World) {
    if ListVerdict(w, w.list) == Defer then w' == w
    else if Decision(w, drvErr, ctxErr) != 0 then Unwound(w, w')
    else Swap(w, w')
  }

  lemma Waits(w: World, drvErr: int, ctxErr: int)
    requires ListVerdict(w, w.list) == Defer
    ensures Decision(w, drvErr, ctxErr) == EAGAIN && AfterSwitch(w, drvErr, ctxErr, w)
  {
  }

  lemma Resolves(w: World, drvErr: int, ctxErr: int, w': World)
    requires ListVerdict(w, w.list) != Defer
    requires if Decision(w, drvErr, ctxErr) != 0 then Unwound(w, w') else Swap(w, w')
    ensures AfterSwitch(w, drvErr, ctxErr, w')
  {
  }

  lemma OnlyGoSwaps(w: World, drvErr: int, ctxErr: int)
    ensures Decision(w, drvErr, ctxErr) == 0 ==> ListVerdict(w, w.list) == Go
  {
  }

  lemma SwitchAddsNothing(w: World, drvErr: int, ctxErr: int, w': World)
    requires AfterSwitch(w, drvErr, ctxErr, w') && forall c | c in w.ctx :: c in w.list
    ensures forall c | c in w'.list :: c in w.list
  {
    ExceptMembers(w.list, Leaving(w));
  }

  // A link whose context goes away reserves nothing but a replacement.
  predicate SourcesMove(w: World) {
    forall l | l in w.link && IsState(w, w.link[l].chanctx, WILL_BE_REPLACED) && w.link[l].reserved != null :: Joins(w, w.link[l])
  }

  // Every replacement has a reserver that keeps it: one that swaps to it or is not ready yet.
  predicate Anchored(w: World) {
    forall c | c in w.list && IsState(w, c, REPLACES_OTHER) :: AnchoredAt(w, c)
  }

  predicate AnchoredAt(w: World, c: ChanCtx) {
    exists l | l in w.link :: w.link[l].reserved == c && (Moves(w, w.link[l]) || !w.link[l].ready)
  }

  // The reservers of the replacements cs have been dealt with, nothing else has changed.
  ghost predicate Landing(w: World, w': World, cs: seq<ChanCtx>) {
    && w'.list == w.list && w'.ctx == w.ctx && w'.link.Keys == w.link.Keys
    && forall l | l in w.link :: w'.link[l] == if w.link[l].reserved in cs then AfterSwap(w, w.link[l]) else w.link[l]
  }

  // One replacement after the other.
  lemma LandMore(w: World, v: World, v': World, cs: seq<ChanCtx>, c: ChanCtx)
    requires Landing(w, v, cs) && Landing(v, v', [c]) && c !in cs
    ensures Landing(w, v', cs + [c])
  {
    forall l | l in w.link
      ensures v'.link[l] == if w.link[l].reserved in cs + [c] then AfterSwap(w, w.link[l]) else w.link[l]
    {
      var x := w.link[l];
      assert v.link[l] == if x.reserved in cs then AfterSwap(w, x) else x;
      assert v'.link[l] == if v.link[l].reserved in [c] then AfterSwap(v, v.link[l]) else v.link[l];
      StaysAway(w, x);
      SameSwap(v, w, x);
      hide AfterSwap, Landing;
    }
    hide AfterSwap;
  }

  // Landing gives a link no new reservation.
  lemma StaysAway(w: World, x: LinkV)
    ensures AfterSwap(w, x).reserved == x.reserved || AfterSwap(w, x).reserved == null
  {
  }

  lemma SameSwap(v: World, w: World, x: LinkV)
    requires v.ctx == w.ctx
    ensures AfterSwap(v, x) == AfterSwap(w, x)
  {
  }

  // A replacement that is still to come finds its reservers as they were.
  lemma StillAnchored(w: World, v: World, cs: seq<ChanCtx>, c: ChanCtx)
    requires Landing(w, v, cs) && c !in cs && AnchoredAt(w, c)
    ensures AnchoredAt(v, c)
  {
    var l :| l in w.link && w.link[l].reserved == c && (Moves(w, w.link[l]) || !w.link[l].ready);
    assert v.link[l] == w.link[l];
  }

  // ---------- the invariant ----------

  predicate PairedAt(w: World, c: ChanCtx)
    requires c in w.ctx
  {
    var v := w.ctx[c];
    if v.state == NONE then v.partner == null
    else
      && v.partner != null && v.partner in w.ctx && w.ctx[v.partner].partner == c
      && w.ctx[v.partner].state == if v.state == WILL_BE_REPLACED then REPLACES_OTHER else WILL_BE_REPLACED
  }

  // Every pointer of a link is to a listed context.
  predicate AllListed(w: World) {
    forall l | l in w.link ::
      && (w.link[l].chanctx != null ==> w.link[l].chanctx in w.list)
      && (w.link[l].reserved != null ==> w.link[l].reserved in w.list)
  }

  predicate AllUsed(w: World) {
    forall c | c in w.list :: Uses(w.link, c)
  }

  predicate AllPaired(w: World) {
    forall c | c in w.ctx :: PairedAt(w, c)
  }

  // Nobody waits for a context that goes away, nobody is on one that is not there yet.
  predicate AllPlaced(w: World) {
    forall l | l in w.link :: !IsState(w, w.link[l].chanctx, REPLACES_OTHER) && !IsState(w, w.link[l].reserved, WILL_BE_REPLACED)
  }

  // The protocol's invariant.
  ghost predicate Sound(w: World) {
    && Distinct(w.list) && w.ctx.Keys == (set c | c in w.list)
    && AllListed(w) && AllUsed(w) && AllPaired(w) && AllPlaced(w)
  }

  ghost predicate SourcesReserved(w: World) {
    forall l | l in w.link && IsState(w, w.link[l].chanctx, WILL_BE_REPLACED) :: w.link[l].reserved != null
  }

  lemma GoMeansSourcesReserved(w: World)
    requires Sound(w) && ListVerdict(w, w.list) == Go
    ensures SourcesReserved(w)
  {
    forall l | l in w.link && IsState(w, w.link[l].chanctx, WILL_BE_REPLACED)
      ensures w.link[l].reserved != null
    {
      var a := w.link[l].chanctx;
      assert PairedAt(w, a);
      GoMeansReserved(w, w.list, w.ctx[a].partner);
    }
  }

  // On the way, pointers are to listed contexts, and nobody is on a replacement still to come.
  lemma LandingListed(w: World, v: World, cs: seq<ChanCtx>, c: ChanCtx)
    requires Sound(w) && Landing(w, v, cs) && c !in cs && IsState(w, c, REPLACES_OTHER)
    ensures AllListed(v) && forall l | l in v.link && v.link[l].reserved == c :: v.link[l].chanctx != c
  {
    hide AllUsed, AllPaired;
    forall l | l in v.link
      ensures v.link[l].chanctx != null ==> v.link[l].chanctx in v.list
      ensures v.link[l].reserved != null ==> v.link[l].reserved in v.list
      ensures v.link[l].reserved == c ==> v.link[l].chanctx != c
    {
      assert v.link[l] == if w.link[l].reserved in cs then AfterSwap(w, w.link[l]) else w.link[l];
    }
  }

  // When all have been dealt with and the replaced contexts are freed, the swap is complete.
  lemma LandedAll(w: World, v: World, w': World)
    requires Sound(w) && Landing(w, v, w.list) && w'.link == v.link
    requires w'.list == Except(w.list, Leaving(w)) && OnlyOrdinary(w')
    ensures Swap(w, w')
  {
    hide Except, AllUsed, AllPaired, OnlyOrdinary;
    forall l | l in w.link
      ensures w'.link[l] == AfterSwap(w, w.link[l])
    {
      assert w.link[l].reserved != null ==> w.link[l].reserved in w.list;
    }
  }

  lemma SwapUses(w: World, w': World, c: ChanCtx)
    requires Sound(w) && Anchored(w) && Swap(w, w') && c in w'.list
    ensures Uses(w'.link, c)
  {
    ExceptMembers(w.list, Leaving(w));
    if w.ctx[c].state == REPLACES_OTHER {
      assert AnchoredAt(w, c);
      var l :| l in w.link && w.link[l].reserved == c && (Moves(w, w.link[l]) || !w.link[l].ready);
      assert w'.link[l].chanctx == c || w'.link[l].reserved == c;
    } else {
      assert Uses(w.link, c);
      var l :| l in w.link && (w.link[l].chanctx == c || w.link[l].reserved == c);
      assert w'.link[l].chanctx == c || w'.link[l].reserved == c;
    }
  }

  // A listed context stays listed unless it is replaced.
  lemma StaysListed(w: World, w': World, c: ChanCtx)
    requires Sound(w) && Swap(w, w') && c in w.list
    ensures c in w'.list <==> !IsState(w, c, WILL_BE_REPLACED)
  {
    ExceptMembers(w.list, Leaving(w));
    hide Except;
  }

  lemma LinkLists(w: World, w': World, l: Link)
    requires Sound(w) && SourcesReserved(w) && SourcesMove(w) && Swap(w, w') && l in w.link
    ensures w'.link[l].chanctx != null ==> w'.link[l].chanctx in w'.list
    ensures w'.link[l].reserved != null ==> w'.link[l].reserved in w'.list
  {
    var v := w.link[l];
    assert w'.link[l] == AfterSwap(w, v);
    if v.chanctx != null { StaysListed(w, w', v.chanctx); }
    if v.reserved != null { StaysListed(w, w', v.reserved); }
    hide Swap, AllUsed, AllPaired;
  }

  lemma SwapLists(w: World, w': World)
    requires Sound(w) && SourcesReserved(w) && Swap(w, w')
    ensures AllListed(w') <==> SourcesMove(w)
  {
    if SourcesMove(w) {
      forall l | l in w'.link
        ensures w'.link[l].chanctx != null ==> w'.link[l].chanctx in w'.list
        ensures w'.link[l].reserved != null ==> w'.link[l].reserved in w'.list
      {
        LinkLists(w, w', l);
      }
    } else {
      var l :| l in w.link && IsState(w, w.link[l].chanctx, WILL_BE_REPLACED) && w.link[l].reserved != null && !Joins(w, w.link[l]);
      assert w'.link[l] == w.link[l];
      StaysListed(w, w', w.link[l].chanctx);
    }
  }

  /** The only way a completed switch can go wrong: a link on a replaced context reserved something
      else. */
  lemma SwapSound(w: World, w': World)
    requires Sound(w) && Anchored(w) && SourcesReserved(w) && Swap(w, w')
    requires w'.ctx.Keys == set c | c in w'.list
    ensures Sound(w') <==> SourcesMove(w)
  {
    ExceptMembers(w.list, Leaving(w));
    SwapLists(w, w');
    forall c | c in w'.list
      ensures Uses(w'.link, c)
    {
      SwapUses(w, w', c);
    }
    assert OnlyOrdinary(w') && Distinct(w'.list);
    hide Sound, Swap, SourcesMove, Uses, Distinct, Anchored, SourcesReserved, AllListed;
    OrdinarySound(w');
  }

  lemma OrdinarySound(w: World)
    requires OnlyOrdinary(w) && w.ctx.Keys == (set c | c in w.list) && Distinct(w.list) && AllUsed(w)
    ensures Sound(w) <==> AllListed(w)
  {
    assert forall c | c in w.ctx :: c in w.list;
  }

  // What the switch relies on when it goes ahead.
  predicate Switchable(w: World, drvErr: int, ctxErr: int) {
    Decision(w, drvErr, ctxErr) == 0 ==> Anchored(w) && SourcesMove(w)
  }

  /** What a release makes of a world: with others still waiting for the replacement, the switch is
      retried without the link. */
  ghost predicate AfterRelease(w: World, l: Link, drvErr: int, ctxErr: int, w': World)
    requires l in w.link
  {
    if w.link[l].chanctx != null && Shares(w, l) then AfterSwitch(Released(w, l), drvErr, ctxErr, w')
    else w' == Released(w, l)
  }

  // What a release relies on.
  predicate CanRelease(w: World, l: Link, drvErr: int, ctxErr: int)
    requires l in w.link
  {
    w.link[l].chanctx != null ==> !Strands(w, l) && (Shares(w, l) ==> Switchable(Released(w, l), drvErr, ctxErr))
  }

  // What the use of a reservation relies on, once the link is ready.
  predicate CanUse(w: World, l: Link, drvErr: int, ctxErr: int)
    requires l in w.link
  {
    Joins(w, w.link[l]) && !w.link[l].ready ==> Switchable(Readied(w, l), drvErr, ctxErr)
  }

  // A release leaves the link without a context.
  lemma Vacates(w: World, l: Link, drvErr: int, ctxErr: int, w': World)
    requires l in w.link && AfterRelease(w, l, drvErr, ctxErr, w')
    ensures l in w'.link && w'.link[l].chanctx == null
  {
    var r := Released(w, l);
    assert r.link[l].chanctx == null;
    if w.link[l].chanctx != null {
      assert r.link[l].reserved == null;
      hide Released, Decision, ListVerdict, Except, OnlyOrdinary;
    }
  }

  // ---------- taking a channel ----------

  // An ordinary, shared context that fits the request.
  predicate CanTake(w: World, c: ChanCtx, fits: ChanCtx -> bool) {
    IsState(w, c, NONE) && c.mode != EXCLUSIVE && fits(c)
  }

  predicate Findables(w: World, mode: Mode, fits: ChanCtx -> bool) {
    mode != EXCLUSIVE && exists c | c in w.list :: CanTake(w, c, fits)
  }

  ghost predicate FirstFindable(w: World, c: ChanCtx, fits: ChanCtx -> bool) {
    exists i | 0 <= i < |w.list| :: w.list[i] == c && CanTake(w, c, fits) && forall j | 0 <= j < i :: !CanTake(w, w.list[j], fits)
  }

  function TakeAnswer(found: bool, radio: bool, addErr: int, drvErr: int): int {
    if found then drvErr else if !radio then EBUSY else if addErr != 0 then addErr else drvErr
  }

  // The link is on c, which is listed first if it is new.
  ghost predicate AfterTake(w: World, l: Link, req: ChanReq, c: ChanCtx, w': World)
    requires l in w.link
  {
    w' == World(if c in w.list then w.list else [c] + w.list, w.ctx[c := CtxV(NONE, null)],
                w.link[l := w.link[l].(chanctx := c, chanreq := req)])
  }

  // The link got none; its request is recorded if the driver was asked to take it (`asked`).
  function NotTaken(w: World, l: Link, req: ChanReq, asked: bool): World
    requires l in w.link
  {
    if asked then With(w, l, w.link[l].(chanreq := req)) else w
  }

  /** Everything that happens to a link without a context that takes a channel: the first context that
      will do (`reused`) or a new one, c, or none. */
  ghost predicate Took(w: World, l: Link, req: ChanReq, mode: Mode, fits: ChanCtx -> bool, radio: bool, addErr: int, drvErr: int,
                       reused: bool, ret: int, c: ChanCtx?, w': World)
    requires l in w.link
  {
    && reused == Findables(w, mode, fits) && ret == TakeAnswer(reused, radio, addErr, drvErr)
    && if ret == 0 then
         && c != null && AfterTake(w, l, req, c, w')
         && if reused then FirstFindable(w, c, fits) else c !in w.list && c.mode == mode
       else w' == NotTaken(w, l, req, reused || (radio && addErr == 0))
  }

  // The same when a failure also takes back the need for radar detection.
  ghost predicate TookOrGaveUp(w: World, l: Link, req: ChanReq, mode: Mode, fits: ChanCtx -> bool, radio: bool, addErr: int, drvErr: int,
                               reused: bool, ret: int, c: ChanCtx?, w': World)
    requires l in w.link
  {
    if ret == 0 then Took(w, l, req, mode, fits, radio, addErr, drvErr, reused, ret, c, w')
    else
      && reused == Findables(w, mode, fits) && ret == TakeAnswer(reused, radio, addErr, drvErr)
      && w' == Radar(NotTaken(w, l, req, reused || (radio && addErr == 0)), l, false)
  }

  lemma GaveUp(w: World, l: Link, req: ChanReq, mode: Mode, fits: ChanCtx -> bool, radio: bool, addErr: int, drvErr: int,
               reused: bool, ret: int, c: ChanCtx?, w': World)
    requires l in w.link && ret != 0 && Took(w, l, req, mode, fits, radio, addErr, drvErr, reused, ret, c, w')
    ensures l in w'.link && TookOrGaveUp(w, l, req, mode, fits, radio, addErr, drvErr, reused, ret, c, Radar(w', l, false))
  {
  }

  lemma TookIt(w: World, l: Link, req: ChanReq, mode: Mode, fits: ChanCtx -> bool, radio: bool, addErr: int, drvErr: int,
               reused: bool, ret: int, c: ChanCtx?, w': World)
    requires l in w.link && ret == 0 && Took(w, l, req, mode, fits, radio, addErr, drvErr, reused, ret, c, w')
    ensures TookOrGaveUp(w, l, req, mode, fits, radio, addErr, drvErr, reused, ret, c, w')
  {
  }

  lemma RadarTwice(w: World, l: Link, radar: bool)
    requires l in w.link
    ensures Radar(Radar(w, l, radar), l, false) == Radar(w, l, false)
  {
    assert w.link[l := w.link[l].(radar := radar)][l := w.link[l].(radar := false)] == w.link[l := w.link[l].(radar := false)];
  }

  // The need for radar detection that was there before a release does not matter to it.
  lemma RadarIsForgotten(w: World, l: Link, radar: bool, drvErr: int, ctxErr: int)
    requires l in w.link
    ensures CanRelease(Radar(w, l, radar), l, drvErr, ctxErr) == CanRelease(w, l, drvErr, ctxErr)
  {
    if w.link[l].chanctx != null {
      ReleasedForgets(w, l, radar);
      SameNeighbours(w, l, radar);
    }
    hide Released, Strands, Shares, Switchable;
  }

  function Radar(w: World, l: Link, radar: bool): World
    requires l in w.link
  {
    With(w, l, w.link[l].(radar := radar))
  }

  lemma SameNeighbours(w: World, l: Link, radar: bool)
    requires l in w.link
    ensures var w' := Radar(w, l, radar); Strands(w', l) == Strands(w, l) && Shares(w', l) == Shares(w, l)
  {
    var w' := Radar(w, l, radar);
    assert w'.link.Keys == w.link.Keys && forall m | m in w.link && m != l :: w'.link[m] == w.link[m];
    OthersTell(w, w', l);
    OthersTell(w', w, l);
  }

  lemma OthersTell(w: World, w': World, l: Link)
    requires l in w.link && w'.link.Keys == w.link.Keys && w'.ctx == w.ctx
    requires w'.link[l].chanctx == w.link[l].chanctx && w'.link[l].reserved == w.link[l].reserved
    requires forall m | m in w.link && m != l :: w'.link[m] == w.link[m]
    ensures (Strands(w, l) ==> Strands(w', l)) && (Shares(w, l) ==> Shares(w', l))
  {
    if Shares(w, l) {
      var m :| m in w.link && m != l && w.link[m].reserved == w.link[l].reserved;
      assert m in w'.link;
    }
    if Strands(w, l) {
      var m :| m in w.link && m != l && w.link[m].reserved == w.ctx[w.link[l].chanctx].partner;
      assert m in w'.link;
    }
  }

  lemma ReleasedForgets(w: World, l: Link, radar: bool)
    requires l in w.link && w.link[l].chanctx != null
    ensures Released(Radar(w, l, radar), l) == Released(w, l)
  {
    UnreservedKeepsRadar(w, l, radar);
    var u, u' := Unreserved(w, l), Unreserved(Radar(w, l, radar), l);
    var v := u.link[l].(chanctx := null, radar := false);
    assert u'.link[l := v] == u.link[l := v];
    hide Reap, Unreserved;
  }

  lemma UnreservedKeepsRadar(w: World, l: Link, radar: bool)
    requires l in w.link
    ensures Unreserved(Radar(w, l, radar), l) == Radar(Unreserved(w, l), l, radar)
  {
    var v := w.link[l];
    if v.reserved == null {
      hide *;
    } else {
      var x, x' := w.link[l := v.(reserved := null)], Radar(w, l, radar).link[l := v.(radar := radar, reserved := null)];
      assert x' == x[l := v.(radar := radar, reserved := null)];
      SameUses(x, x', v.reserved);
      hide Uses;
    }
  }

  lemma SameUses(x: map<Link, LinkV>, y: map<Link, LinkV>, c: ChanCtx)
    requires x.Keys == y.Keys && forall l | l in x :: x[l].chanctx == y[l].chanctx && x[l].reserved == y[l].reserved
    ensures Uses(x, c) == Uses(y, c)
  {
    if Uses(x, c) {
      var l :| l in x && (x[l].chanctx == c || x[l].reserved == c);
      assert l in y;
    }
  }
}
