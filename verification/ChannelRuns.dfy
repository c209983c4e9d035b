/** Runs of the channel-context protocol.  Any sequence of its public operations, each called as the
    code relies on, keeps the invariant.  Two runs show that what it relies on is not idle: a release
    can free a context whose replacement is still reserved, and a switch can free a context that a
    link is still assigned to. */
module ChannelRuns {
  import opened ChannelUsers
  import opened ChannelWorlds
  import opened ChannelLaws
  import opened ChannelContexts

  // A call of a public operation, with the answers that the driver will give.
  datatype Call =
    | Reserve(link: Link, req: ChanReq, mode: Mode, radar: bool, fits: ChanCtx -> bool, onRadio: ChanCtx -> bool, radio: bool, addErr: int)
    | Unreserve(link: Link)
    | UseReserved(link: Link, compat: bool, drvErr: int, ctxErr: int)
    | Use(link: Link, req: ChanReq, mode: Mode, dfs: int, combo: int, fits: ChanCtx -> bool,
          radio: bool, addErr: int, drvErr: int, relDrvErr: int, relCtxErr: int)
    | Release(link: Link, drvErr: int, ctxErr: int)

  // What the code relies on when it is called in the world w.
  predicate Proper(w: World, e: Call) {
    && e.link in w.link
    && match e
       case Reserve(link, _, _, _, _, _, _, _) => w.link[link].reserved == null
       case Unreserve(_) => true
       case UseReserved(link, compat, drvErr, ctxErr) =>
         CanUse(w, link, drvErr, ctxErr) && !(Frees(w, link, compat) && drvErr == 0)
       case Use(link, _, _, dfs, combo, _, _, _, _, relDrvErr, relCtxErr) =>
         link.active && 0 <= dfs && 0 <= combo ==> CanRelease(w, link, relDrvErr, relCtxErr)
       case Release(link, drvErr, ctxErr) => CanRelease(w, link, drvErr, ctxErr)
  }

  lemma FreesOnSuccess(w: World, l: Link, compat: bool, drvErr: int, ctxErr: int, ret: int, w': World)
    requires l in w.link && UseLaw(w, l, compat, drvErr, ctxErr, ret, w') && Frees(w, l, compat)
    ensures ret == drvErr
  {
  }

  method Step(loc: Local, e: Call)
    requires loc.Inv() && e.link in loc.ifs.users && Proper(loc.View(), e)
    modifies loc, loc.list, loc.ifs.users
    ensures loc.Inv() && loc.Grown()
  {
    ghost var w := loc.View();
    loc.Records();
    hide CanUse, CanRelease, Frees, Orphans, Switchable, UseLaw, ReleaseLaw, ReserveLaw, TakeLaw;
    match e
    case Reserve(link, req, mode, radar, fits, onRadio, radio, addErr) =>
      ghost var o;
      var ret, c;
      ret, c, o := loc.Reserve(link, req, mode, radar, fits, onRadio, radio, addErr);
    case Unreserve(link) =>
      loc.Unreserve(link);
    case UseReserved(link, compat, drvErr, ctxErr) =>
      var ret := loc.UseReservedContext(link, compat, drvErr, ctxErr);
      if Frees(w, link, compat) { FreesOnSuccess(w, link, compat, drvErr, ctxErr, ret, loc.View()); }
    case Use(link, req, mode, dfs, combo, fits, radio, addErr, drvErr, relDrvErr, relCtxErr) =>
      ghost var reused, mid;
      var ret;
      ret, reused, mid := loc.UseChannel(link, req, mode, dfs, combo, fits, radio, addErr, drvErr, relDrvErr, relCtxErr);
    case Release(link, drvErr, ctxErr) =>
      loc.Release(link, drvErr, ctxErr);
  }

  /** From the start, in every run of proper calls on these interfaces, whatever the driver answers:
      contexts are listed exactly while they are used, no pointer dangles, and replaced and replacing
      contexts stay paired. */
  method Run(ifs: Interfaces, canSwitch: bool, maxChannels: nat, calls: seq<Call>) returns (loc: Local)
    requires ifs.Valid() && forall l | l in ifs.users :: l.chanctx == null && l.reservedChanctx == null
    modifies ifs.users
    ensures fresh(loc) && loc.ifs == ifs && loc.Inv()
  {
    loc := new Local(ifs, canSwitch, maxChannels);
    for i := 0 to |calls|
      invariant fresh(loc) && loc.ifs == ifs && loc.Inv()
      invariant forall c | c in loc.list :: fresh(c)
    {
      if Proper(loc.View(), calls[i]) {
        loc.Records();
        forall k | 0 <= k < |loc.list|
          ensures fresh(loc.list[k])
        {
          assert loc.list[k] in loc.list;
        }
        Step(loc, calls[i]);
      }
    }
  }

  // ---------- two runs that break the invariant ----------

  // An interface with one link in its first slot.
  function OneLink(l: Link): (i: Iface)
    ensures i.running && i.iftype == STATION && |i.link| == MAX_LINKS && i.link[0] == l
    ensures forall k | 0 < k < MAX_LINKS :: i.link[k] == null
  {
    Iface(STATION, true, seq(MAX_LINKS, k => if k == 0 then l else null))
  }

  // The world of two links before anything happens.
  ghost predicate Nobody(w: World, a: Link, b: Link) {
    w.list == [] && w.ctx == map[] && w.link.Keys == {a, b} && At(w, a, null, null) && At(w, b, null, null)
  }

  // Two links on two interfaces, and nobody else.
  method TwoLinks(max: nat) returns (a: Link, b: Link, loc: Local)
    ensures fresh(a) && fresh(b) && fresh(loc) && a != b && a.active && b.active
    ensures loc.Inv() && loc.list == [] && loc.canSwitch && loc.maxChannels == max
    ensures loc.ifs.users == {a, b}
    ensures Nobody(loc.View(), a, b)
  {
    a := new Link(0, 0, true);
    b := new Link(1, 0, true);
    var ifs := new Interfaces([OneLink(a), OneLink(b)]);
    assert ifs.ifaces[0].link[0] == a && ifs.ifaces[1].link[0] == b;
    assert forall l | l in ifs.users :: ifs.IsUser(l);
    assert ifs.Counted(0) && ifs.Counted(1);
    loc := new Local(ifs, true, max);
    NobodyYet(loc, a, b);
  }

  lemma NobodyYet(loc: Local, a: Link, b: Link)
    requires loc.list == [] && loc.ifs.users == {a, b}
    requires a.chanctx == b.chanctx == a.reservedChanctx == b.reservedChanctx == null
    ensures Nobody(loc.View(), a, b)
  {
    loc.Records();
  }

  // The link is on c and reserves r.
  predicate At(w: World, l: Link, c: ChanCtx?, r: ChanCtx?) {
    l in w.link && w.link[l].chanctx == c && w.link[l].reserved == r
  }

  // Other links stay where they are.
  ghost predicate OthersStay(w: World, w': World, l: Link) {
    w'.link.Keys == w.link.Keys && forall m | m in w.link && m != l :: w'.link[m] == w.link[m]
  }

  // All contexts fit, or none does.
  function Fits(b: bool): ChanCtx -> bool { _ => b }

  ghost predicate Settled(w: World, w': World, l: Link, b: bool, c: ChanCtx) {
    && l in w.link && At(w', l, c, w.link[l].reserved) && OthersStay(w, w', l) && w'.ctx == w.ctx[c := CtxV(NONE, null)]
    && (!b ==> c !in w.list && w'.list == [c] + w.list && c.mode == SHARED)
    && (b && w.list != [] && IsState(w, w.list[0], NONE) && w.list[0].mode == SHARED ==> c == w.list[0] && w'.list == w.list)
  }

  // What taking a channel makes of a world when every answer is good.
  lemma Taken(w: World, l: Link, b: bool, mid: World, reused: bool, ret: int, c: ChanCtx?, w': World)
    requires l in w.link && w.link[l].chanctx == null
    requires AfterRelease(Radar(w, l, false), l, 0, 0, mid)
    requires TookOrGaveUp(mid, l, 0, SHARED, Fits(b), true, 0, 0, reused, ret, c, w')
    ensures c != null && ret == 0 && Settled(w, w', l, b, c)
  {
    assert mid == Radar(w, l, false);
    assert ret == 0;
    if b && w.list != [] && IsState(w, w.list[0], NONE) && w.list[0].mode == SHARED {
      assert CanTake(mid, mid.list[0], Fits(b));
    }
  }

  /** Use(l): a link without a context takes the first one that fits, or a new one. */
  method Settle(loc: Local, l: Link, b: bool) returns (ghost c: ChanCtx)
    requires loc.Inv() && l in loc.ifs.users && l.active && l.chanctx == null
    modifies loc, loc.list, loc.ifs.users
    ensures loc.Inv() && forall k | 0 <= k < |loc.list| :: loc.list[k] in old(loc.list) || fresh(loc.list[k])
    ensures Settled(old(loc.View()), loc.View(), l, b, c)
  {
    loc.Records();
    ghost var w := loc.View();
    assert w.link[l].chanctx == null && CanRelease(w, l, 0, 0);
    hide loc.View, loc.Inv, CanRelease, AfterRelease, TookOrGaveUp, Settled;
    ghost var reused, mid;
    var ret;
    ret, reused, mid := loc.UseChannel(l, 0, SHARED, 0, 0, Fits(b), true, 0, 0, 0, 0);
    Taken(w, l, b, mid, reused, ret, l.chanctx, loc.View());
    c := l.chanctx;
  }

  /** Reserve(l) when there is no room: the link's own context gets a replacement. */
  method PairUp(loc: Local, l: Link, ghost x: ChanCtx) returns (ghost y: ChanCtx)
    requires loc.Inv() && l in loc.ifs.users && l.reservedChanctx == null && l.chanctx == x
    requires loc.canSwitch && |loc.list| >= loc.maxChannels
    requires x.replaceState == NONE && forall m | m in loc.ifs.users :: m.reservedChanctx != x
    modifies loc, loc.list, loc.ifs.users
    ensures loc.Inv() && (forall k | 0 <= k < |loc.list| :: loc.list[k] in old(loc.list) || fresh(loc.list[k])) && l in old(loc.View()).link && y !in old(loc.list) && y.mode == SHARED
    ensures loc.View() == Reserved(old(loc.View()), l, Replacing(x), y, 0, false)
  {
    assert !loc.AnyJoinable(SHARED, Fits(false));
    assert loc.ifs.ReservedFor(x) == {};
    assert loc.AnyReplaceable(l.chanctx, Fits(true)) && loc.Replaceable(x);
    ghost var o;
    var ret, c;
    hide loc.Inv, loc.View, loc.AnyJoinable, loc.AnyReplaceable;
    ret, c, o := loc.Reserve(l, 0, SHARED, false, Fits(false), Fits(true), true, 0);
    y := c;
  }

  /** Reserve(l) when there is room: a new ordinary context. */
  method AddOne(loc: Local, l: Link) returns (ghost z: ChanCtx)
    requires loc.Inv() && l in loc.ifs.users && l.reservedChanctx == null && loc.canSwitch && |loc.list| < loc.maxChannels
    modifies loc, loc.list, loc.ifs.users
    ensures loc.Inv() && (forall k | 0 <= k < |loc.list| :: loc.list[k] in old(loc.list) || fresh(loc.list[k])) && l in old(loc.View()).link && z !in old(loc.list)
    ensures loc.View() == Reserved(old(loc.View()), l, Added, z, 0, false)
  {
    assert !loc.AnyJoinable(SHARED, Fits(false));
    ghost var o;
    var ret, c;
    hide loc.Inv, loc.View, loc.AnyJoinable;
    ret, c, o := loc.Reserve(l, 0, SHARED, false, Fits(false), Fits(true), true, 0);
    z := c;
  }

  /** Reserve(l) when y is the only context that can be joined. */
  method JoinIn(loc: Local, l: Link, ghost y: ChanCtx)
    requires loc.Inv() && l in loc.ifs.users && l.reservedChanctx == null && (l.chanctx == null || loc.canSwitch)
    requires y in loc.list && forall c | c in loc.list :: loc.Joinable(c, Fits(true)) <==> c == y
    modifies loc, loc.list, loc.ifs.users
    ensures loc.Inv() && (forall k | 0 <= k < |loc.list| :: loc.list[k] in old(loc.list) || fresh(loc.list[k])) && l in old(loc.View()).link
    ensures loc.View() == Reserved(old(loc.View()), l, Joined, y, 0, false)
  {
    assert loc.AnyJoinable(SHARED, Fits(true));
    ghost var o;
    var ret, c;
    ghost var was := loc.list;
    assert forall d | d in loc.list && loc.FirstJoinable(d, Fits(true)) :: d == y;
    hide loc.Inv, loc.View, loc.AnyJoinable, loc.Joinable;
    ret, c, o := loc.Reserve(l, 0, SHARED, false, Fits(true), Fits(true), true, 0);
  }

  // a is on x, b on z.
  ghost predicate OnTwo(w: World, a: Link, b: Link, x: ChanCtx, z: ChanCtx, shared: bool) {
    && At(w, a, x, null) && At(w, b, z, null) && w.link.Keys == {a, b} && a != b && x.mode == SHARED
    && if shared then x == z && w.list == [x] && w.ctx == map[x := CtxV(NONE, null)]
       else x != z && w.list == [z, x] && w.ctx == map[x := CtxV(NONE, null), z := CtxV(NONE, null)]
  }

  // a is on x, b nowhere.
  ghost predicate OneOn(w: World, a: Link, b: Link, x: ChanCtx) {
    && At(w, a, x, null) && At(w, b, null, null) && w.link.Keys == {a, b} && a != b && x.mode == SHARED
    && w.list == [x] && w.ctx == map[x := CtxV(NONE, null)]
  }

  lemma FirstSettled(w: World, w': World, a: Link, b: Link, x: ChanCtx)
    requires a != b && Nobody(w, a, b) && Settled(w, w', a, false, x)
    ensures OneOn(w', a, b, x)
  {
    assert w'.link[b] == w.link[b];
  }

  lemma BothSettled(w: World, w': World, a: Link, b: Link, x: ChanCtx, z: ChanCtx, shared: bool)
    requires OneOn(w, a, b, x) && Settled(w, w', b, shared, z)
    ensures OnTwo(w', a, b, x, z, shared)
  {
    assert IsState(w, w.list[0], NONE) && w'.link[a] == w.link[a];
  }

  // The value tells where a link is.
  lemma Whereabouts(loc: Local, l: Link, c: ChanCtx?, r: ChanCtx?)
    requires At(loc.View(), l, c, r)
    ensures l in loc.ifs.users && l.chanctx == c && l.reservedChanctx == r
  {
  }

  lemma NobodyThere(loc: Local, a: Link, b: Link)
    requires Nobody(loc.View(), a, b)
    ensures a.chanctx == null && loc.list == []
  {
    loc.Records();
    Whereabouts(loc, a, null, null);
  }

  // The first link takes a context.
  method FirstOn(max: nat) returns (a: Link, b: Link, loc: Local, ghost x: ChanCtx)
    ensures fresh(a) && fresh(b) && fresh(loc) && loc.ifs.users == {a, b} && b.active && b.chanctx == null
    ensures loc.Inv() && fresh(loc.list) && loc.canSwitch && loc.maxChannels == max
    ensures OneOn(loc.View(), a, b, x)
  {
    hide *;
    a, b, loc := TwoLinks(max);
    ghost var w := loc.View();
    NobodyThere(loc, a, b);
    x := Settle(loc, a, false);
    FirstSettled(w, loc.View(), a, b, x);
    NotYet(loc, a, b, x);
  }

  lemma NotYet(loc: Local, a: Link, b: Link, x: ChanCtx)
    requires OneOn(loc.View(), a, b, x)
    ensures b.chanctx == null
  {
    Whereabouts(loc, b, null, null);
  }

  // The second one takes the same (`shared`) or another.
  method TwoOn(max: nat, shared: bool) returns (a: Link, b: Link, loc: Local, ghost x: ChanCtx, ghost z: ChanCtx)
    ensures fresh(a) && fresh(b) && fresh(loc) && loc.ifs.users == {a, b}
    ensures loc.Inv() && fresh(loc.list) && loc.canSwitch && loc.maxChannels == max
    ensures OnTwo(loc.View(), a, b, x, z, shared)
  {
    hide *;
    a, b, loc, x := FirstOn(max);
    ghost var w := loc.View();
    z := Settle(loc, b, shared);
    BothSettled(w, loc.View(), a, b, x, z, shared);
  }

  // ---------- the stranded replacement ----------

  // a is on x and reserves y, its replacement; b is on z.
  ghost predicate OnePaired(w: World, a: Link, b: Link, x: ChanCtx, y: ChanCtx, z: ChanCtx) {
    && At(w, a, x, y) && At(w, b, z, null) && w.link.Keys == {a, b} && a != b && x != z && y != x && y != z && w.list == [y, z, x] && y.mode == SHARED
    && w.ctx == map[x := CtxV(WILL_BE_REPLACED, y), y := CtxV(REPLACES_OTHER, x), z := CtxV(NONE, null)]
  }

  method TwoAndOne() returns (a: Link, b: Link, loc: Local, ghost x: ChanCtx, ghost y: ChanCtx, ghost z: ChanCtx)
    ensures fresh(a) && fresh(b) && fresh(loc) && loc.ifs.users == {a, b}
    ensures loc.Inv() && fresh(loc.list)
    ensures OnePaired(loc.View(), a, b, x, y, z)
  {
    hide *;
    a, b, loc, x, z := TwoOn(2, false);
    y := PairFirst(loc, a, b, x, z);
  }

  method PairFirst(loc: Local, a: Link, ghost b: Link, ghost x: ChanCtx, ghost z: ChanCtx) returns (ghost y: ChanCtx)
    requires loc.Inv() && OnTwo(loc.View(), a, b, x, z, false) && loc.canSwitch && loc.maxChannels == 2
    modifies loc, loc.list, loc.ifs.users
    ensures loc.Inv() && OnePaired(loc.View(), a, b, x, y, z)
    ensures forall k | 0 <= k < |loc.list| :: loc.list[k] in old(loc.list) || fresh(loc.list[k])
  {
    hide *;
    ghost var w := loc.View();
    BothThere(loc, a, b, x, z);
    y := PairUp(loc, a, x);
    PairedUp(w, a, b, x, y, z);
  }

  lemma BothThere(loc: Local, a: Link, b: Link, x: ChanCtx, z: ChanCtx)
    requires OnTwo(loc.View(), a, b, x, z, false)
    ensures a in loc.ifs.users && a.reservedChanctx == null && a.chanctx == x && x.replaceState == NONE && |loc.list| == 2
    ensures loc.list == loc.View().list && forall m | m in loc.ifs.users :: m.reservedChanctx != x
  {
    loc.Records();
    Whereabouts(loc, a, x, null);
    Whereabouts(loc, b, z, null);
  }

  lemma PairedUp(w: World, a: Link, b: Link, x: ChanCtx, y: ChanCtx, z: ChanCtx)
    requires OnTwo(w, a, b, x, z, false) && y !in w.list && y.mode == SHARED
    ensures OnePaired(Reserved(w, a, Replacing(x), y, 0, false), a, b, x, y, z)
  {
  }

  // a is on x and reserves y, its replacement; b is nowhere.
  ghost predicate OneWaiting(w: World, a: Link, b: Link, x: ChanCtx, y: ChanCtx) {
    && At(w, a, x, y) && At(w, b, null, null) && w.link.Keys == {a, b} && a != b && w.list == [y, x] && x != y && y.mode == SHARED
    && w.ctx == map[x := CtxV(WILL_BE_REPLACED, y), y := CtxV(REPLACES_OTHER, x)]
  }

  lemma OnlyYJoinable(loc: Local, a: Link, b: Link, x: ChanCtx, y: ChanCtx)
    requires OneWaiting(loc.View(), a, b, x, y)
    ensures b in loc.ifs.users && y in loc.list && forall c | c in loc.list :: loc.Joinable(c, Fits(true)) <==> c == y
    ensures b.chanctx == null && b.reservedChanctx == null
  {
    loc.Records();
    assert a in loc.ifs.ReservedFor(y);
  }

  // Without b on it, z is gone.
  lemma AloneOnZ(w: World, a: Link, b: Link, x: ChanCtx, y: ChanCtx, z: ChanCtx)
    requires OnePaired(w, a, b, x, y, z)
    ensures b in w.link && CanRelease(w, b, 0, 0) && !Shares(w, b)
    ensures OneWaiting(Released(w, b), a, b, x, y)
  {
    var links := w.link[b := w.link[b].(chanctx := null, radar := false)];
    assert forall l | l in links :: links[l].chanctx != z && links[l].reserved != z;
    var s1, s2, s3 := [x], [z, x], [y, z, x];
    assert s1[1..] == [] && s2[1..] == s1 && s3[1..] == s2;
    assert Without(s1[1..], z) == [] && Without(s1, z) == s1 && Without(s2, z) == s1 && Without(s3, z) == [y, x];
  }

  method OneLeft() returns (a: Link, b: Link, loc: Local, ghost x: ChanCtx, ghost y: ChanCtx)
    ensures fresh(a) && fresh(b) && fresh(loc) && loc.ifs.users == {a, b}
    ensures loc.Inv() && fresh(loc.list)
    ensures OneWaiting(loc.View(), a, b, x, y)
  {
    ghost var z;
    hide *;
    a, b, loc, x, y, z := TwoAndOne();
    ghost var w := loc.View();
    AloneOnZ(w, a, b, x, y, z);
    loc.Release(b, 0, 0);
    assert forall k | 0 <= k < |loc.list| :: loc.list[k] in loc.list;
    AfterQuietRelease(w, b, loc.View());
  }

  lemma AfterQuietRelease(w: World, l: Link, w': World)
    requires l in w.link && AfterRelease(w, l, 0, 0, w') && !Shares(w, l)
    ensures w' == Released(w, l)
  {
  }

  lemma BothWait(loc: Local, w: World, a: Link, b: Link, x: ChanCtx, y: ChanCtx)
    requires OneWaiting(w, a, b, x, y) && loc.View() == Reserved(w, b, Joined, y, 0, false)
    ensures a in loc.ifs.users && a.chanctx != null && loc.Stranding(a)
  {
    var v := loc.View();
    assert At(v, a, x, y) && At(v, b, null, y) && v.link.Keys == {a, b};
    loc.Records();
    assert loc.list == [y, x] && x in loc.list;
    assert x.replaceState == WILL_BE_REPLACED && x.replaceCtx == y;
  }

  /** Use(a), Use(b), Reserve(a), Release(b), Reserve(b): afterwards a is the last link on x, and both
      links reserve its replacement y. */
  method StrandedWorld() returns (a: Link, loc: Local)
    ensures fresh(a) && fresh(loc) && fresh(loc.list)
    ensures a in loc.ifs.users && loc.Inv() && a.chanctx != null && loc.Stranding(a)
  {
    var b;
    ghost var x, y;
    hide *;
    a, b, loc, x, y := OneLeft();
    OnlyYJoinable(loc, a, b, x, y);
    ghost var w := loc.View();
    JoinIn(loc, b, y);
    BothWait(loc, w, a, b, x, y);
  }

  /** Releasing a frees x and leaves y waiting to replace nothing. */
  method StrandedRelease() returns (loc: Local)
    ensures !loc.Inv()
  {
    var a;
    hide *;
    a, loc := StrandedWorld();
    var retry := loc.ReleaseLink(a);
  }

  // ---------- the dangling assignment ----------

  // Both links are on x; a reserves the ordinary context z, b the replacement y of x.
  ghost predicate Crossed(w: World, a: Link, b: Link, x: ChanCtx, y: ChanCtx, z: ChanCtx) {
    && At(w, a, x, z) && At(w, b, x, y) && w.link.Keys == {a, b} && a != b && x != z && y != x && y != z && w.list == [y, z, x]
    && w.ctx == map[x := CtxV(WILL_BE_REPLACED, y), y := CtxV(REPLACES_OTHER, x), z := CtxV(NONE, null)]
  }

  lemma Sharing(loc: Local, a: Link, b: Link, x: ChanCtx)
    requires OnTwo(loc.View(), a, b, x, x, true)
    ensures a in loc.ifs.users && a.reservedChanctx == null && loc.list == [x] == loc.View().list
  {
    loc.Records();
    Whereabouts(loc, a, x, null);
  }

  lemma NextToPair(loc: Local, w: World, a: Link, b: Link, x: ChanCtx, z: ChanCtx)
    requires OnTwo(w, a, b, x, x, true) && loc.View() == Reserved(w, a, Added, z, 0, false) && z != x
    ensures b in loc.ifs.users && b.reservedChanctx == null && b.chanctx == x && x.replaceState == NONE && |loc.list| == 2
    ensures forall m | m in loc.ifs.users :: m.reservedChanctx != x
  {
    loc.Records();
    assert loc.list == [z, x] && x in loc.list && loc.ifs.users == {a, b};
    Whereabouts(loc, a, x, z);
    Whereabouts(loc, b, x, null);
  }

  lemma CrossedNow(w: World, a: Link, b: Link, x: ChanCtx, y: ChanCtx, z: ChanCtx)
    requires OnTwo(w, a, b, x, x, true) && z != x && y != x && y != z
    ensures var v := Reserved(w, a, Added, z, 0, false);
            b in v.link && Crossed(Reserved(v, b, Replacing(x), y, 0, false), a, b, x, y, z)
  {
  }

  // Use(a), Use(b), Reserve(a).
  method OneReserved() returns (a: Link, b: Link, loc: Local, ghost x: ChanCtx, ghost z: ChanCtx, ghost w: World)
    ensures fresh(a) && fresh(b) && fresh(loc) && loc.ifs.users == {a, b}
    ensures loc.Inv() && fresh(loc.list) && loc.canSwitch && loc.maxChannels == 2 && loc.list == [z, x] && z != x
    ensures OnTwo(w, a, b, x, x, true) && a in w.link && loc.View() == Reserved(w, a, Added, z, 0, false)
  {
    hide *;
    a, b, loc, x, z := TwoOn(2, true);
    OnSame(loc.View(), a, b, x, z);
    w := loc.View();
    Sharing(loc, a, b, x);
    z := AddOne(loc, a);
    Apart(w, loc, a, b, x, z);
  }

  /** Use(a), Use(b), Reserve(a), Reserve(b), with room for two contexts. */
  method CrossedWorld() returns (a: Link, b: Link, loc: Local, ghost x: ChanCtx, ghost y: ChanCtx, ghost z: ChanCtx)
    ensures fresh(a) && fresh(b) && fresh(loc) && loc.ifs.users == {a, b}
    ensures loc.Inv() && fresh(loc.list)
    ensures Crossed(loc.View(), a, b, x, y, z)
  {
    ghost var w;
    hide *;
    a, b, loc, x, z, w := OneReserved();
    NextToPair(loc, w, a, b, x, z);
    y := PairUp(loc, b, x);
    CrossedNow(w, a, b, x, y, z);
  }

  lemma OnSame(w: World, a: Link, b: Link, x: ChanCtx, z: ChanCtx)
    requires OnTwo(w, a, b, x, z, true)
    ensures OnTwo(w, a, b, x, x, true) && w.list == [x]
  {
  }

  lemma Apart(w: World, loc: Local, a: Link, b: Link, x: ChanCtx, z: ChanCtx)
    requires OnTwo(w, a, b, x, x, true) && z !in w.list && loc.View() == Reserved(w, a, Added, z, 0, false)
    ensures z != x && loc.list == [z, x]
  {
    loc.Records();
  }

  /** When b is ready the switch goes ahead, although a would have to move, too. */
  lemma CrossedGoes(w: World, a: Link, b: Link, x: ChanCtx, y: ChanCtx, z: ChanCtx)
    requires Crossed(w, a, b, x, y, z)
    ensures var v := Readied(w, b); Decision(v, 0, 0) == 0 && Anchored(v) && !SourcesMove(v)
  {
    var v := Readied(w, b);
    assert a in v.link && b in v.link && Moves(v, v.link[b]) && !Joins(v, v.link[a]);
    assert PairVerdict(v, y, x) == Go;
    var s1, s2, s3 := [x], [z, x], [y, z, x];
    assert s1[1..] == [] && s2[1..] == s1 && s3[1..] == s2;
    assert ListVerdict(v, s1[1..]) == Go && ListVerdict(v, s1) == Go && ListVerdict(v, s2) == Go && ListVerdict(v, s3) == Go;
    assert y in v.list;
    assert AnchoredAt(v, y);
  }

  /** The switch succeeds and frees x under a. */
  method DanglingSwitch() returns (loc: Local)
    ensures !loc.Inv()
  {
    var a, b;
    ghost var x, y, z;
    hide *;
    a, b, loc, x, y, z := CrossedWorld();
    CrossedGoes(loc.View(), a, b, x, y, z);
    loc.MarkReady(b);
    var ret := loc.UseReservedSwitch(0, 0);
  }

  // ---------- a channel switch of two links ----------

  // Both links are on x and reserve its replacement y; neither is ready.
  ghost predicate BothReserve(w: World, a: Link, b: Link, x: ChanCtx, y: ChanCtx) {
    && At(w, a, x, y) && At(w, b, x, y) && !w.link[a].ready && !w.link[b].ready
    && w.link.Keys == {a, b} && a != b && x != y && w.list == [y, x]
    && w.ctx == map[x := CtxV(WILL_BE_REPLACED, y), y := CtxV(REPLACES_OTHER, x)]
  }

  // After the first reservation.
  ghost predicate OneReserves(w: World, a: Link, b: Link, x: ChanCtx, y: ChanCtx) {
    && At(w, a, x, y) && At(w, b, x, null) && !w.link[a].ready && y.mode == SHARED
    && w.link.Keys == {a, b} && a != b && x != y && w.list == [y, x]
    && w.ctx == map[x := CtxV(WILL_BE_REPLACED, y), y := CtxV(REPLACES_OTHER, x)]
  }

  lemma OnShared(loc: Local, a: Link, b: Link, x: ChanCtx)
    requires OnTwo(loc.View(), a, b, x, x, true)
    ensures a in loc.ifs.users && a.reservedChanctx == null && a.chanctx == x && x.replaceState == NONE && loc.list == [x]
    ensures forall m | m in loc.ifs.users :: m.reservedChanctx != x
  {
    loc.Records();
    Whereabouts(loc, a, x, null);
    Whereabouts(loc, b, x, null);
    assert x in loc.list;
  }

  lemma NowOneReserves(w: World, a: Link, b: Link, x: ChanCtx, y: ChanCtx)
    requires OnTwo(w, a, b, x, x, true) && y !in w.list && y.mode == SHARED
    ensures OneReserves(Reserved(w, a, Replacing(x), y, 0, false), a, b, x, y)
  {
  }

  // Use(a), Use(b), Reserve(a), with room for one context.
  method OneOfTwo() returns (a: Link, b: Link, loc: Local, ghost x: ChanCtx, ghost y: ChanCtx)
    ensures fresh(a) && fresh(b) && fresh(loc) && loc.ifs.users == {a, b}
    ensures loc.Inv() && fresh(loc.list) && loc.canSwitch
    ensures OneReserves(loc.View(), a, b, x, y)
  {
    ghost var z;
    hide *;
    a, b, loc, x, z := TwoOn(1, true);
    OnSame(loc.View(), a, b, x, z);
    ghost var w := loc.View();
    OnShared(loc, a, b, x);
    y := PairUp(loc, a, x);
    NowOneReserves(w, a, b, x, y);
  }

  lemma OnlyYToJoin(loc: Local, a: Link, b: Link, x: ChanCtx, y: ChanCtx)
    requires OneReserves(loc.View(), a, b, x, y)
    ensures b in loc.ifs.users && y in loc.list && forall c | c in loc.list :: loc.Joinable(c, Fits(true)) <==> c == y
    ensures b.reservedChanctx == null
  {
    loc.Records();
    assert a in loc.ifs.ReservedFor(y);
  }

  lemma NowBothReserve(w: World, a: Link, b: Link, x: ChanCtx, y: ChanCtx)
    requires OneReserves(w, a, b, x, y)
    ensures BothReserve(Reserved(w, b, Joined, y, 0, false), a, b, x, y)
  {
  }

  // And Reserve(b).
  method BothOfTwo() returns (a: Link, b: Link, loc: Local, ghost x: ChanCtx, ghost y: ChanCtx)
    ensures fresh(a) && fresh(b) && fresh(loc) && loc.ifs.users == {a, b}
    ensures loc.Inv() && fresh(loc.list)
    ensures BothReserve(loc.View(), a, b, x, y)
  {
    hide *;
    a, b, loc, x, y := OneOfTwo();
    ghost var w := loc.View();
    OnlyYToJoin(loc, a, b, x, y);
    JoinIn(loc, b, y);
    NowBothReserve(w, a, b, x, y);
  }

  // The first one that is ready waits for the other.
  lemma FirstWaits(w: World, a: Link, b: Link, x: ChanCtx, y: ChanCtx, drvErr: int, ret: int, w': World)
    requires BothReserve(w, a, b, x, y) && UseLaw(w, a, true, drvErr, 0, ret, w')
    ensures ret == 0 && w' == Readied(w, a)
  {
    var r := Readied(w, a);
    assert !SomeBare(r);
    assert IsState(r, r.link[b].chanctx, WILL_BE_REPLACED) && IsState(r, r.link[b].reserved, REPLACES_OTHER) && !r.link[b].ready;
    hide Blocked, Hopeless, SomeHoping, SomeWaiting, Swapped, Unwound;
  }

  // The second one takes both along, or the driver's refusal ends it for both.
  lemma SecondDecides(w: World, a: Link, b: Link, x: ChanCtx, y: ChanCtx, drvErr: int, ret: int, w': World)
    requires BothReserve(w, a, b, x, y) && UseLaw(Readied(w, a), b, true, drvErr, 0, ret, w') && drvErr != EAGAIN
    ensures ret == drvErr
    ensures if drvErr == 0 then At(w', a, y, null) && At(w', b, y, null) && x !in w'.list && y in w'.list
            else At(w', a, x, null) && At(w', b, x, null) && x in w'.list && y !in w'.list
  {
    var r := Readied(Readied(w, a), b);
    BothReady(w, a, b, x, y);
    hide Blocked, Hopeless, SomeHoping, SomeBare, SomeLate, SomeWaiting;
  }

  lemma BothReady(w: World, a: Link, b: Link, x: ChanCtx, y: ChanCtx)
    requires BothReserve(w, a, b, x, y)
    ensures var r := Readied(Readied(w, a), b); !SomeBare(r) && !SomeLate(r) && SomeWaiting(r, true) && !SomeWaiting(r, false)
  {
    var r := Readied(Readied(w, a), b);
    assert IsState(r, r.link[a].reserved, REPLACES_OTHER) && IsState(r, r.link[a].chanctx, WILL_BE_REPLACED);
  }

  // Neither call is improper.
  lemma BothMayUse(w: World, a: Link, b: Link, x: ChanCtx, y: ChanCtx, drvErr: int)
    requires BothReserve(w, a, b, x, y)
    ensures a in w.link && CanUse(w, a, drvErr, 0) && !Frees(w, a, true)
    ensures var v := Readied(w, a); b in v.link && CanUse(v, b, drvErr, 0) && !Frees(v, b, true)
  {
    var v := Readied(w, a);
    SwapsBoth(w, v, a, b, x, y);
    SwapsBoth(w, Readied(v, b), a, b, x, y);
    hide Decision;
  }

  lemma SwapsBoth(w: World, v: World, a: Link, b: Link, x: ChanCtx, y: ChanCtx)
    requires BothReserve(w, a, b, x, y) && v.list == w.list && v.ctx == w.ctx && v.link.Keys == w.link.Keys
    requires At(v, a, x, y) && At(v, b, x, y)
    ensures Anchored(v) && SourcesMove(v)
  {
    assert v.link[a].reserved == y && Moves(v, v.link[a]);
    assert AnchoredAt(v, y);
  }

  /** The whole switch: the first call of use-reserved waits and reports no error, the second one moves
      both links to the replacement and frees the old context, or on the driver's refusal drops both
      reservations and the replacement. */
  method TwoLinkSwitch(drvErr: int) returns (a: Link, b: Link, loc: Local, ghost x: ChanCtx, ghost y: ChanCtx, first: int, second: int)
    requires drvErr != EAGAIN
    ensures loc.Inv() && x != y && first == 0 && second == drvErr
    ensures if drvErr == 0 then At(loc.View(), a, y, null) && At(loc.View(), b, y, null) && x !in loc.list && y in loc.list
            else At(loc.View(), a, x, null) && At(loc.View(), b, x, null) && x in loc.list && y !in loc.list
  {
    hide *;
    a, b, loc, x, y := BothOfTwo();
    ghost var w := loc.View();
    BothMayUse(w, a, b, x, y, drvErr);
    first := loc.UseReservedContext(a, true, drvErr, 0);
    FirstWaits(w, a, b, x, y, drvErr, first, loc.View());
    assert forall k | 0 <= k < |loc.list| :: loc.list[k] in loc.list;
    second := loc.UseReservedContext(b, true, drvErr, 0);
    SecondDecides(w, a, b, x, y, drvErr, second, loc.View());
    loc.Records();
    Differ(w, a, b, x, y);
  }

  lemma Differ(w: World, a: Link, b: Link, x: ChanCtx, y: ChanCtx)
    requires BothReserve(w, a, b, x, y)
    ensures x != y
  {
  }

  // Releasing a leaves b alone with both contexts.
  lemma WithoutA(w: World, a: Link, b: Link, x: ChanCtx, y: ChanCtx)
    requires BothReserve(w, a, b, x, y)
    ensures var v := Readied(w, b);
            a in v.link && CanRelease(v, a, 0, 0) && !Strands(v, a)
  {
    var v := Readied(w, b);
    var links := v.link[a := v.link[a].(reserved := null)];
    var without := links[a := links[a].(chanctx := null, radar := false)];
    assert links[b].reserved == y && without[b].chanctx == x;
    assert Uses(links, y) && Uses(without, x);
    var m := Released(v, a);
    assert m == World(w.list, w.ctx, without);
    assert m.link[b].reserved == y && Moves(m, m.link[b]);
    assert AnchoredAt(m, y);
    hide Decision;
  }

  lemma BLands(w: World, a: Link, b: Link, x: ChanCtx, y: ChanCtx, w': World)
    requires BothReserve(w, a, b, x, y) && Sound(Readied(w, b)) && ReleaseLaw(Readied(w, b), a, 0, 0, w') && !Strands(Readied(w, b), a)
    ensures At(w', b, y, null)
  {
    var v := Readied(w, b);
    OnlyThese(w, a, b, x, y);
    hide *;
    OthersLand(v, a, b, 0, w');
    ItIsThere(w', b, y);
  }

  lemma ItIsThere(w: World, b: Link, y: ChanCtx)
    requires b in w.link && w.link[b].chanctx == y && w.link[b].reserved == null
    ensures At(w, b, y, null)
  {
  }

  lemma OnlyThese(w: World, a: Link, b: Link, x: ChanCtx, y: ChanCtx)
    requires BothReserve(w, a, b, x, y)
    ensures var v := Readied(w, b);
            && a in v.link && b in v.link && b != a && v.link[a].chanctx != null
            && IsState(v, v.link[a].reserved, REPLACES_OTHER) && v.link[b].reserved == v.link[a].reserved == y
            && IsState(v, v.link[b].chanctx, WILL_BE_REPLACED)
            && (forall m | m in v.link && m != a && IsState(v, v.link[m].chanctx, WILL_BE_REPLACED) :: v.link[m].reserved != null && v.link[m].ready)
            && (forall m | m in v.link && m != a && IsState(v, v.link[m].reserved, REPLACES_OTHER) :: IsState(v, v.link[m].chanctx, WILL_BE_REPLACED))
  {
  }

  lemma FirstWaitsB(w: World, a: Link, b: Link, x: ChanCtx, y: ChanCtx, ret: int, w': World)
    requires BothReserve(w, a, b, x, y) && UseLaw(w, b, true, 0, 0, ret, w')
    ensures ret == 0 && w' == Readied(w, b)
  {
    FirstWaits(w, b, a, x, y, 0, ret, w');
  }

  lemma EitherFirst(w: World, a: Link, b: Link, x: ChanCtx, y: ChanCtx)
    requires BothReserve(w, a, b, x, y)
    ensures BothReserve(w, b, a, x, y)
  {
  }

  /** b is ready and waits for a; when a is released instead, the switch is completed for b. */
  method ReleaseCompletes() returns (a: Link, b: Link, loc: Local, ghost x: ChanCtx, ghost y: ChanCtx)
    ensures loc.Inv() && At(loc.View(), b, y, null)
  {
    hide *;
    a, b, loc, x, y := BothOfTwo();
    ghost var w := loc.View();
    EitherFirst(w, a, b, x, y);
    BothMayUse(w, b, a, x, y, 0);
    var first := loc.UseReservedContext(b, true, 0, 0);
    FirstWaitsB(w, a, b, x, y, first, loc.View());
    WithoutA(w, a, b, x, y);
    loc.InvView();
    IsSound(loc);
    assert forall k | 0 <= k < |loc.list| :: loc.list[k] in loc.list;
    loc.Release(a, 0, 0);
    BLands(w, a, b, x, y, loc.View());
  }

  lemma IsSound(loc: Local)
    requires loc.Inv()
    ensures Sound(loc.View())
  {
    loc.InvView();
  }
}
