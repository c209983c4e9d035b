/** Users of a channel context: the links that are assigned to it or reserve it.
    mac80211 stores no list of users; it finds them with a resumable iterator over
    interfaces and link slots (mac80211/chan.c:15-177).  This module models that iterator
    and the three counters built on it. */
module ChannelUsers {

  const MAX_LINKS := 15 // slots of an interface's link array (IEEE80211_MLD_MAX_NUM_LINKS)

  datatype IfType = AP | AP_VLAN | STATION | ADHOC | MESH_POINT | OCB | MONITOR | P2P_DEVICE
  datatype ReplaceState = NONE | WILL_BE_REPLACED | REPLACES_OTHER
  datatype Mode = SHARED | EXCLUSIVE

  class ChanCtx {
    var replaceState: ReplaceState
    var replaceCtx: ChanCtx?
    var willBeUsed: bool
    const mode: Mode

    constructor (mode: Mode)
      ensures this.mode == mode
      ensures replaceState == NONE && replaceCtx == null && !willBeUsed
    {
      this.mode := mode;
      replaceState, replaceCtx, willBeUsed := NONE, null, false;
    }
  }

  // A channel request; what makes two requests compatible is left abstract.
  type ChanReq = int

  class Link {
    const ifIndex: nat // position of the owning interface
    const linkId: nat
    const active: bool
    var chanctx: ChanCtx?
    var chanreq: ChanReq
    var radarRequired: bool
    var reservedChanctx: ChanCtx?
    var reservedReq: ChanReq
    var reservedRadar: bool
    var reservedReady: bool

    constructor (ifIndex: nat, linkId: nat, active: bool)
      ensures this.ifIndex == ifIndex && this.linkId == linkId && this.active == active
      ensures chanctx == null && reservedChanctx == null
    {
      this.ifIndex, this.linkId, this.active := ifIndex, linkId, active;
      chanctx, reservedChanctx := null, null;
      chanreq, reservedReq := 0, 0;
      radarRequired, reservedRadar, reservedReady := false, false, false;
    }
  }

  datatype Iface = Iface(iftype: IfType, running: bool, link: seq<Link?>)

  datatype IterType = ALL | RESERVED | ASSIGNED
  datatype Stage = AtAssigned | AtReserved | AtDone

  /** The iterator struct: interface and link it stands on, which of the link's two pointers
      was yielded, and the stage to resume the link at. */
  datatype UserIter = UserIter(sdata: int, link: Link?, perLink: Stage, reserved: bool, done: bool)

  const START := UserIter(-1, null, AtAssigned, false, false)

  /** One use of a context by a link, through its assigned or its reserved pointer. */
  datatype Use = Use(link: Link, reserved: bool)

  // Interface order, then slot order.
  predicate Before(l: Link, m: Link) {
    l.ifIndex < m.ifIndex || (l.ifIndex == m.ifIndex && l.linkId < m.linkId)
  }

  // The order in which uses are yielded.
  predicate UseBefore(u: Use, v: Use) {
    Before(u.link, v.link) || (u.link == v.link && !u.reserved && v.reserved)
  }

  class Interfaces {
    const ifaces: seq<Iface>
    const users: set<Link> // the links of these interfaces that the iterator considers; no operation reads it

    // Links the iterator considers: those of running interfaces other than AP_VLAN.
    predicate Counted(i: int)
      requires 0 <= i < |ifaces|
    {
      ifaces[i].running && ifaces[i].iftype != AP_VLAN
    }

    ghost predicate Slots() {
      forall i | 0 <= i < |ifaces| ::
        |ifaces[i].link| == MAX_LINKS &&
        forall k | 0 <= k < MAX_LINKS && ifaces[i].link[k] != null ::
          ifaces[i].link[k].ifIndex == i && ifaces[i].link[k].linkId == k
    }

    ghost predicate IsUser(l: Link)
      requires Slots()
    {
      && l.ifIndex < |ifaces| && Counted(l.ifIndex)
      && l.linkId < MAX_LINKS && ifaces[l.ifIndex].link[l.linkId] == l
    }

    ghost predicate Valid() {
      && Slots()
      && (forall l | l in users :: IsUser(l))
      && (forall i, k | 0 <= i < |ifaces| && 0 <= k < MAX_LINKS ::
            Counted(i) && ifaces[i].link[k] != null ==> ifaces[i].link[k] in users)
    }

    constructor (ifaces: seq<Iface>)
      requires forall i | 0 <= i < |ifaces| ::
                 |ifaces[i].link| == MAX_LINKS &&
                 forall k | 0 <= k < MAX_LINKS && ifaces[i].link[k] != null ::
                   ifaces[i].link[k].ifIndex == i && ifaces[i].link[k].linkId == k
      ensures Valid() && this.ifaces == ifaces
    {
      this.ifaces := ifaces;
      users := set i, k | 0 <= i < |ifaces| && 0 <= k < MAX_LINKS
                          && ifaces[i].running && ifaces[i].iftype != AP_VLAN
                          && ifaces[i].link[k] != null :: ifaces[i].link[k] as Link;
    }

    /** The users are the links of the running interfaces that are not AP_VLANs. */
    lemma UsersAre(i: nat, k: nat)
      requires Valid() && i < |ifaces| && k < 15 && ifaces[i].link[k] != null
      ensures ifaces[i].link[k] in users <==> ifaces[i].running && !ifaces[i].iftype.AP_VLAN?
      ensures forall l | l in users :: l.ifIndex < |ifaces| && l.linkId < 15 && ifaces[l.ifIndex].link[l.linkId] == l
    {
      if ifaces[i].link[k] in users { assert IsUser(ifaces[i].link[k]); }
    }

    // Two users with the same position are the same link.
    lemma Total(l: Link, m: Link)
      requires Valid() && l in users && m in users
      ensures l == m || Before(l, m) || Before(m, l)
    {
      assert IsUser(l) && IsUser(m);
    }

    ghost predicate IsUse(u: Use, ctx: ChanCtx, ty: IterType)
      reads users
    {
      && u.link in users
      && if u.reserved then ty != ASSIGNED && u.link.reservedChanctx == ctx
         else ty != RESERVED && u.link.chanctx == ctx
    }

    ghost predicate ValidIter(it: UserIter) {
      !it.done ==>
        && it.link != null && it.link in users && it.sdata == it.link.ifIndex
        && it.perLink == if it.reserved then AtDone else AtReserved
    }

    // The use an unfinished iterator stands on.
    ghost function Current(it: UserIter): Use
      requires it.link != null
    {
      Use(it.link, it.reserved)
    }

    // Uses not yet yielded when resuming at (i, k, stage).
    ghost predicate Ahead(u: Use, i: int, k: int, stage: Stage) {
      || u.link.ifIndex > i
      || (u.link.ifIndex == i && u.link.linkId > k)
      || (u.link.ifIndex == i && u.link.linkId == k
          && (stage == AtAssigned || (stage == AtReserved && u.reserved)))
    }

    /** One step of the iterator: scan the rest of the current interface's slots. */
    method NextInIface(ctx: ChanCtx, iter: UserIter, ty: IterType) returns (r: UserIter, found: bool)
      requires Valid() && 0 <= iter.sdata < |ifaces| && Counted(iter.sdata)
      requires if iter.link == null then iter.perLink == AtAssigned
               else iter.link in users && iter.link.ifIndex == iter.sdata
      ensures r.sdata == iter.sdata
      ensures found ==> ValidIter(r) && !r.done && IsUse(Current(r), ctx, ty)
                        && Ahead(Current(r), iter.sdata, if iter.link == null then 0 else iter.link.linkId, iter.perLink)
                        && forall u: Use | IsUse(u, ctx, ty)
                             && Ahead(u, iter.sdata, if iter.link == null then 0 else iter.link.linkId, iter.perLink) ::
                             u == Current(r) || UseBefore(Current(r), u)
      ensures !found ==> forall u: Use | IsUse(u, ctx, ty)
                             && Ahead(u, iter.sdata, if iter.link == null then 0 else iter.link.linkId, iter.perLink) ::
                             u.link.ifIndex > iter.sdata
    {
      found := false;
      r := iter;
      var k := if iter.link != null then iter.link.linkId else 0;
      ghost var k0 := k;
      while k < MAX_LINKS
        invariant k0 <= k <= MAX_LINKS
        invariant r.sdata == iter.sdata
        invariant r.perLink == if k == k0 then iter.perLink else AtAssigned
        invariant forall u: Use | IsUse(u, ctx, ty) && Ahead(u, iter.sdata, k0, iter.perLink) ::
                    u.link.ifIndex > iter.sdata || u.link.linkId >= k
        decreases MAX_LINKS - k
      {
        var link := ifaces[iter.sdata].link[k];
        if link != null {
          if r.perLink == AtAssigned {
            r := r.(perLink := AtReserved);
            if ty != RESERVED && link.chanctx == ctx {
              r := r.(link := link, reserved := false, done := false);
              found := true;
              return;
            }
          }
          if r.perLink == AtReserved {
            r := r.(perLink := AtDone);
            if ty != ASSIGNED && link.reservedChanctx == ctx {
              r := r.(link := link, reserved := true, done := false);
              found := true;
              return;
            }
          }
          r := r.(perLink := AtAssigned);
        }
        k := k + 1;
      }
    }

    /** The iterator: from the start, or resuming after the use it stands on, it moves to the
        least remaining use of ctx, or reports that there is none left. */
    method Next(ctx: ChanCtx, iter: UserIter, ty: IterType, start: bool) returns (r: UserIter)
      requires Valid() && (!start ==> ValidIter(iter) && !iter.done)
      ensures ValidIter(r)
      ensures !r.done ==> IsUse(Current(r), ctx, ty) && (start || UseBefore(Current(iter), Current(r)))
      ensures forall u: Use | IsUse(u, ctx, ty) && (start || UseBefore(Current(iter), u)) ::
                !r.done && (u == Current(r) || UseBefore(Current(r), u))
    {
      r := if start then START else iter;
      var resume := !start;
      ghost var from := if start then -1 else r.sdata;
      if resume {
        forall u: Use | IsUse(u, ctx, ty)
          ensures UseBefore(Current(iter), u) <==> Ahead(u, iter.sdata, iter.link.linkId, iter.perLink)
        {
          assert IsUser(u.link) && IsUser(iter.link);
        }
        assert IsUser(iter.link);
        var found;
        r, found := NextInIface(ctx, r, ty);
        if found { return; }
      }
      var i := if start then 0 else r.sdata + 1;
      while i < |ifaces|
        invariant 0 <= i <= |ifaces|
        invariant forall u: Use | IsUse(u, ctx, ty) && (start || UseBefore(Current(iter), u)) :: u.link.ifIndex >= i
        invariant start || iter.sdata < i
      {
        if Counted(i) {
          r := UserIter(i, null, AtAssigned, r.reserved, false);
          var found;
          r, found := NextInIface(ctx, r, ty);
          if found {
            forall u: Use | IsUse(u, ctx, ty) && (start || UseBefore(Current(iter), u))
              ensures u == Current(r) || UseBefore(Current(r), u)
            {
              assert IsUser(u.link);
              assert Ahead(u, i, 0, AtAssigned);
            }
            return;
          }
          forall u: Use | IsUse(u, ctx, ty) && u.link.ifIndex >= i
            ensures u.link.ifIndex >= i + 1
          {
            assert IsUser(u.link);
            assert Ahead(u, i, 0, AtAssigned);
          }
        } else {
          forall u: Use | IsUse(u, ctx, ty) && u.link.ifIndex >= i
            ensures u.link.ifIndex >= i + 1
          {
            assert IsUser(u.link);
          }
        }
        i := i + 1;
      }
      forall u: Use | IsUse(u, ctx, ty)
        ensures u.link.ifIndex < |ifaces|
      {
        assert IsUser(u.link);
      }
      r := r.(sdata := |ifaces|, done := true);
    }

    // How far an iterator is from its end.
    function Rank(it: UserIter): (r: (int, int, int)) {
      if it.done || it.link == null then (0, 0, 0)
      else (|ifaces| - it.link.ifIndex + 1, MAX_LINKS - it.link.linkId + 1, if it.reserved then 0 else 1)
    }

    ghost function Uses(ctx: ChanCtx, ty: IterType): set<Use>
      reads users
    {
      set l, b | l in users && b in {false, true} && IsUse(Use(l, b), ctx, ty) :: Use(l, b)
    }

    lemma UsesExact(u: Use, ctx: ChanCtx, ty: IterType)
      ensures u in Uses(ctx, ty) <==> IsUse(u, ctx, ty)
    {
      if IsUse(u, ctx, ty) {
        assert u == Use(u.link, u.reserved) && u.reserved in {false, true};
      }
    }

    // In the sequence s, the uses of ctx before `it` appear once each, in order.
    ghost predicate Drained(s: seq<Use>, ctx: ChanCtx, ty: IterType, it: UserIter)
      reads users
      requires ValidIter(it)
    {
      && (forall i | 0 <= i < |s| :: IsUse(s[i], ctx, ty) && (it.done || UseBefore(s[i], Current(it))))
      && (forall i, j | 0 <= i < j < |s| :: UseBefore(s[i], s[j]))
    }

    /** Draining the iterator yields every use of the context exactly once, in order. */
    method Drain(ctx: ChanCtx, ty: IterType) returns (s: seq<Use>)
      requires Valid()
      ensures forall u: Use :: u in s <==> IsUse(u, ctx, ty)
      ensures forall i, j | 0 <= i < j < |s| :: UseBefore(s[i], s[j])
    {
      s := [];
      var it := Next(ctx, START, ty, true);
      while !it.done
        invariant ValidIter(it)
        invariant Drained(s, ctx, ty, it)
        invariant forall u: Use | IsUse(u, ctx, ty) ::
                    u in s || (!it.done && (u == Current(it) || UseBefore(Current(it), u)))
        invariant !it.done ==> IsUse(Current(it), ctx, ty)
        decreases Rank(it).0, Rank(it).1, Rank(it).2
      {
        assert IsUser(it.link);
        s := s + [Use(it.link, it.reserved)];
        var next := Next(ctx, it, ty, false);
        if !next.done { assert IsUser(next.link); }
        it := next;
      }
    }

    lemma OrderedIsDistinct(s: seq<Use>, ctx: ChanCtx, ty: IterType)
      requires Valid()
      requires forall u: Use :: u in s <==> IsUse(u, ctx, ty)
      requires forall i, j | 0 <= i < j < |s| :: UseBefore(s[i], s[j])
      ensures |s| == |Uses(ctx, ty)|
    {
      forall u: Use
        ensures u in s <==> u in Uses(ctx, ty)
      {
        UsesExact(u, ctx, ty);
      }
      DistinctSize(s, Uses(ctx, ty));
    }

    // Links assigned to a context, and links that reserve it.
    ghost function AssignedTo(ctx: ChanCtx): set<Link>
      reads users
    {
      set l | l in users && l.chanctx == ctx
    }

    function ReservedFor(ctx: ChanCtx): set<Link>
      reads users
    {
      set l | l in users && l.reservedChanctx == ctx
    }

    // for_each_chanctx_user_reserved, one step.
    method NextReserved(ctx: ChanCtx, iter: UserIter, start: bool) returns (r: UserIter)
      requires Valid() && (!start ==> ValidIter(iter) && !iter.done && iter.reserved)
      ensures ValidIter(r)
      ensures !r.done ==> r.reserved && r.link.reservedChanctx == ctx && (start || Before(iter.link, r.link))
      ensures !r.done ==> start || Less(Rank(r), Rank(iter))
      ensures forall l | l in users && l.reservedChanctx == ctx && (start || Before(iter.link, l)) ::
                !r.done && (l == r.link || Before(r.link, l))
    {
      r := Next(ctx, iter, RESERVED, start);
      if !r.done && !start { assert IsUser(r.link) && IsUser(iter.link); }
      forall l | l in users && l.reservedChanctx == ctx && (start || Before(iter.link, l))
        ensures !r.done && (l == r.link || Before(r.link, l))
      {
        assert IsUse(Use(l, true), ctx, RESERVED);
      }
    }

    // for_each_chanctx_user_assigned, one step.
    method NextAssigned(ctx: ChanCtx, iter: UserIter, start: bool) returns (r: UserIter)
      requires Valid() && (!start ==> ValidIter(iter) && !iter.done && !iter.reserved)
      ensures ValidIter(r)
      ensures !r.done ==> !r.reserved && r.link.chanctx == ctx && (start || Before(iter.link, r.link))
      ensures !r.done ==> start || Less(Rank(r), Rank(iter))
      ensures forall l | l in users && l.chanctx == ctx && (start || Before(iter.link, l)) ::
                !r.done && (l == r.link || Before(r.link, l))
    {
      r := Next(ctx, iter, ASSIGNED, start);
      if !r.done && !start { assert IsUser(r.link) && IsUser(iter.link); }
      forall l | l in users && l.chanctx == ctx && (start || Before(iter.link, l))
        ensures !r.done && (l == r.link || Before(r.link, l))
      {
        assert IsUse(Use(l, false), ctx, ASSIGNED);
      }
    }

    method NumAssigned(ctx: ChanCtx) returns (num: nat)
      requires Valid()
      ensures num == |AssignedTo(ctx)|
    {
      num := 0;
      ghost var seen: set<Link> := {};
      var iter := NextAssigned(ctx, START, true);
      while !iter.done
        invariant ValidIter(iter) && (!iter.done ==> !iter.reserved && iter.link.chanctx == ctx)
        invariant num == |seen|
        invariant forall l | l in seen :: l in users && l.chanctx == ctx && (iter.done || Before(l, iter.link))
        invariant forall l | l in users && l.chanctx == ctx :: l in seen || (!iter.done && (l == iter.link || Before(iter.link, l)))
        decreases Rank(iter).0, Rank(iter).1, Rank(iter).2
      {
        num := num + 1;
        seen := seen + {iter.link};
        iter := NextAssigned(ctx, iter, false);
      }
      assert seen == AssignedTo(ctx);
    }

    method NumReserved(ctx: ChanCtx) returns (num: nat)
      requires Valid()
      ensures num == |ReservedFor(ctx)|
    {
      num := 0;
      ghost var seen: set<Link> := {};
      var iter := NextReserved(ctx, START, true);
      while !iter.done
        invariant ValidIter(iter) && (!iter.done ==> iter.reserved && iter.link.reservedChanctx == ctx)
        invariant num == |seen|
        invariant forall l | l in seen :: l in users && l.reservedChanctx == ctx && (iter.done || Before(l, iter.link))
        invariant forall l | l in users && l.reservedChanctx == ctx :: l in seen || (!iter.done && (l == iter.link || Before(iter.link, l)))
        decreases Rank(iter).0, Rank(iter).1, Rank(iter).2
      {
        num := num + 1;
        seen := seen + {iter.link};
        iter := NextReserved(ctx, iter, false);
      }
      assert seen == ReservedFor(ctx);
    }

    lemma UsesSplit(ctx: ChanCtx)
      requires Valid()
      ensures |Uses(ctx, ALL)| == |AssignedTo(ctx)| + |ReservedFor(ctx)|
    {
      var a := set l | l in AssignedTo(ctx) :: Use(l, false);
      var r := set l | l in ReservedFor(ctx) :: Use(l, true);
      ImageSize(AssignedTo(ctx), a, false);
      ImageSize(ReservedFor(ctx), r, true);
      forall u: Use
        ensures u in Uses(ctx, ALL) <==> u in a + r
      {
        UsesExact(u, ctx, ALL);
        if IsUse(u, ctx, ALL) { assert u == Use(u.link, u.reserved); }
      }
      assert Uses(ctx, ALL) == a + r && a !! r;
    }

    /** The reference count: every use once, and one more while the context is about to be used. */
    method Refcount(ctx: ChanCtx) returns (num: nat)
      requires Valid()
      ensures num == |AssignedTo(ctx)| + |ReservedFor(ctx)| + (if ctx.willBeUsed then 1 else 0)
      ensures num == 0 <==> !ctx.willBeUsed && forall l | l in users :: l.chanctx != ctx && l.reservedChanctx != ctx
    {
      var s := Drain(ctx, ALL);
      num := |s|;
      OrderedIsDistinct(s, ctx, ALL);
      UsesSplit(ctx);
      if ctx.willBeUsed {
        num := num + 1;
      }
      assert forall l | l in users && l.chanctx == ctx :: l in AssignedTo(ctx);
      assert forall l | l in users && l.reservedChanctx == ctx :: l in ReservedFor(ctx);
    }
  }

  predicate Less(a: (int, int, int), b: (int, int, int)) {
    && 0 <= a.0 && 0 <= a.1 && 0 <= a.2
    && (a.0 < b.0 || (a.0 == b.0 && (a.1 < b.1 || (a.1 == b.1 && a.2 < b.2))))
  }

  lemma ImageSize(ls: set<Link>, us: set<Use>, b: bool)
    requires us == set l | l in ls :: Use(l, b)
    ensures |us| == |ls|
  {
    if ls == {} {
      assert us == {};
    } else {
      var l :| l in ls;
      ImageSize(ls - {l}, us - {Use(l, b)}, b);
    }
  }

  lemma DistinctSize<T>(s: seq<T>, all: set<T>)
    requires forall i, j | 0 <= i < j < |s| :: s[i] != s[j]
    requires forall u :: u in s <==> u in all
    ensures |s| == |all|
  {
    if s != [] {
      var n := |s| - 1;
      assert s == s[..n] + [s[n]];
      DistinctSize(s[..n], all - {s[n]});
    } else {
      assert all == {};
    }
  }
}
