/** The channel-context protocol of mac80211/chan.c: links hold an assigned and a reserved
    context pointer, contexts may be paired for an in-place replacement, and a context lives
    exactly as long as some link uses it. */
module ChannelContexts {
  import opened ChannelUsers
  import opened ChannelWorlds
  import opened ChannelLaws

  class Local {
    const ifs: Interfaces
    const canSwitch: bool // the driver implements switch_vif_chanctx
    const maxChannels: nat
    var list: seq<ChanCtx>

    constructor (ifs: Interfaces, canSwitch: bool, maxChannels: nat)
      requires ifs.Valid()
      requires forall l | l in ifs.users :: l.chanctx == null && l.reservedChanctx == null
      ensures Inv() && list == []
      ensures this.ifs == ifs && this.canSwitch == canSwitch && this.maxChannels == maxChannels
    {
      this.ifs, this.canSwitch, this.maxChannels := ifs, canSwitch, maxChannels;
      list := [];
    }

    // ---------- the invariant ----------

    // Every pointer a link holds is to a listed context.
    ghost predicate NoDangling()
      reads this, ifs.users
    {
      forall l | l in ifs.users ::
        && (l.chanctx != null ==> l.chanctx in list)
        && (l.reservedChanctx != null ==> l.reservedChanctx in list)
    }

    ghost predicate Used(c: ChanCtx)
      reads ifs.users
    {
      exists l :: l in ifs.users && (l.chanctx == c || l.reservedChanctx == c)
    }

    // Every listed context has a user, and none is left marked as about to be used.
    ghost predicate NoLeak()
      reads this, list, ifs.users
    {
      forall c | c in list :: Used(c) && !c.willBeUsed
    }

    // Replaced and replacing contexts are matched by mutual pointers.
    ghost predicate Paired(c: ChanCtx)
      requires c in list
      reads this, list
    {
      if c.replaceState == NONE then c.replaceCtx == null
      else
        && c.replaceCtx != null && c.replaceCtx in list && c.replaceCtx.replaceCtx == c
        && c.replaceCtx.replaceState == if c.replaceState == WILL_BE_REPLACED then REPLACES_OTHER else WILL_BE_REPLACED
    }

    ghost predicate Pairing()
      reads this, list
    {
      forall c | c in list :: Paired(c)
    }

    // Nobody reserves a context that goes away, nobody is on one that is not there yet.
    ghost predicate Placed()
      reads this, list, ifs.users
    {
      forall l | l in ifs.users ::
        && (l.chanctx != null && l.chanctx in list ==> l.chanctx.replaceState != REPLACES_OTHER)
        && (l.reservedChanctx != null && l.reservedChanctx in list ==> l.reservedChanctx.replaceState != WILL_BE_REPLACED)
    }

    ghost predicate Inv()
      reads this, list, ifs.users
    {
      ifs.Valid() && Distinct(list) && NoDangling() && NoLeak() && Pairing() && Placed()
    }

    lemma ReplacementIsReserved(c: ChanCtx)
      requires Inv() && c in list && c.replaceState == REPLACES_OTHER
      ensures exists l :: l in ifs.users && l.reservedChanctx == c
    {
      assert Used(c);
    }

    // The state of the protocol as a value.
    function View(): World
      reads this, list, ifs.users
    {
      World(list,
            map c | c in list :: CtxV(c.replaceState, c.replaceCtx),
            map l | l in ifs.users :: LinkV(l.chanctx, l.chanreq, l.radarRequired, l.reservedChanctx,
                                            l.reservedReq, l.reservedRadar, l.reservedReady))
    }

    // ---------- what steps change ----------

    // Contexts of the list cs, other than p, keep their replacement state.
    twostate predicate Kept(new p: ChanCtx?, cs: seq<ChanCtx>)
      reads cs`replaceState, cs`replaceCtx, cs`willBeUsed
    {
      forall d | d in cs && d != p ::
        d.replaceState == old(d.replaceState) && d.replaceCtx == old(d.replaceCtx) && d.willBeUsed == old(d.willBeUsed)
    }

    // Links other than k keep both pointers.
    twostate predicate SameLinks(k: Link?)
      reads *
    {
      forall m | m in ifs.users && m != k :: m.chanctx == old(m.chanctx) && m.reservedChanctx == old(m.reservedChanctx)
    }

    // Contexts are only added to the list when they are new.
    twostate predicate Grown()
      reads this`list
    {
      forall c | c in list :: c in old(list) || fresh(c)
    }

    // The invariant is about pointers and context records only.
    twostate lemma SameState()
      requires old(Inv()) && list == old(list) && SameLinks(null) && Kept(null, old(list))
      ensures Inv()
    {
      forall c | c in list
        ensures Used(c)
      {
        assert old(Used(c));
      }
      forall c | c in list
        ensures Paired(c)
      {
        assert old(Paired(c));
      }
    }

    // The list after c lost a user: gone if it has none left.
    twostate predicate Reaped(c: ChanCtx)
      reads *
    {
      list == if Used(c) then old(list) else Without(old(list), c)
    }

    // ---------- unreserve ----------

    twostate predicate UnreserveDelta(link: Link)
      reads *
    {
      var c := old(link.reservedChanctx);
      && SameLinks(link) && link.chanctx == old(link.chanctx) && link.reservedChanctx == null
      && if c == null then list == old(list) && Kept(null, old(list))
         else
           && Reaped(c)
           && if !Used(c) && old(c.replaceState) == REPLACES_OTHER then
                var p := old(c.replaceCtx);
                && p != null && Kept(p, old(list))
                && p.replaceState == NONE && p.replaceCtx == null && p.willBeUsed == old(p.willBeUsed)
              else Kept(null, old(list))
    }

    twostate lemma UnreserveUsed(link: Link)
      requires old(Inv()) && link in ifs.users && UnreserveDelta(link)
      ensures NoLeak()
    {
      forall d | d in list
        ensures Used(d)
      {
        var m :| m in ifs.users && old(m.chanctx == d || m.reservedChanctx == d);
        assert m.chanctx == d || m.reservedChanctx == d || d == old(link.reservedChanctx);
      }
    }

    twostate lemma UnreservePaired(link: Link)
      requires old(Inv()) && link in ifs.users && UnreserveDelta(link)
      ensures Pairing()
    {
      forall d | d in list
        ensures Paired(d)
      {
        assert old(Paired(d));
        var c := old(link.reservedChanctx);
        if c != null { assert old(Paired(c)); }
      }
    }

    twostate lemma UnreserveInv(link: Link)
      requires old(Inv()) && link in ifs.users && UnreserveDelta(link)
      ensures Inv()
    {
      UnreserveUsed(link);
      UnreservePaired(link);
    }

    /** ieee80211_link_unreserve_chanctx: drop the link's reservation; a context that loses its
        last user goes away, and if it was a replacement its partner becomes ordinary again. */
    method Unreserve(link: Link)
      requires Inv() && link in ifs.users
      modifies this`list, link`reservedChanctx, list`replaceState, list`replaceCtx
      ensures Inv() && UnreserveDelta(link)
    {
      DropReservation(link);
      UnreserveInv(link);
    }

    // The operation itself.
    method DropReservation(link: Link)
      requires Inv() && link in ifs.users
      modifies this`list, link`reservedChanctx, list`replaceState, list`replaceCtx
      ensures UnreserveDelta(link)
    {
      var ctx := link.reservedChanctx;
      if ctx == null { return; }
      link.reservedChanctx := null;
      var n := ifs.Refcount(ctx);
      if n == 0 {
        if ctx.replaceState == REPLACES_OTHER {
          ctx.replaceCtx.replaceCtx := null;
          ctx.replaceCtx.replaceState := NONE;
        }
        list := Without(list, ctx);
      }
    }

    // ---------- reserve ----------

    // Contexts a reservation may join: not going away, shared, already reserved by someone, and
    // compatible with the request (the abstract relation `fits`).
    ghost predicate Joinable(c: ChanCtx, fits: ChanCtx -> bool)
      reads c, ifs.users
    {
      c.replaceState != WILL_BE_REPLACED && c.mode != EXCLUSIVE && fits(c) && ifs.ReservedFor(c) != {}
    }

    ghost predicate FirstJoinable(c: ChanCtx, fits: ChanCtx -> bool)
      reads this, list, ifs.users
    {
      exists i :: 0 <= i < |list| && list[i] == c && Joinable(c, fits) && forall j | 0 <= j < i :: !Joinable(list[j], fits)
    }

    /** ieee80211_find_reservation_chanctx: the first joinable context. */
    method FindReservation(mode: Mode, fits: ChanCtx -> bool) returns (ctx: ChanCtx?)
      requires ifs.Valid()
      ensures mode == EXCLUSIVE ==> ctx == null
      ensures ctx != null ==> ctx in list && FirstJoinable(ctx, fits)
      ensures ctx == null && mode != EXCLUSIVE ==> forall c | c in list :: !Joinable(c, fits)
    {
      if mode == EXCLUSIVE { return null; }
      for i := 0 to |list|
        invariant forall j | 0 <= j < i :: !Joinable(list[j], fits)
      {
        var c := list[i];
        if c.replaceState == WILL_BE_REPLACED { continue; }
        if c.mode == EXCLUSIVE { continue; }
        var n := ifs.NumReserved(c);
        if !(fits(c) && n != 0) { continue; }
        return c;
      }
      return null;
    }

    // An ordinary context that nobody reserves can be replaced.
    ghost predicate Replaceable(c: ChanCtx)
      reads c, ifs.users
    {
      c.replaceState == NONE && ifs.ReservedFor(c) == {}
    }

    // The first context of the list that can be replaced and whose radio can take the request
    // (`onRadio`).
    ghost predicate FirstReplaceable(c: ChanCtx, onRadio: ChanCtx -> bool)
      reads this, list, ifs.users
    {
      exists i :: 0 <= i < |list| && list[i] == c && Replaceable(c) && onRadio(c)
                  && forall j | 0 <= j < i :: !(Replaceable(list[j]) && onRadio(list[j]))
    }

    /** The choice of the context to replace in ieee80211_replace_chanctx: the link's own one if
        it is neither being replaced nor reserved, else the first one that will do. */
    method PickReplaced(curr: ChanCtx?, onRadio: ChanCtx -> bool) returns (old_: ChanCtx?)
      requires Inv() && (curr != null ==> curr in list && curr.replaceState != REPLACES_OTHER)
      ensures if curr != null && Replaceable(curr) then old_ == curr
              else if AnyReplaceable(null, onRadio) then old_ != null && FirstReplaceable(old_, onRadio)
              else old_ == null
      ensures old_ != null ==> old_ in list && Replaceable(old_)
    {
      old_ := curr;
      var n := 0;
      if curr != null { n := ifs.NumReserved(curr); }
      if curr == null || curr.replaceState == WILL_BE_REPLACED || n != 0 {
        for i := 0 to |list|
          invariant old_ == curr
          invariant forall j | 0 <= j < i :: !(Replaceable(list[j]) && onRadio(list[j]))
        {
          if list[i].replaceState != NONE { continue; }
          var m := ifs.NumReserved(list[i]);
          if m != 0 { continue; }
          if !onRadio(list[i]) { continue; }
          old_ := list[i];
          assert FirstReplaceable(old_, onRadio);
          break;
        }
      }
      n := 0;
      if old_ != null { n := ifs.NumReserved(old_); }
      if old_ == null || old_.replaceState == WILL_BE_REPLACED || n != 0 {
        old_ := null; // -EBUSY
      }
    }

    ghost predicate AnyJoinable(mode: Mode, fits: ChanCtx -> bool)
      reads this, list, ifs.users
    {
      mode != EXCLUSIVE && exists c :: c in list && Joinable(c, fits)
    }

    ghost predicate AnyReplaceable(curr: ChanCtx?, onRadio: ChanCtx -> bool)
      reads this, list, ifs.users, curr
    {
      (curr != null && Replaceable(curr)) || exists c :: c in list && Replaceable(c) && onRadio(c)
    }

    // The context that a pairing replaces.
    ghost predicate Picks(curr: ChanCtx?, onRadio: ChanCtx -> bool, p: ChanCtx)
      reads this, list, ifs.users, curr
    {
      if curr != null && Replaceable(curr) then p == curr else FirstReplaceable(p, onRadio)
    }

    // A link takes c as its reservation and keeps its assignment.
    twostate predicate Takes(link: Link, new c: ChanCtx)
      reads *
    {
      SameLinks(link) && link.chanctx == old(link.chanctx) && link.reservedChanctx == c
    }

    // What obtaining a context for a reservation changes; cs is the list before.
    twostate predicate Obtained(new o: Origin, new c: ChanCtx, cs: seq<ChanCtx>)
      reads this`list, cs`replaceState, cs`replaceCtx, cs`willBeUsed, c`replaceState, c`replaceCtx, c`willBeUsed
    {
      match o
      case Refused => false
      case Joined => c in cs && c.replaceState != WILL_BE_REPLACED && list == cs && Kept(null, cs)
      case Added =>
        && c !in cs && list == [c] + cs && Kept(null, cs)
        && c.replaceState == NONE && c.replaceCtx == null && !c.willBeUsed
      case Replacing(p) =>
        && c !in cs && list == [c] + cs && Kept(p, cs)
        && c.replaceState == REPLACES_OTHER && c.replaceCtx == p && !c.willBeUsed
        && p in cs && old(allocated(p) && Replaceable(p))
        && p.replaceState == WILL_BE_REPLACED && p.replaceCtx == c && p.willBeUsed == old(p.willBeUsed)
    }

    twostate lemma TakesUsed(link: Link, new c: ChanCtx)
      requires old(Inv()) && link in ifs.users && old(link.reservedChanctx) == null && Takes(link, c)
      ensures Used(c) && forall d | d in old(list) :: Used(d)
    {
      forall d | d in old(list)
        ensures Used(d)
      {
        assert old(Used(d));
        var m :| m in ifs.users && old(m.chanctx == d || m.reservedChanctx == d);
        assert m.chanctx == d || m.reservedChanctx == d;
      }
    }

    twostate lemma ReserveInv(link: Link, new o: Origin, new c: ChanCtx)
      requires old(Inv()) && link in ifs.users && old(link.reservedChanctx) == null
      requires Takes(link, c) && Obtained(o, c, old(list))
      ensures Inv()
    {
      TakesUsed(link, c);
      forall d | d in old(list)
        ensures Paired(d)
      {
        assert old(Paired(d));
      }
      if o.Replacing? {
        forall l | l in ifs.users && l != link
          ensures l.reservedChanctx != o.p
        {
          assert old(l !in ifs.ReservedFor(o.p));
        }
      }
    }

    /** ieee80211_replace_chanctx: pair a fresh context with one it will replace. */
    method ReplaceChanctx(mode: Mode, curr: ChanCtx?, onRadio: ChanCtx -> bool) returns (c: ChanCtx?, ghost o: Origin)
      requires Inv() && (curr != null ==> curr in list && curr.replaceState != REPLACES_OTHER)
      modifies this`list, list`replaceState, list`replaceCtx
      ensures c == null <==> !old(AnyReplaceable(curr, onRadio))
      ensures c == null ==> o == Refused && list == old(list) && Kept(null, old(list))
      ensures c != null ==> fresh(c) && c.mode == mode && o.Replacing? && Obtained(o, c, old(list))
      ensures c != null ==> old(allocated(o.p) && Picks(curr, onRadio, o.p))
    {
      var p := PickReplaced(curr, onRadio);
      c, o := null, Refused;
      if p != null {
        c := new ChanCtx(mode);
        o := Replacing(p);
        c.replaceCtx, c.replaceState := p, REPLACES_OTHER;
        p.replaceCtx, p.replaceState := c, WILL_BE_REPLACED;
        list := [c] + list;
      }
    }

    /** The choice of the context in ieee80211_link_reserve_chanctx. */
    method ObtainContext(mode: Mode, curr: ChanCtx?, fits: ChanCtx -> bool, onRadio: ChanCtx -> bool, radio: bool, addErr: int)
        returns (ret: int, c: ChanCtx?, ghost o: Origin)
      requires Inv() && (curr != null ==> curr in list && curr.replaceState != REPLACES_OTHER)
      modifies this`list, list`replaceState, list`replaceCtx
      ensures ret != 0 ==> list == old(list) && Kept(null, old(list))
      ensures ret == 0 ==> c != null && Obtained(o, c, old(list))
      ensures ret == 0 ==> if o.Joined? then old(allocated(c) && FirstJoinable(c, fits)) else fresh(c) && c.mode == mode
      ensures Settles(o, ret, old(AnyJoinable(mode, fits)), |old(list)| < maxChannels && radio, old(AnyReplaceable(curr, onRadio)), addErr)
      ensures o.Replacing? ==> old(allocated(o.p) && Picks(curr, onRadio, o.p))
    {
      ret, o := 0, Joined;
      c := FindReservation(mode, fits);
      if c != null { return; }
      if |list| < maxChannels && radio {
        ret, o := addErr, Refused;
        if addErr == 0 {
          o := Added;
          c := new ChanCtx(mode);
          list := [c] + list;
        }
      } else {
        c, o := ReplaceChanctx(mode, curr, onRadio);
        ret := if c == null then EBUSY else 0;
      }
    }

    // The fields of a link's reservation.
    method SetReservation(link: Link, c: ChanCtx, req: ChanReq, radar: bool)
      modifies link`reservedChanctx, link`reservedReq, link`reservedRadar, link`reservedReady
      ensures link.reservedChanctx == c
      ensures link.reservedReq == req && link.reservedRadar == radar && !link.reservedReady
    {
      link.reservedChanctx := c;
      link.reservedReq, link.reservedRadar, link.reservedReady := req, radar, false;
    }

    /** ieee80211_link_reserve_chanctx.  `fits` is the compatibility of the request with each
        listed context, `onRadio` whether the context's radio, if it has one, can take the request,
        `radio` whether there is a radio for a new context (always so if the device has none), and
        `addErr` the driver's answer to adding one. */
    method Reserve(link: Link, req: ChanReq, mode: Mode, radar: bool, fits: ChanCtx -> bool,
                   onRadio: ChanCtx -> bool, radio: bool, addErr: int)
        returns (ret: int, c: ChanCtx?, ghost o: Origin)
      requires Inv() && link in ifs.users && link.reservedChanctx == null
      modifies this`list, list`replaceState, list`replaceCtx
      modifies link`reservedChanctx, link`reservedReq, link`reservedRadar, link`reservedReady
      ensures if old(link.chanctx) != null && !canSwitch then ret == EOPNOTSUPP && o == Refused
              else Settles(o, ret, old(AnyJoinable(mode, fits)), |old(list)| < maxChannels && radio,
                           old(AnyReplaceable(link.chanctx, onRadio)), addErr)
      ensures ret == 0 ==> c != null && if o.Joined? then old(allocated(c) && FirstJoinable(c, fits)) else fresh(c) && c.mode == mode
      ensures o.Replacing? ==> var p := o.p; old(allocated(p) && Picks(link.chanctx, onRadio, p))
      ensures Inv() && Grown() && link in old(View()).link
      ensures if ret == 0 then c != null && View() == Reserved(old(View()), link, o, c, req, radar) else View() == old(View())
      ensures if old(link.chanctx) != null && !canSwitch then ret == EOPNOTSUPP
              else ReserveLaw(old(View()), link, req, mode, radar, fits, onRadio, |old(list)| < maxChannels && radio, addErr, ret, c, View())
    {
      ghost var w := View();
      Choices(link, mode, fits, onRadio);
      hide *;
      ret, c, o := Book(link, req, mode, radar, fits, onRadio, radio, addErr);
      if ret == 0 { BookedView(link, o, c); } else { RefusedView(link); }
      NewOnly(ret, o, c);
      if w.link[link].chanctx == null || canSwitch {
        ReserveObeys(w, link, req, mode, radar, fits, onRadio, |w.list| < maxChannels && radio, addErr, ret, o, c, View());
      }
    }

    // What there is to choose from, read from the value.
    lemma Choices(link: Link, mode: Mode, fits: ChanCtx -> bool, onRadio: ChanCtx -> bool)
      requires Inv() && link in ifs.users
      ensures View().list == list && link in View().link && View().link[link].chanctx == link.chanctx
      ensures AnyJoinable(mode, fits) <==> CanJoin(View(), mode, fits)
      ensures forall c | c in list && FirstJoinable(c, fits) :: FirstToJoin(View(), c, fits)
      ensures AnyReplaceable(link.chanctx, onRadio) <==> CanReplace(View(), link.chanctx, onRadio)
      ensures forall p | p in list && Picks(link.chanctx, onRadio, p) :: FirstToReplace(View(), link.chanctx, onRadio, p)
    {
      Records();
      assert list == View().list;
      forall c | c in list
        ensures Joinable(c, fits) <==> MayJoin(View(), c, fits)
        ensures Replaceable(c) <==> MayReplace(View(), c)
      {
        ReadChoice(c, fits);
      }
      hide View, Joinable, MayJoin, Replaceable, MayReplace;
      assert forall i | 0 <= i < |list| :: list[i] in list;
    }

    lemma ReadChoice(c: ChanCtx, fits: ChanCtx -> bool)
      requires Inv() && c in list
      ensures Joinable(c, fits) <==> MayJoin(View(), c, fits)
      ensures Replaceable(c) <==> MayReplace(View(), c)
    {
      Records();
      if ifs.ReservedFor(c) != {} {
        var l :| l in ifs.ReservedFor(c);
        assert l in View().link && View().link[l].reserved == c;
      }
      assert forall l | l in ifs.users && l.reservedChanctx == c :: l in ifs.ReservedFor(c);
    }

    twostate lemma NewOnly(new ret: int, new o: Origin, new c: ChanCtx?)
      requires if ret == 0 then c != null && Obtained(o, c, old(list)) && (!o.Joined? ==> fresh(c)) else list == old(list)
      ensures Grown()
    {
    }

    // The whole call, in terms of the objects.
    method Book(link: Link, req: ChanReq, mode: Mode, radar: bool, fits: ChanCtx -> bool,
                onRadio: ChanCtx -> bool, radio: bool, addErr: int)
        returns (ret: int, c: ChanCtx?, ghost o: Origin)
      requires Inv() && link in ifs.users && link.reservedChanctx == null
      modifies this`list, list`replaceState, list`replaceCtx
      modifies link`reservedChanctx, link`reservedReq, link`reservedRadar, link`reservedReady
      ensures ret != 0 ==> list == old(list) && Kept(null, old(list)) && SameFields(null) && SameLinks(null)
      ensures ret == 0 ==> c != null && Takes(link, c) && Obtained(o, c, old(list)) && SameFields(link)
                           && link.reservedReq == req && link.reservedRadar == radar && !link.reservedReady
      ensures if old(link.chanctx) != null && !canSwitch then ret == EOPNOTSUPP && o == Refused
              else Settles(o, ret, old(AnyJoinable(mode, fits)), |old(list)| < maxChannels && radio,
                           old(AnyReplaceable(link.chanctx, onRadio)), addErr)
      ensures ret == 0 ==> if o.Joined? then old(allocated(c) && FirstJoinable(c, fits)) else fresh(c) && c.mode == mode
      ensures o.Replacing? ==> var p := o.p; old(allocated(p) && Picks(link.chanctx, onRadio, p))
    {
      c, o := null, Refused;
      if link.chanctx != null && !canSwitch { return EOPNOTSUPP, c, o; }
      ret, c, o := ObtainContext(mode, link.chanctx, fits, onRadio, radio, addErr);
      if ret == 0 { SetReservation(link, c, req, radar); }
    }

    twostate lemma RefusedView(link: Link)
      requires old(Inv()) && link in ifs.users && list == old(list) && Kept(null, old(list)) && SameLinks(null) && SameFields(null)
      ensures Inv() && View() == old(View()) && link in old(View()).link
    {
      SameState();
      KeptView();
      OneLinkChanged(link);
      assert Record(link) == old(View()).link[link];
      assert old(View()).link[link := Record(link)] == old(View()).link;
    }

    // What obtaining a context makes of the value.
    twostate lemma ObtainedView(new o: Origin, new c: ChanCtx)
      requires Obtained(o, c, old(list))
      ensures View().list == if o.Joined? then old(View()).list else [c] + old(View()).list
      ensures View().ctx == match o
                            case Added => old(View()).ctx[c := CtxV(NONE, null)]
                            case Replacing(p) => old(View()).ctx[c := CtxV(REPLACES_OTHER, p)][p := CtxV(WILL_BE_REPLACED, c)]
                            case _ => old(View()).ctx
    {
      var x, x' := old(View()).ctx, View().ctx;
      assert forall d | d in old(list) :: x[d] == CtxV(old(d.replaceState), old(d.replaceCtx));
      assert forall d :: d in x <==> d in old(list);
      assert forall d :: d in x' <==> d in list;
      assert forall d | d in list :: x'[d] == CtxV(d.replaceState, d.replaceCtx);
      assert old(View()).list == old(list) && View().list == list;
      hide View;
      match o
      case Joined => assert x' == x;
      case Added => EnteredRecords(x, x', c);
      case Replacing(p) => PairedRecords(x, x', c, p);
    }

    // What reserving makes of the value.
    twostate lemma BookedView(link: Link, new o: Origin, new c: ChanCtx)
      requires old(Inv()) && link in ifs.users && old(link.reservedChanctx) == null
      requires Takes(link, c) && Obtained(o, c, old(list)) && SameFields(link) && !link.reservedReady
      requires link.chanreq == old(link.chanreq) && link.radarRequired == old(link.radarRequired)
      ensures Inv() && link in old(View()).link
      ensures View() == Reserved(old(View()), link, o, c, link.reservedReq, link.reservedRadar)
    {
      ReserveInv(link, o, c);
      OneLinkChanged(link);
      assert Record(link) == old(View()).link[link].(reserved := c, resReq := link.reservedReq, resRadar := link.reservedRadar, ready := false);
      ObtainedView(o, c);
      hide View, Inv, Obtained;
    }

    lemma PairedRecords(x: map<ChanCtx, CtxV>, x': map<ChanCtx, CtxV>, c: ChanCtx, p: ChanCtx)
      requires forall d :: d in x' <==> d in x || d == c
      requires p in x && p != c && forall d | d in x' && d != p && d != c :: x'[d] == x[d]
      requires x'[c] == CtxV(REPLACES_OTHER, p) && x'[p] == CtxV(WILL_BE_REPLACED, c)
      ensures x' == x[c := CtxV(REPLACES_OTHER, p)][p := CtxV(WILL_BE_REPLACED, c)]
    {
    }

    // ---------- moving a link ----------

    // The link's assignment changes to c, a reservation it had is gone, and its former context
    // is freed if nobody else uses it.
    twostate predicate Repointed(link: Link, new c: ChanCtx?)
      reads *
    {
      var a := old(link.chanctx);
      && SameLinks(link) && link.chanctx == c && link.reservedChanctx == null && Kept(null, old(list))
      && list == if a == null || Used(a) then old(list) else Without(old(list), a)
    }

    twostate lemma RepointedUsed(link: Link, new c: ChanCtx?)
      requires old(Inv()) && link in ifs.users && Repointed(link, c)
      requires old(link.reservedChanctx) == null || old(link.reservedChanctx) == c
      ensures NoLeak()
    {
      var a := old(link.chanctx);
      forall d | d in list
        ensures Used(d)
      {
        assert old(Used(d));
        var m :| m in ifs.users && old(m.chanctx == d || m.reservedChanctx == d);
        assert m.chanctx == d || m.reservedChanctx == d || d == a;
      }
    }

    twostate lemma RepointedPairing(link: Link, new c: ChanCtx?)
      requires old(Inv()) && link in ifs.users && Repointed(link, c)
      ensures Pairing() <==> old(link.chanctx) == null || Used(old(link.chanctx))
                             || old(link.chanctx.replaceState) != WILL_BE_REPLACED
    {
      var a := old(link.chanctx);
      if a == null || Used(a) || old(a.replaceState) != WILL_BE_REPLACED {
        forall d | d in list
          ensures Paired(d)
        {
          assert old(Paired(d));
          if a != null { assert old(Paired(a)); }
        }
      } else {
        assert old(Paired(a));
        var b := old(a.replaceCtx);
        assert b in list && !Paired(b);
      }
    }

    // Freeing the former context is only wrong when it was waiting for its replacement.
    twostate lemma RepointedInv(link: Link, new c: ChanCtx?)
      requires old(Inv()) && link in ifs.users && Repointed(link, c)
      requires old(link.reservedChanctx) == null || old(link.reservedChanctx) == c
      requires c != null ==> c in old(list) && old(allocated(c)) && old(c.replaceState) == NONE
      ensures Inv() <==> old(link.chanctx) == null || Used(old(link.chanctx))
                         || old(link.chanctx.replaceState) != WILL_BE_REPLACED
    {
      RepointedUsed(link, c);
      RepointedPairing(link, c);
      hide Paired;
    }

    // A reservation that can be used on an existing context.
    ghost predicate Usable(link: Link, compat: bool)
      reads link, link.reservedChanctx
    {
      && link.reservedReady && link.reservedChanctx != null
      && link.reservedChanctx.replaceState != REPLACES_OTHER && compat
    }

    // Moving the link away would free a context that still waits for its replacement.
    ghost predicate Orphaning(link: Link)
      reads link, link.chanctx, ifs.users
    {
      && link.chanctx != null && link.chanctx.replaceState == WILL_BE_REPLACED
      && forall m | m in ifs.users && m != link :: m.chanctx != link.chanctx
    }

    /** ieee80211_link_use_reserved_reassign: move the link to the context it reserved.
        `compat` says whether the request still fits that context, `drvErr` is the driver's answer. */
    method UseReservedReassign(link: Link, compat: bool, drvErr: int) returns (ret: int)
      requires Inv() && link in ifs.users
      modifies this`list, link`chanctx, link`chanreq, link`radarRequired, link`reservedChanctx
      ensures !old(Usable(link, compat)) || old(link.chanctx) == null ==>
                ret == (if link.reservedReady then EINVAL else EBUSY) && Inv() && View() == old(View()) && list == old(list)
      ensures old(Usable(link, compat)) && old(link.chanctx) != null ==>
                && link in old(View()).link && old(View()).link[link].reserved != null
                && ret == drvErr && View() == Moved(old(View()), link, true, drvErr)
                && (Inv() <==> !(ret == 0 && old(Orphaning(link))))
      ensures forall d | d in list :: d in old(list)
    {
      var c, a := link.reservedChanctx, link.chanctx;
      if !link.reservedReady { return EBUSY; }
      if c == null || a == null || c.replaceState == REPLACES_OTHER || !compat { return EINVAL; }
      ret := drvErr;
      hide Inv, Orphaning, View, Moved;
      if drvErr != 0 {
        ReassignFailed(link, c, drvErr);
      } else {
        Reassigned(link, c, a);
      }
    }

    // The driver refused: the reservation is gone, the new request stays recorded.
    method ReassignFailed(link: Link, c: ChanCtx, ghost drvErr: int)
      requires Inv() && link in ifs.users && link.reservedChanctx == c && c.replaceState != REPLACES_OTHER
      requires drvErr != 0 && link.chanctx != null
      modifies this`list, link`chanreq, link`reservedChanctx
      ensures Inv() && forall d | d in list :: d in old(list)
      ensures link in old(View()).link && old(View()).link[link].reserved != null
      ensures View() == Moved(old(View()), link, true, drvErr)
    {
      FreeReserved(link, c);
      DroppedView(link);
      hide Inv, UnreserveDelta, View, Reap, With;
    }

    // The reservation goes, and its context if nobody else uses it.
    method FreeReserved(link: Link, c: ChanCtx)
      requires Inv() && link in ifs.users && link.reservedChanctx == c && c.replaceState != REPLACES_OTHER
      modifies this`list, link`chanreq, link`reservedChanctx
      ensures Inv() && UnreserveDelta(link) && link.chanreq == link.reservedReq
      ensures forall d | d in list :: d in old(list)
    {
      link.chanreq, link.reservedChanctx := link.reservedReq, null;
      var n := ifs.Refcount(c);
      if n == 0 { list := Without(list, c); }
      UnreserveInv(link);
    }

    twostate lemma DroppedView(link: Link)
      requires old(Inv()) && link in ifs.users && UnreserveDelta(link) && SameFields(link)
      requires old(link.reservedChanctx) != null && old(link.reservedChanctx.replaceState) != REPLACES_OTHER
      ensures link in old(View()).link && old(View()).link[link] == old(Record(link))
      ensures View() == Reap(With(old(View()), link, Record(link)), old(link.reservedChanctx))
    {
      ReapedView(old(link.reservedChanctx));
      OneLinkChanged(link);
    }

    twostate lemma MovedView(link: Link)
      requires old(Inv()) && link in ifs.users && Repointed(link, link.chanctx) && SameFields(link)
      ensures link in old(View()).link && old(View()).link[link] == old(Record(link))
      ensures var w := With(old(View()), link, Record(link));
              View() == if old(link.chanctx) == null then w else Reap(w, old(link.chanctx))
    {
      OneLinkChanged(link);
      if old(link.chanctx) == null { KeptView(); } else { ReapedView(old(link.chanctx)); }
    }

    method Reassigned(link: Link, c: ChanCtx, a: ChanCtx)
      requires Inv() && link in ifs.users && link.reservedChanctx == c && link.chanctx == a
      requires c.replaceState != REPLACES_OTHER
      modifies this`list, link`chanctx, link`chanreq, link`radarRequired, link`reservedChanctx
      ensures (Inv() <==> !old(Orphaning(link))) && forall d | d in list :: d in old(list)
      ensures link in old(View()).link && old(View()).link[link].reserved != null
      ensures View() == Moved(old(View()), link, true, 0)
    {
      MoveAway(link, c, a);
      MovedView(link);
      hide Inv, Repointed, View, Reap, With, Orphaning;
    }

    // The link goes, and the context it leaves if nobody else uses it.
    method MoveAway(link: Link, c: ChanCtx, a: ChanCtx)
      requires Inv() && link in ifs.users && link.reservedChanctx == c && link.chanctx == a
      requires c.replaceState != REPLACES_OTHER
      modifies this`list, link`chanctx, link`chanreq, link`radarRequired, link`reservedChanctx
      ensures Repointed(link, c) && link.chanctx == c && (Inv() <==> !old(Orphaning(link)))
      ensures link.chanreq == link.reservedReq && link.radarRequired == link.reservedRadar
      ensures forall d | d in list :: d in old(list)
    {
      MoveLink(link, c);
      var n := ifs.Refcount(a);
      if n == 0 { list := Without(list, a); }
      RepointedInv(link, c);
    }

    // The link's fields after a move.
    method MoveLink(link: Link, c: ChanCtx)
      modifies link`chanctx, link`chanreq, link`radarRequired, link`reservedChanctx
      ensures link.chanctx == c && link.reservedChanctx == null
      ensures link.chanreq == link.reservedReq && link.radarRequired == link.reservedRadar
    {
      link.chanreq := link.reservedReq;
      link.reservedChanctx := null;
      link.radarRequired := link.reservedRadar;
      link.chanctx := c;
    }

    /** ieee80211_assign_link_chanctx: the driver first drops the current assignment, then is asked
        for the new one; if it refuses, the link ends up without a context. */
    method AssignLinkChanctx(link: Link, c: ChanCtx?, drvErr: int) returns (ret: int)
      modifies link`chanctx
      ensures ret == if c == null then 0 else drvErr
      ensures link.chanctx == if ret == 0 then c else null
    {
      ret := 0;
      var conf: ChanCtx? := null;
      if c != null {
        ret := drvErr;
        if ret == 0 { conf := c; }
      }
      link.chanctx := conf;
    }

    /** ieee80211_link_use_reserved_assign: the same for a link without a context; it keeps its
        current request. */
    method UseReservedAssign(link: Link, compat: bool, drvErr: int) returns (ret: int)
      requires Inv() && link in ifs.users
      modifies this`list, link`chanctx, link`reservedChanctx
      ensures Inv() && forall d | d in list :: d in old(list)
      ensures !old(Usable(link, compat)) || old(link.chanctx) != null ==> ret == EINVAL && View() == old(View())
      ensures old(Usable(link, compat)) && old(link.chanctx) == null ==>
                && link in old(View()).link && old(View()).link[link].reserved != null
                && ret == drvErr && View() == Moved(old(View()), link, true, drvErr)
    {
      var c := link.reservedChanctx;
      if !link.reservedReady || link.chanctx != null || c == null || c.replaceState == REPLACES_OTHER || !compat {
        return EINVAL;
      }
      assert old(View()).link[link] == old(Record(link)) by { Records(); }
      hide View, Moved;
      ret := Assigned(link, c, drvErr);
    }

    method Assigned(link: Link, c: ChanCtx, drvErr: int) returns (ret: int)
      requires Inv() && link in ifs.users && link.reservedChanctx == c && c.replaceState != REPLACES_OTHER && link.chanctx == null
      modifies this`list, link`chanctx, link`reservedChanctx
      ensures Inv() && ret == drvErr && forall d | d in list :: d in old(list)
      ensures link in old(View()).link && old(View()).link[link].reserved != null
      ensures View() == Moved(old(View()), link, true, drvErr)
    {
      ret := Enter(link, c, drvErr);
      if ret != 0 { DroppedView(link); } else { MovedView(link); }
      hide Inv, Repointed, UnreserveDelta, View, Reap, With;
    }

    // The driver's answer decides whether the link gets the context or the context is freed.
    method Enter(link: Link, c: ChanCtx, drvErr: int) returns (ret: int)
      requires Inv() && link in ifs.users && link.reservedChanctx == c && c.replaceState != REPLACES_OTHER && link.chanctx == null
      modifies this`list, link`chanctx, link`reservedChanctx
      ensures Inv() && ret == drvErr && forall d | d in list :: d in old(list)
      ensures if drvErr == 0 then Repointed(link, c) && link.chanctx == c else UnreserveDelta(link)
    {
      link.reservedChanctx := null;
      ret := AssignLinkChanctx(link, c, drvErr);
      if ret != 0 {
        var n := ifs.Refcount(c);
        if n == 0 { list := Without(list, c); }
        UnreserveInv(link);
      } else {
        RepointedInv(link, c);
      }
    }

    // ---------- steps as values ----------

    // All but the pointers of links other than k stays.
    twostate predicate SameFields(k: Link?)
      reads *
    {
      forall m | m in ifs.users && m != k ::
        && m.chanreq == old(m.chanreq) && m.radarRequired == old(m.radarRequired)
        && m.reservedReq == old(m.reservedReq) && m.reservedRadar == old(m.reservedRadar) && m.reservedReady == old(m.reservedReady)
    }

    // The record of a link, as a value.
    function Record(l: Link): LinkV
      reads l
    {
      LinkV(l.chanctx, l.chanreq, l.radarRequired, l.reservedChanctx, l.reservedReq, l.reservedRadar, l.reservedReady)
    }

    twostate lemma OneLinkChanged(link: Link)
      requires link in ifs.users && SameLinks(link) && SameFields(link)
      ensures View().link == old(View()).link[link := Record(link)]
    {
    }

    lemma UsedView(c: ChanCtx)
      ensures Used(c) <==> Uses(View().link, c)
    {
      if Used(c) {
        var l :| l in ifs.users && (l.chanctx == c || l.reservedChanctx == c);
        assert View().link[l].chanctx == c || View().link[l].reserved == c;
      }
    }

    lemma SameWorld(w: World, w': World)
      requires w.list == w'.list && w.link == w'.link && w.ctx.Keys == w'.ctx.Keys
      requires forall c | c in w.ctx :: w.ctx[c] == w'.ctx[c]
      ensures w == w'
    {
    }

    // The records of contexts, as values.
    lemma Records()
      ensures View().list == list && View().ctx.Keys == (set c | c in list) && View().link.Keys == ifs.users
      ensures forall c | c in list :: View().ctx[c] == CtxV(c.replaceState, c.replaceCtx)
      ensures forall l | l in ifs.users :: View().link[l] == Record(l)
    {
    }

    // A context that lost a user is freed if it has none left; nothing else about contexts changes.
    twostate lemma ReapedView(a: ChanCtx)
      requires Kept(null, old(list)) && Reaped(a)
      ensures View() == Reap(World(old(list), old(View()).ctx, View().link), a)
    {
      Records();
      UsedView(a);
      var w := Reap(World(old(list), old(View()).ctx, View().link), a);
      assert forall d | d in old(list) :: old(View()).ctx[d] == CtxV(old(d.replaceState), old(d.replaceCtx));
      assert old(View()).ctx.Keys == set c | c in old(list);
      hide View, Uses, Used, Without;
      assert w.list == list;
      assert w.ctx.Keys == set c | c in list;
      SameWorld(View(), w);
    }

    twostate lemma KeptView()
      requires list == old(list) && Kept(null, old(list))
      ensures View().list == old(View()).list && View().ctx == old(View()).ctx
    {
    }

    // The record of a freed context goes; that of its former partner p, if any, is ordinary.
    twostate lemma FreedView(c: ChanCtx, new p: ChanCtx?)
      requires list == Without(old(list), c) && Kept(p, old(list))
      requires p != null ==> p in old(list) && p != c && p.replaceState == NONE && p.replaceCtx == null
      ensures View().ctx == (if p == null then old(View()).ctx else old(View()).ctx[p := CtxV(NONE, null)]) - {c}
    {
      var x, x' := old(View()).ctx, View().ctx;
      assert forall d | d in old(list) :: x[d] == CtxV(old(d.replaceState), old(d.replaceCtx));
      assert forall d :: d in x <==> d in old(list);
      assert forall d :: d in x' <==> d in list;
      assert forall d | d in list :: x'[d] == CtxV(d.replaceState, d.replaceCtx);
      assert forall d :: d in list <==> d in old(list) && d != c;
      hide View, Without;
      FreedRecords(x, x', c, p);
    }

    lemma FreedRecords(x: map<ChanCtx, CtxV>, x': map<ChanCtx, CtxV>, c: ChanCtx, p: ChanCtx?)
      requires forall d :: d in x' <==> d in x && d != c
      requires forall d | d in x' :: x'[d] == if d == p then CtxV(NONE, null) else x[d]
      requires p != null ==> p in x
      ensures x' == (if p == null then x else x[p := CtxV(NONE, null)]) - {c}
    {
    }

    twostate lemma UnreservedView(link: Link)
      requires old(Inv()) && link in ifs.users && UnreserveDelta(link) && SameFields(null)
      ensures View() == Unreserved(old(View()), link)
    {
      var c := old(link.reservedChanctx);
      OneLinkChanged(link);
      assert old(View()).link[link].reserved == c && Record(link) == old(View()).link[link].(reserved := null);
      if c == null {
        assert old(View()).link[link := Record(link)] == old(View()).link;
        KeptView();
      } else {
        assert c in old(list) && old(Paired(c));
        assert old(View()).ctx[c] == CtxV(old(c.replaceState), old(c.replaceCtx));
        UsedView(c);
        if Used(c) { KeptView(); } else { DropsView(c); }
      }
    }

    twostate lemma DropsView(c: ChanCtx)
      requires c in old(list) && !Used(c) && Reaped(c) && old(Paired(c))
      requires if old(c.replaceState) == REPLACES_OTHER then
                 var p := old(c.replaceCtx);
                 p != null && Kept(p, old(list)) && p.replaceState == NONE && p.replaceCtx == null
               else Kept(null, old(list))
      ensures View().list == Without(old(View()).list, c)
      ensures var p := if old(c.replaceState) == REPLACES_OTHER then old(c.replaceCtx) else null;
              View().ctx == (if p == null then old(View()).ctx else old(View()).ctx[p := CtxV(NONE, null)]) - {c}
    {
      FreedView(c, if old(c.replaceState) == REPLACES_OTHER then old(c.replaceCtx) else null);
    }

    // ---------- release ----------

    // ieee80211_link_has_in_place_reservation: the link is on a context that goes away and
    // reserves one that comes.
    predicate InPlace(l: Link)
      reads l, l.chanctx, l.reservedChanctx
    {
      && l.chanctx != null && l.reservedChanctx != null
      && l.chanctx.replaceState == WILL_BE_REPLACED && l.reservedChanctx.replaceState == REPLACES_OTHER
    }

    lemma InPlaceMoves(l: Link)
      requires NoDangling() && l in ifs.users
      ensures InPlace(l) <==> Moves(View(), View().link[l])
    {
    }

    // Releasing the link would free a context whose replacement others still reserve.
    ghost predicate Stranding(link: Link)
      reads this, list, link, link.chanctx, ifs.users
    {
      Orphaning(link) && exists m :: m in ifs.users && m != link && m.reservedChanctx == link.chanctx.replaceCtx
    }

    // The same, read from the value.
    lemma OrphansView(link: Link)
      requires Inv() && link in ifs.users
      ensures Orphans(View(), link) <==> Orphaning(link)
      ensures Strands(View(), link) <==> Stranding(link)
    {
      Records();
      if Orphaning(link) { assert link.chanctx in list; }
    }

    twostate lemma StrandsIsOrphans(link: Link)
      requires old(Inv()) && Inv() && link in ifs.users && UnreserveDelta(link) && link.chanctx != null
      ensures Orphaning(link) <==> old(Stranding(link))
    {
      var a := link.chanctx;
      if old(a.replaceState) == WILL_BE_REPLACED {
        assert old(Paired(a));
        var b := old(a.replaceCtx);
        assert old(Used(b));
        var m :| m in ifs.users && old(m.chanctx == b || m.reservedChanctx == b);
        assert old(m.reservedChanctx) == b;
        if m == link && a.replaceState != WILL_BE_REPLACED {
          assert forall k | k in ifs.users && k != link :: old(k.reservedChanctx) != b;
        }
      }
    }

    /** The link gives up its context, which is freed if nobody else uses it. */
    method Leave(link: Link)
      requires Inv() && link in ifs.users && link.chanctx != null && link.reservedChanctx == null
      modifies this`list, link`chanctx, link`radarRequired
      ensures View() == Left(old(View()), link)
      ensures Inv() <==> !old(Orphaning(link))
      ensures forall c | c in list :: c in old(list)
    {
      var ctx := link.chanctx;
      Vacate(link);
      LeftView(link);
    }

    method Vacate(link: Link)
      requires Inv() && link in ifs.users && link.chanctx != null && link.reservedChanctx == null
      modifies this`list, link`chanctx, link`radarRequired
      ensures Repointed(link, null) && !link.radarRequired
      ensures Inv() <==> !old(Orphaning(link))
      ensures forall c | c in list :: c in old(list)
    {
      var ctx := link.chanctx;
      var r := AssignLinkChanctx(link, null, 0);
      link.radarRequired := false;
      var n := ifs.Refcount(ctx);
      if n == 0 { list := Without(list, ctx); }
      RepointedInv(link, null);
    }

    twostate lemma LeftView(link: Link)
      requires old(Inv()) && link in ifs.users && old(link.chanctx) != null && old(link.reservedChanctx) == null
      requires Repointed(link, null) && SameFields(link) && !link.radarRequired
      requires link.chanreq == old(link.chanreq) && link.reservedReq == old(link.reservedReq)
      requires link.reservedRadar == old(link.reservedRadar) && link.reservedReady == old(link.reservedReady)
      ensures View() == Left(old(View()), link)
    {
      ReapedView(old(link.chanctx));
      OneLinkChanged(link);
      assert old(View()).link[link].chanctx == old(link.chanctx);
      assert Record(link) == old(View()).link[link].(chanctx := null, radar := false);
      assert old(View()).list == old(list);
    }

    /** The reservation part of __ieee80211_link_release_channel. */
    method ReleaseReservation(link: Link) returns (retry: bool)
      requires Inv() && link in ifs.users
      modifies this`list, link`reservedChanctx, list`replaceState, list`replaceCtx
      ensures Inv() && link.reservedChanctx == null && View() == Unreserved(old(View()), link)
      ensures link.chanctx != null ==> (Orphaning(link) <==> old(Stranding(link)))
      ensures retry <==> old(Shares(View(), link))
      ensures retry <==> old(link.reservedChanctx != null && link.reservedChanctx.replaceState == REPLACES_OTHER
                             && exists m :: m in ifs.users && m != link && m.reservedChanctx == link.reservedChanctx)
      ensures forall c | c in list :: c in old(list)
    {
      hide Shares, Unreserved, UnreserveDelta, View, Inv, Orphaning, Stranding;
      retry := WorthRetrying(link);
      Drop(link);
    }

    method Drop(link: Link)
      requires Inv() && link in ifs.users
      modifies this`list, link`reservedChanctx, list`replaceState, list`replaceCtx
      ensures Inv() && link.reservedChanctx == null && View() == Unreserved(old(View()), link)
      ensures link.chanctx != null ==> (Orphaning(link) <==> old(Stranding(link)))
      ensures forall c | c in list :: c in old(list)
    {
      Unreserve(link);
      UnreservedView(link);
      if link.chanctx != null { StrandsIsOrphans(link); }
      hide View, Orphaning, Stranding, Inv;
    }

    method WorthRetrying(link: Link) returns (retry: bool)
      requires Inv() && link in ifs.users
      ensures retry <==> Shares(View(), link)
      ensures retry <==> link.reservedChanctx != null && link.reservedChanctx.replaceState == REPLACES_OTHER
                         && exists m :: m in ifs.users && m != link && m.reservedChanctx == link.reservedChanctx
    {
      retry := false;
      Records();
      if link.reservedChanctx != null && link.reservedChanctx.replaceState == REPLACES_OTHER {
        var n := ifs.NumReserved(link.reservedChanctx);
        OneOfMany(link, link.reservedChanctx);
        retry := n > 1;
        assert retry <==> exists m | m in ifs.users && m != link :: View().link[m].reserved == link.reservedChanctx;
      }
    }

    // A context has more than one reserver if some other link reserves it, too.
    lemma OneOfMany(link: Link, c: ChanCtx)
      requires link in ifs.users && link.reservedChanctx == c
      ensures |ifs.ReservedFor(c)| > 1 <==> exists m | m in ifs.users && m != link :: m.reservedChanctx == c
    {
      var others := ifs.ReservedFor(c) - {link};
      assert ifs.ReservedFor(c) == others + {link};
      if others != {} {
        var m :| m in others;
        assert m.reservedChanctx == c;
      } else {
        assert forall m | m in ifs.users && m.reservedChanctx == c :: m in others + {link};
      }
    }

    /** The part of __ieee80211_link_release_channel before the pending switch is retried. */
    method ReleaseLink(link: Link) returns (retry: bool)
      requires Inv() && link in ifs.users
      modifies this`list, link`chanctx, link`radarRequired, link`reservedChanctx, list`replaceState, list`replaceCtx
      ensures View() == Released(old(View()), link)
      ensures retry <==> old(link.chanctx) != null && Shares(old(View()), link)
      ensures Inv() <==> old(link.chanctx == null || !Stranding(link))
      ensures forall c | c in list :: c in old(list)
    {
      retry := false;
      if link.chanctx != null {
        hide Unreserved, View, Shares, Inv, Orphaning, Stranding;
        retry := ReleaseReservation(link);
        Leave(link);
      }
    }

    // ---------- the in-place switch ----------

    /** The readiness counts over the old context's links. */
    method CountAssigned(a: ChanCtx) returns (nAssigned: nat, nReserved: nat, nReady: nat)
      requires ifs.Valid()
      ensures nAssigned == nReserved <==> AllReserved(View(), a)
      ensures nReady == nReserved <==> AllReady(View(), a)
    {
      nAssigned, nReserved, nReady := 0, 0, 0;
      ghost var bare: Link?, late: Link? := null, null;
      var iter := ifs.NextAssigned(a, START, true);
      while !iter.done
        invariant ifs.ValidIter(iter) && (!iter.done ==> !iter.reserved && iter.link.chanctx == a)
        invariant nReady <= nReserved <= nAssigned
        invariant nAssigned != nReserved ==> bare != null && bare in ifs.users && bare.chanctx == a && bare.reservedChanctx == null
        invariant nReady != nReserved ==> late != null && late in ifs.users && late.chanctx == a && late.reservedChanctx != null && !late.reservedReady
        invariant forall l | l in ifs.users && l.chanctx == a && (iter.done || Before(l, iter.link)) ::
                    && (nAssigned == nReserved ==> l.reservedChanctx != null)
                    && (nReady == nReserved && l.reservedChanctx != null ==> l.reservedReady)
        decreases ifs.Rank(iter).0, ifs.Rank(iter).1, ifs.Rank(iter).2
      {
        nAssigned := nAssigned + 1;
        if iter.link.reservedChanctx != null {
          nReserved := nReserved + 1;
          if iter.link.reservedReady { nReady := nReady + 1; } else { late := iter.link; }
        } else {
          bare := iter.link;
        }
        iter := ifs.NextAssigned(a, iter, false);
      }
      assert nAssigned != nReserved ==> bare in View().link;
      assert nReady != nReserved ==> late in View().link;
    }

    /** The readiness of the links that reserve the replacement: nSwitch of them are on a context
        that goes away, nOther are not. */
    method CheckReservers(c: ChanCtx) returns (ready: bool, nSwitch: nat, nOther: nat)
      requires ifs.Valid() && NoDangling() && c in list && c.replaceState == REPLACES_OTHER
      ensures ready <==> SwapReady(View(), c)
      ensures ready ==> (nSwitch > 0 <==> Reserver(View(), [c], true)) && (nOther > 0 <==> Reserver(View(), [c], false))
    {
      ready, nSwitch, nOther := true, 0, 0;
      ghost var mover: Link?, other: Link? := null, null;
      var iter := ifs.NextReserved(c, START, true);
      while !iter.done
        invariant ifs.ValidIter(iter) && (!iter.done ==> iter.reserved && iter.link.reservedChanctx == c)
        invariant forall l | l in ifs.users && l.reservedChanctx == c && (iter.done || Before(l, iter.link)) ::
                    if InPlace(l) then l.reservedReady && nSwitch > 0 else nOther > 0
        invariant nSwitch > 0 ==> mover != null && mover in ifs.users && mover.reservedChanctx == c && InPlace(mover)
        invariant nOther > 0 ==> other != null && other in ifs.users && other.reservedChanctx == c && !InPlace(other)
        decreases ifs.Rank(iter).0, ifs.Rank(iter).1, ifs.Rank(iter).2
      {
        if InPlace(iter.link) && !iter.link.reservedReady {
          ready := false;
          ReserversOf(c);
          return;
        }
        if iter.link.chanctx != null && iter.link.chanctx.replaceState == WILL_BE_REPLACED {
          nSwitch, mover := nSwitch + 1, iter.link;
        } else {
          nOther, other := nOther + 1, iter.link;
        }
        iter := ifs.NextReserved(c, iter, false);
      }
      ReserversOf(c);
      hide View, SwapReady, Reserver, InPlace;
    }

    // What the value says about the reservers of a replacement.
    lemma ReserversOf(c: ChanCtx)
      requires NoDangling() && c in list && c.replaceState == REPLACES_OTHER
      ensures SwapReady(View(), c) <==> forall l | l in ifs.users && l.reservedChanctx == c && InPlace(l) :: l.reservedReady
      ensures forall b: bool :: Reserver(View(), [c], b) <==> exists l :: l in ifs.users && l.reservedChanctx == c && InPlace(l) == b
    {
      Records();
      forall l | l in ifs.users
        ensures InPlace(l) <==> Moves(View(), View().link[l])
      {
        InPlaceMoves(l);
      }
      assert IsState(View(), c, REPLACES_OTHER);
      hide InPlace, Moves, View;
      forall b: bool
        ensures Reserver(View(), [c], b) <==> exists l :: l in ifs.users && l.reservedChanctx == c && InPlace(l) == b
      {
        if l :| l in ifs.users && l.reservedChanctx == c && InPlace(l) == b {
          assert l in View().link && View().link[l].reserved in [c];
        }
      }
    }

    // What the value says about the links of a pair.
    lemma ReadPair(c: ChanCtx, a: ChanCtx)
      requires NoDangling() && c in list && c.replaceState == REPLACES_OTHER
      ensures AllReserved(View(), a) <==> forall l | l in ifs.users && l.chanctx == a :: l.reservedChanctx != null
      ensures AllReady(View(), a) <==> forall l | l in ifs.users && l.chanctx == a && l.reservedChanctx != null :: l.reservedReady
      ensures SwapReady(View(), c) <==> forall l | l in ifs.users && l.reservedChanctx == c && InPlace(l) :: l.reservedReady
    {
      Records();
      ReserversOf(c);
      hide View, SwapReady, InPlace;
    }

    // The links on a context have reservations, and those that they have are ready.
    ghost predicate AllHaveReservations(a: ChanCtx)
      reads ifs.users
    {
      forall l | l in ifs.users && l.chanctx == a :: l.reservedChanctx != null
    }

    ghost predicate AllReservationsReady(a: ChanCtx)
      reads ifs.users
    {
      forall l | l in ifs.users && l.chanctx == a && l.reservedChanctx != null :: l.reservedReady
    }

    // So are all links that are to move to a replacement in place.
    ghost predicate AllMoversReady(c: ChanCtx)
      reads *
    {
      forall l | l in ifs.users && l.reservedChanctx == c && l.chanctx != null && l.chanctx.replaceState == WILL_BE_REPLACED :: l.reservedReady
    }

    lemma VerdictMeans(c: ChanCtx, a: ChanCtx)
      requires NoDangling() && c in list && c.replaceState == REPLACES_OTHER
      ensures PairVerdict(View(), c, a) == Go <==> AllHaveReservations(a) && AllMoversReady(c)
      ensures PairVerdict(View(), c, a) == Stuck <==> !AllHaveReservations(a) && AllReservationsReady(a)
    {
      ReadPair(c, a);
      hide AllReserved, AllReady, SwapReady, View, InPlace;
    }

    /** The two checks of one pair: it goes ahead only if both pass, and fails rather than waits only
        if a link without a reservation holds it up and all the reservations are ready. */
    method CheckPair(c: ChanCtx, a: ChanCtx) returns (v: Verdict, nSwitch: nat, nOther: nat)
      requires ifs.Valid() && NoDangling() && c in list && c.replaceState == REPLACES_OTHER
      ensures v == PairVerdict(View(), c, a)
      ensures v == Go <==> AllHaveReservations(a) && AllMoversReady(c)
      ensures v == Stuck <==> !AllHaveReservations(a) && AllReservationsReady(a)
      ensures v == Go ==> (nSwitch > 0 <==> Reserver(View(), [c], true)) && (nOther > 0 <==> Reserver(View(), [c], false))
    {
      v, nSwitch, nOther := WeighPair(c, a);
      VerdictMeans(c, a);
      hide View, Reserver, AllHaveReservations, AllReservationsReady, AllMoversReady;
    }

    method WeighPair(c: ChanCtx, a: ChanCtx) returns (v: Verdict, nSwitch: nat, nOther: nat)
      requires ifs.Valid() && NoDangling() && c in list && c.replaceState == REPLACES_OTHER
      ensures v == PairVerdict(View(), c, a)
      ensures v == Go ==> (nSwitch > 0 <==> Reserver(View(), [c], true)) && (nOther > 0 <==> Reserver(View(), [c], false))
    {
      hide AllReserved, AllReady, SwapReady, Reserver, View, InPlace;
      nSwitch, nOther := 0, 0;
      var n, m, k := CountAssigned(a);
      if n != m {
        v := if k == m then Stuck else Defer;
      } else {
        var ready;
        ready, nSwitch, nOther := CheckReservers(c);
        v := if ready then Go else Defer;
      }
    }

    lemma ReserverSplit(w: World, cs: seq<ChanCtx>, c: ChanCtx, b: bool)
      ensures Reserver(w, cs + [c], b) <==> Reserver(w, cs, b) || Reserver(w, [c], b)
      ensures PairIn(w, cs + [c]) <==> PairIn(w, cs) || PairIn(w, [c])
    {
      assert forall d: ChanCtx :: d in cs + [c] <==> d in cs || d in [c];
    }

    // One step of the readiness check: the verdict of one context.
    method CheckStep(c: ChanCtx) returns (v: Verdict, nCtx: nat, nSwitch: nat, nOther: nat)
      requires ifs.Valid() && NoDangling() && c in list && (c.replaceState == REPLACES_OTHER ==> c.replaceCtx != null)
      ensures v == VerdictOf(View(), c)
      ensures v == Go ==> (nCtx > 0 <==> PairIn(View(), [c]))
      ensures v == Go ==> (nSwitch > 0 <==> Reserver(View(), [c], true)) && (nOther > 0 <==> Reserver(View(), [c], false))
    {
      v, nCtx, nSwitch, nOther := Go, 0, 0, 0;
      assert c in [c];
      if c.replaceState == REPLACES_OTHER {
        nCtx := 1;
        v, nSwitch, nOther := CheckPair(c, c.replaceCtx);
      }
    }

    /** Is the switch of all pairs feasible now (mac80211/chan.c:1726-1789)? */
    method CheckSwitch() returns (v: Verdict, nCtx: nat, nSwitch: nat, nOther: nat)
      requires ifs.Valid() && NoDangling()
      requires forall c | c in list && c.replaceState == REPLACES_OTHER :: c.replaceCtx != null
      ensures v == ListVerdict(View(), list)
      ensures v == Go ==> (nCtx > 0 <==> PairIn(View(), list))
      ensures v == Go ==> (nSwitch > 0 <==> Reserver(View(), list, true)) && (nOther > 0 <==> Reserver(View(), list, false))
    {
      hide View;
      v, nCtx, nSwitch, nOther := Go, 0, 0, 0;
      assert list[0..] == list && list[..0] == [];
      for i := 0 to |list|
        invariant v == Go && ListVerdict(View(), list[i..]) == ListVerdict(View(), list)
        invariant nCtx > 0 <==> PairIn(View(), list[..i])
        invariant nSwitch > 0 <==> Reserver(View(), list[..i], true)
        invariant nOther > 0 <==> Reserver(View(), list[..i], false)
      {
        var p, s, o;
        assert list[i..][0] == list[i] && list[i..][1..] == list[i + 1..];
        hide View, PairIn, Reserver, VerdictOf;
        v, p, s, o := CheckStep(list[i]);
        if v != Go { return; }
        nCtx, nSwitch, nOther := nCtx + p, nSwitch + s, nOther + o;
        assert list[..i + 1] == list[..i] + [list[i]];
        ReserverSplit(View(), list[..i], list[i], true);
        ReserverSplit(View(), list[..i], list[i], false);
      }
      assert list[..|list|] == list;
    }

    // A pair has a reserver, moving or not.
    lemma SomeReserver()
      requires Inv() && PairIn(View(), list)
      ensures Reserver(View(), list, true) || Reserver(View(), list, false)
    {
      var c :| c in list && c.replaceState == REPLACES_OTHER;
      ReplacementIsReserved(c);
      var l :| l in ifs.users && l.reservedChanctx == c;
      assert l in View().link && Joins(View(), View().link[l]) && View().link[l].reserved in list;
    }

    /** Everything ieee80211_vif_use_reserved_switch does before pointers move
        (mac80211/chan.c:1726-1832).  `drvErr` answers the driver's vif switch; the context switch
        (`ctxErr`) is only asked for when some reserver does not take part in the swap. */
    method Decide(drvErr: int, ctxErr: int) returns (ret: int, defer: bool)
      requires Inv()
      ensures ret == Decision(View(), drvErr, ctxErr)
      ensures defer <==> ListVerdict(View(), list) == Defer
    {
      var v, nCtx, nSwitch, nOther := CheckSwitch();
      if PairIn(View(), list) { SomeReserver(); }
      ret, defer := 0, v == Defer;
      if v == Defer { ret := EAGAIN; }
      else if v == Stuck { ret := EBUSY; }
      else if nCtx == 0 || (nSwitch == 0 && nOther == 0) { ret := EINVAL; }
      else {
        if nSwitch > 0 { ret := drvErr; }
        if ret == 0 && nOther > 0 { ret := ctxErr; }
      }
    }
    // c is gone and its partner is ordinary again.
    twostate predicate Undone(c: ChanCtx)
      reads *
    {
      var p := old(c.replaceCtx);
      && list == Without(old(list), c) && Kept(p, old(list))
      && p != null && p.replaceState == NONE && p.replaceCtx == null
    }

    // Reservations of c are dropped, everything else about links stays.
    twostate predicate Dropped(c: ChanCtx)
      reads *
    {
      forall l | l in ifs.users ::
        && l.chanctx == old(l.chanctx)
        && l.reservedChanctx == if old(l.reservedChanctx) == c then null else old(l.reservedChanctx)
    }

    /** One round of the unwinding loop: drop the reservation of the link the iterator stands on and
        move on.  The last reserver takes the replacement with it. */
    method DropNext(c: ChanCtx, iter: UserIter) returns (r: UserIter)
      requires Inv() && ifs.ValidIter(iter) && !iter.done && iter.reserved
      requires iter.link.reservedChanctx == c && c.replaceState == REPLACES_OTHER
      requires forall l | l in ifs.users && Before(l, iter.link) :: l.reservedChanctx != c
      modifies this`list, iter.link`reservedChanctx, list`replaceState, list`replaceCtx
      ensures Inv() && iter.link.reservedChanctx == null
      ensures ifs.ValidIter(r) && (!r.done ==> r.reserved && r.link.reservedChanctx == c && Less(ifs.Rank(r), ifs.Rank(iter)))
      ensures forall l | l in ifs.users && (r.done || Before(l, r.link)) :: l.reservedChanctx != c
      ensures if r.done then Undone(c) else list == old(list) && Kept(null, old(list))
    {
      Unreserve(iter.link);
      r := ifs.NextReserved(c, iter, false);
      forall l | l in ifs.users && (r.done || Before(l, r.link))
        ensures l.reservedChanctx != c
      {
        ifs.Total(l, iter.link);
      }
    }

    /** The unwinding of one pair: every reserver of the replacement drops its reservation
        (mac80211/chan.c:1954-1957). */
    method DropReservers(c: ChanCtx)
      requires Inv() && c in list && c.replaceState == REPLACES_OTHER
      modifies this`list, ifs.users`reservedChanctx, list`replaceState, list`replaceCtx
      ensures Inv() && Undone(c) && Dropped(c)
    {
      hide Without;
      ReplacementIsReserved(c);
      var iter := ifs.NextReserved(c, START, true);
      while !iter.done
        invariant Inv() && ifs.ValidIter(iter)
        invariant !iter.done ==> iter.reserved && iter.link.reservedChanctx == c
        invariant forall l | l in ifs.users && (iter.done || Before(l, iter.link)) :: l.reservedChanctx != c
        invariant forall l | l in ifs.users :: l.reservedChanctx == old(l.reservedChanctx)
                    || (old(l.reservedChanctx) == c && l.reservedChanctx == null)
        invariant if iter.done then Undone(c) else list == old(list) && Kept(null, old(list))
        decreases ifs.Rank(iter).0, ifs.Rank(iter).1, ifs.Rank(iter).2
      {
        iter := DropNext(c, iter);
      }
    }

    // What the failed switch leaves behind.
    twostate predicate Abandoned()
      reads *
    {
      && (forall l | l in ifs.users ::
            && l.chanctx == old(l.chanctx)
            && l.reservedChanctx == if old(l.reservedChanctx != null && l.reservedChanctx.replaceState == REPLACES_OTHER) then null
                                    else old(l.reservedChanctx))
      && (forall c | c in list :: c.replaceState == NONE && c.replaceCtx == null)
      && (forall c | c in list :: c in old(list))
      && (forall c | c in old(list) :: c in list <==> old(c.replaceState) != REPLACES_OTHER)
    }

    // The record of a replacement is left as it was, even when the context itself is freed.
    twostate predicate StillReplacing()
      reads *
    {
      forall c | c in old(list) && old(c.replaceState) == REPLACES_OTHER :: c.replaceState == REPLACES_OTHER
    }

    // Part of the list `order` is still listed: everything but the first i replacements.
    ghost predicate Remaining(order: seq<ChanCtx>, i: nat)
      reads this, order
    {
      && (forall c | c in list :: c in order)
      && forall j | 0 <= j < |order| :: order[j] in list <==> i <= j || order[j].replaceState != REPLACES_OTHER
    }

    method AbandonOne(order: seq<ChanCtx>, i: nat)
      requires Inv() && Distinct(order) && i < |order| && Remaining(order, i)
      modifies this`list, ifs.users`reservedChanctx, order`replaceState, order`replaceCtx
      ensures Inv() && Remaining(order, i + 1)
      ensures forall c | c in order :: old(c.replaceState) == REPLACES_OTHER <==> c.replaceState == REPLACES_OTHER
      ensures forall l | l in ifs.users :: l.reservedChanctx == old(l.reservedChanctx)
                || (l.reservedChanctx == null && old(l.reservedChanctx) == order[i] && old(order[i].replaceState) == REPLACES_OTHER)
    {
      if order[i].replaceState == REPLACES_OTHER {
        forall k | 0 <= k < |list|
          ensures list[k] in order
        {
          assert list[k] in list;
        }
        DropReservers(order[i]);
      }
    }

    /** The error exit of ieee80211_vif_use_reserved_switch (mac80211/chan.c:1947-1960). */
    method Abandon()
      requires Inv()
      modifies this`list, ifs.users`reservedChanctx, list`replaceState, list`replaceCtx
      ensures Inv() && Abandoned()
      ensures StillReplacing()
    {
      var order := list;
      for i := 0 to |order|
        invariant Inv() && Remaining(order, i)
        invariant forall c | c in order :: old(c.replaceState) == REPLACES_OTHER <==> c.replaceState == REPLACES_OTHER
        invariant forall l | l in ifs.users :: l.reservedChanctx == old(l.reservedChanctx)
                    || (l.reservedChanctx == null && old(l.reservedChanctx) in order && old(l.reservedChanctx.replaceState) == REPLACES_OTHER)
      {
        AbandonOne(order, i);
      }
    }

    // The link is on c, with the request and radar need of its reservation.
    twostate predicate Swapped(l: Link, c: ChanCtx)
      reads l
    {
      l.chanctx == c && l.chanreq == old(l.reservedReq) && l.radarRequired == old(l.reservedRadar)
    }

    twostate predicate Untouched(l: Link)
      reads l
    {
      l.chanctx == old(l.chanctx) && l.chanreq == old(l.chanreq) && l.radarRequired == old(l.radarRequired)
    }

    /** Point every in-place reserver of c at c (mac80211/chan.c:1853-1879). */
    method PointReservers(c: ChanCtx)
      requires ifs.Valid() && c.replaceState == REPLACES_OTHER
      requires forall l | l in ifs.users && l.reservedChanctx == c :: l.chanctx != c
      modifies ifs.users`chanctx, ifs.users`chanreq, ifs.users`radarRequired
      ensures forall l | l in ifs.users :: if l.reservedChanctx == c && old(InPlace(l)) then Swapped(l, c) else Untouched(l)
    {
      var iter := ifs.NextReserved(c, START, true);
      while !iter.done
        invariant ifs.ValidIter(iter) && (!iter.done ==> iter.reserved && iter.link.reservedChanctx == c)
        invariant forall l | l in ifs.users ::
                    if l.reservedChanctx == c && old(InPlace(l)) && (iter.done || Before(l, iter.link)) then Swapped(l, c) else Untouched(l)
        decreases ifs.Rank(iter).0, ifs.Rank(iter).1, ifs.Rank(iter).2
      {
        var link := iter.link;
        if InPlace(link) {
          link.chanctx := c;
          link.radarRequired := link.reservedRadar;
          link.chanreq := link.reservedReq;
        }
        iter := ifs.NextReserved(c, iter, false);
      }
    }

    /** Clear the reservations of c's reservers that are now on c (mac80211/chan.c:1886-1894). */
    method ClearReservers(c: ChanCtx)
      requires ifs.Valid()
      modifies ifs.users`reservedChanctx
      ensures forall l | l in ifs.users ::
                l.reservedChanctx == if old(l.reservedChanctx) == c && l.chanctx == c then null else old(l.reservedChanctx)
    {
      var iter := ifs.NextReserved(c, START, true);
      while !iter.done
        invariant ifs.ValidIter(iter) && (!iter.done ==> iter.reserved && iter.link.reservedChanctx == c)
        invariant forall l | l in ifs.users ::
          l.reservedChanctx == if old(l.reservedChanctx) == c && l.chanctx == c && (iter.done || Before(l, iter.link)) then null
                               else old(l.reservedChanctx)
        decreases ifs.Rank(iter).0, ifs.Rank(iter).1, ifs.Rank(iter).2
      {
        var link := iter.link;
        if link.chanctx == c {
          link.reservedChanctx := null;
        }
        iter := ifs.NextReserved(c, iter, false);
      }
    }

    // A link that keeps c alive whatever becomes of the ready reservations.
    ghost predicate Keeps(k: Link, c: ChanCtx)
      reads k
    {
      k.chanctx == c || (k.reservedChanctx == c && !k.reservedReady)
    }

    /** The deferred re-assignments (mac80211/chan.c:1903-1926).  The helpers refuse them at once,
        because c is still marked as a replacement (mac80211/chan.c:1486, 1564), so every ready
        reservation that is left is dropped.  c keeps the user k and is not freed by that. */
    method RefuseDeferred(c: ChanCtx, ghost k: Link)
      requires ifs.Valid() && c.replaceState == REPLACES_OTHER && k in ifs.users && Keeps(k, c)
      requires forall l | l in ifs.users && l.reservedChanctx == c :: !InPlace(l)
      modifies ifs.users`reservedChanctx
      ensures forall l | l in ifs.users ::
                l.reservedChanctx == if old(l.reservedChanctx) == c && l.reservedReady then null else old(l.reservedChanctx)
    {
      var iter := ifs.NextReserved(c, START, true);
      while !iter.done
        invariant ifs.ValidIter(iter) && (!iter.done ==> iter.reserved && iter.link.reservedChanctx == c)
        invariant forall l | l in ifs.users ::
          l.reservedChanctx == if old(l.reservedChanctx) == c && l.reservedReady && (iter.done || Before(l, iter.link)) then null
                               else old(l.reservedChanctx)
        decreases ifs.Rank(iter).0, ifs.Rank(iter).1, ifs.Rank(iter).2
      {
        var link := iter.link;
        if !InPlace(link) && link.reservedReady {
          RefuseOne(link, c, k);
        }
        iter := ifs.NextReserved(c, iter, false);
      }
    }

    method RefuseOne(link: Link, c: ChanCtx, ghost k: Link)
      requires ifs.Valid() && link in ifs.users && k in ifs.users && Keeps(k, c) && link.reservedChanctx == c && link.reservedReady
      modifies link`reservedChanctx
      ensures link.reservedChanctx == null && Keeps(k, c)
    {
      link.reservedChanctx := null;
      var n := ifs.Refcount(c);
      assert Keeps(k, c) && n != 0;
    }

    // The link as the swap to c leaves it.
    twostate predicate Landed(l: Link, c: ChanCtx)
      reads l
    {
      Swapped(l, c) && l.reservedChanctx == null
    }

    twostate predicate LeftAlone(l: Link)
      reads l
    {
      Untouched(l) && l.reservedChanctx == old(l.reservedChanctx)
    }

    // What becomes of a reserver of c: it lands, or is refused if ready, or goes on waiting.
    twostate predicate Dealt(l: Link, c: ChanCtx)
      reads *
    {
      if old(InPlace(l)) then Landed(l, c)
      else Untouched(l) && l.reservedChanctx == if l.reservedReady then null else c
    }

    // Some reserver of c swaps to it or is not ready.
    ghost predicate Anchor(c: ChanCtx)
      reads *
    {
      exists k :: k in ifs.users && k.reservedChanctx == c && (InPlace(k) || !k.reservedReady)
    }

    /** One replacement takes over its reservers. */
    method TakeOver(c: ChanCtx)
      requires ifs.Valid() && NoDangling() && c in list && c.replaceState == REPLACES_OTHER && Anchor(c)
      requires forall l | l in ifs.users && l.reservedChanctx == c :: l.chanctx != c
      modifies ifs.users`chanctx, ifs.users`chanreq, ifs.users`radarRequired, ifs.users`reservedChanctx
      ensures Landing(old(View()), View(), [c])
    {
      hide Dealt, LeftAlone, View, Landing, Anchor;
      Deal(c);
      TakenView(c);
    }

    method Deal(c: ChanCtx)
      requires ifs.Valid() && NoDangling() && c in list && c.replaceState == REPLACES_OTHER && Anchor(c)
      requires forall l | l in ifs.users && l.reservedChanctx == c :: l.chanctx != c
      modifies ifs.users`chanctx, ifs.users`chanreq, ifs.users`radarRequired, ifs.users`reservedChanctx
      ensures forall l | l in ifs.users :: if old(l.reservedChanctx) == c then Dealt(l, c) else LeftAlone(l)
    {
      ghost var k :| k in ifs.users && k.reservedChanctx == c && (InPlace(k) || !k.reservedReady);
      PointReservers(c);
      ClearReservers(c);
      RefuseDeferred(c, k);
    }

    // What becomes of reservers, as values.
    twostate lemma TakenView(c: ChanCtx)
      requires old(NoDangling() && c in list) && old(c.replaceState) == REPLACES_OTHER
      requires list == old(list) && Kept(null, old(list))
      requires forall l | l in ifs.users ::
                 l.reservedReq == old(l.reservedReq) && l.reservedRadar == old(l.reservedRadar) && l.reservedReady == old(l.reservedReady)
      requires forall l | l in ifs.users :: if old(l.reservedChanctx) == c then Dealt(l, c) else LeftAlone(l)
      ensures Landing(old(View()), View(), [c])
    {
      KeptView();
      var w, w' := old(View()), View();
      assert IsState(w, c, REPLACES_OTHER);
      forall l | l in ifs.users
        ensures w'.link[l] == if w.link[l].reserved in [c] then AfterSwap(w, w.link[l]) else w.link[l]
      {
        assert w.link[l] == LinkV(old(l.chanctx), old(l.chanreq), old(l.radarRequired), old(l.reservedChanctx),
                                  old(l.reservedReq), old(l.reservedRadar), old(l.reservedReady));
        assert w'.link[l] == Record(l);
        if old(l.reservedChanctx) == c {
          assert old(InPlace(l)) <==> Moves(w, w.link[l]);
        }
      }
    }

    // The value and the objects agree on who keeps a replacement, and on what is listed.
    lemma AnchorView(c: ChanCtx)
      requires c in list && c.replaceState == REPLACES_OTHER && AllListed(View()) && AnchoredAt(View(), c)
      requires forall l | l in View().link && View().link[l].reserved == c :: View().link[l].chanctx != c
      ensures NoDangling() && Anchor(c)
      ensures forall l | l in ifs.users && l.reservedChanctx == c :: l.chanctx != c
    {
      Records();
      forall l | l in ifs.users
        ensures (l.chanctx != null ==> l.chanctx in list) && (l.reservedChanctx != null ==> l.reservedChanctx in list)
        ensures l.reservedChanctx == c ==> l.chanctx != c
      {
        assert l in View().link;
      }
      var k :| k in View().link && View().link[k].reserved == c && (Moves(View(), View().link[k]) || !View().link[k].ready);
      assert k in ifs.users && k.reservedChanctx == c;
      InPlaceMoves(k);
    }

    /** All pointers move to the new contexts (mac80211/chan.c:1838-1927). */
    method MoveAll()
      requires ifs.Valid() && Sound(View()) && Anchored(View())
      modifies ifs.users`chanctx, ifs.users`chanreq, ifs.users`radarRequired, ifs.users`reservedChanctx
      ensures Landing(old(View()), View(), list)
    {
      ghost var w := View();
      for i := 0 to |list|
        invariant Landing(w, View(), list[..i])
      {
        MoveOne(w, i);
      }
      assert list[..|list|] == list;
    }

    method MoveOne(ghost w: World, i: nat)
      requires ifs.Valid() && Sound(w) && Anchored(w) && i < |list| && Landing(w, View(), list[..i])
      modifies ifs.users`chanctx, ifs.users`chanreq, ifs.users`radarRequired, ifs.users`reservedChanctx
      ensures Landing(w, View(), list[..i + 1])
    {
      var c := list[i];
      ghost var v, cs := View(), list[..i];
      assert list[..i + 1] == cs + [c];
      ThisPair(w, i);
      hide View, Landing, AllListed, AnchoredAt, Sound, Anchored;
      if c.replaceState == REPLACES_OTHER {
        StillAnchored(w, v, cs, c);
        LandingListed(w, v, cs, c);
        AnchorView(c);
        TakeOver(c);
        LandMore(w, v, View(), cs, c);
      } else {
        NothingLands(w, v, cs, c);
      }
    }

    lemma ThisPair(w: World, i: nat)
      requires Sound(w) && Anchored(w) && i < |list| && Landing(w, View(), list[..i])
      ensures list[i] !in list[..i] && (list[i].replaceState == REPLACES_OTHER <==> IsState(w, list[i], REPLACES_OTHER))
      ensures list[i].replaceState == REPLACES_OTHER ==> AnchoredAt(w, list[i])
    {
      assert w.list == list && w.ctx == View().ctx;
      assert forall j | 0 <= j < i :: list[j] != list[i];
      assert list[i] in w.list;
    }

    lemma NothingLands(w: World, v: World, cs: seq<ChanCtx>, c: ChanCtx)
      requires Landing(w, v, cs) && !IsState(w, c, REPLACES_OTHER)
      ensures Landing(w, v, cs + [c])
    {
    }

    // Contexts halfway through the final loop: a replacement becomes ordinary when its partner goes.
    ghost predicate Settled(w: World, gone: set<ChanCtx>)
      reads w.list
    {
      forall c | c in w.list && c in w.ctx :: CtxV(c.replaceState, c.replaceCtx) == SettledV(w.ctx[c], gone)
    }

    ghost function SettledV(v: CtxV, gone: set<ChanCtx>): CtxV {
      if v.state == REPLACES_OTHER && v.partner in gone then CtxV(NONE, null) else v
    }

    // The contexts among cs that go away.
    ghost function Gone(w: World, cs: seq<ChanCtx>): set<ChanCtx> {
      set c | c in cs && IsState(w, c, WILL_BE_REPLACED)
    }

    /** Free the replaced contexts (mac80211/chan.c:1933-1943). */
    method FreeReplaced(ghost w: World)
      requires w.list == list && Distinct(list) && AllPaired(w) && Settled(w, {}) && w.ctx.Keys == set c | c in list
      modifies this`list, list`replaceState, list`replaceCtx
      ensures list == Except(w.list, Leaving(w))
      ensures forall c | c in list :: c.replaceState == NONE && c.replaceCtx == null
    {
      var order := list;
      ExceptNothing(order);
      assert Gone(w, order[..0]) == {};
      hide *;
      for i := 0 to |order|
        invariant list == Except(order, Gone(w, order[..i])) && Settled(w, Gone(w, order[..i]))
      {
        ListStep(w, i);
        FreeNext(w, order[..i], order[i]);
      }
      ListEnd(w);
      ExceptMembers(order, Leaving(w));
      AllSettled(w);
    }

    lemma ListStep(w: World, i: nat)
      requires Distinct(w.list) && i < |w.list|
      ensures w.list[i] in w.list && w.list[i] !in w.list[..i] && w.list[..i + 1] == w.list[..i] + [w.list[i]]
    {
    }

    lemma ListEnd(w: World)
      requires w.ctx.Keys == set c | c in w.list
      ensures Gone(w, w.list[..|w.list|]) == Leaving(w)
    {
      assert w.list[..|w.list|] == w.list;
    }

    lemma AllSettled(w: World)
      requires Settled(w, Leaving(w)) && AllPaired(w) && forall c | c in w.list :: c in w.ctx
      ensures forall c | c in w.list && c !in Leaving(w) :: c.replaceState == NONE && c.replaceCtx == null
    {
      forall c | c in w.list && c !in Leaving(w)
        ensures c.replaceState == NONE && c.replaceCtx == null
      {
        assert PairedAt(w, c) && CtxV(c.replaceState, c.replaceCtx) == SettledV(w.ctx[c], Leaving(w));
      }
    }

    // One round of the loop.
    method FreeNext(ghost w: World, ghost cs: seq<ChanCtx>, c: ChanCtx)
      requires c in w.list && c !in cs && w.ctx.Keys == (set d | d in w.list) && AllPaired(w)
      requires list == Except(w.list, Gone(w, cs)) && Settled(w, Gone(w, cs))
      modifies this`list, w.list`replaceState, w.list`replaceCtx
      ensures list == Except(w.list, Gone(w, cs + [c])) && Settled(w, Gone(w, cs + [c]))
    {
      ghost var gone := Gone(w, cs);
      assert CtxV(c.replaceState, c.replaceCtx) == SettledV(w.ctx[c], gone) && PairedAt(w, c);
      if c.replaceState == WILL_BE_REPLACED {
        assert Gone(w, cs + [c]) == gone + {c};
        ExceptOneMore(w.list, gone, c);
        forall d | d in w.list
          ensures SettledV(w.ctx[d], gone + {c}) == if d == c.replaceCtx then CtxV(NONE, null) else SettledV(w.ctx[d], gone)
        {
          assert PairedAt(w, d);
        }
        hide Except, Gone, SettledV, AllPaired;
        FreeOne(c);
      } else {
        assert Gone(w, cs + [c]) == gone;
      }
    }

    method FreeOne(c: ChanCtx)
      requires c.replaceCtx != null && c.replaceCtx != c
      modifies this`list, c.replaceCtx`replaceState, c.replaceCtx`replaceCtx
      ensures c.replaceCtx == old(c.replaceCtx) && c.replaceState == old(c.replaceState)
      ensures c.replaceCtx.replaceState == NONE && c.replaceCtx.replaceCtx == null
      ensures list == Without(old(list), c)
    {
      c.replaceCtx.replaceCtx := null;
      c.replaceCtx.replaceState := NONE;
      list := Without(list, c);
    }

    // ---------- the invariant, read from the value ----------

    lemma ListedView()
      ensures NoDangling() <==> AllListed(View())
    {
      Records();
      hide View;
    }

    lemma PairedView()
      ensures Pairing() <==> AllPaired(View())
    {
      Records();
      hide View;
      forall c | c in list
        ensures Paired(c) <==> PairedAt(View(), c)
      {
      }
    }

    lemma PlacedView()
      requires NoDangling()
      ensures Placed() <==> AllPlaced(View())
    {
      Records();
      hide View;
      forall l | l in ifs.users
        ensures l.chanctx != null ==> l.chanctx in list
        ensures l.reservedChanctx != null ==> l.reservedChanctx in list
      {
      }
    }

    lemma UsesView()
      ensures (forall c | c in list :: Used(c)) <==> AllUsed(View())
    {
      Records();
      forall c | c in list
        ensures Used(c) <==> Uses(View().link, c)
      {
        UsedView(c);
      }
      hide View, Used, Uses;
    }

    lemma InvView()
      ensures Inv() <==> ifs.Valid() && Sound(View()) && forall c | c in list :: !c.willBeUsed
    {
      Records();
      ListedView();
      PairedView();
      UsesView();
      if NoDangling() { PlacedView(); }
      hide View, AllListed, AllPaired, AllUsed, AllPlaced, NoDangling, Pairing, Placed, Used;
    }

    // ---------- committing ----------

    lemma OrdinaryView()
      requires forall c | c in list :: c.replaceState == NONE && c.replaceCtx == null
      ensures OnlyOrdinary(View())
    {
      Records();
      hide View;
    }

    /** Point of no return: move all links, free the replaced contexts. */
    method CommitSwitch()
      requires Inv() && Anchored(View()) && SourcesReserved(View())
      modifies this`list, list`replaceState, list`replaceCtx
      modifies ifs.users`chanctx, ifs.users`chanreq, ifs.users`radarRequired, ifs.users`reservedChanctx
      ensures Swap(old(View()), View())
      ensures Inv() <==> old(SourcesMove(View()))
    {
      ghost var w := View();
      InvView();
      Records();
      hide View, Sound, Anchored, SourcesReserved, SourcesMove, Swap, Inv;
      assert forall c | c in list :: !c.willBeUsed;
      MoveAndFree();
      InvView();
      Records();
      SwapSound(w, View());
    }

    method MoveAndFree()
      requires Inv() && Sound(View()) && Anchored(View())
      modifies this`list, list`replaceState, list`replaceCtx
      modifies ifs.users`chanctx, ifs.users`chanreq, ifs.users`radarRequired, ifs.users`reservedChanctx
      ensures Swap(old(View()), View()) && forall c | c in list :: c in old(list)
    {
      ghost var w := View();
      assert w.list == list && Distinct(list) && AllPaired(w);
      assert ifs.Valid();
      hide *;
      MoveAll();
      ghost var v := View();
      assert v.ctx == w.ctx by { assert Landing(w, v, list); LandingKeeps(w, v, list); }
      FreeAll(w);
      LandedAll(w, v, View());
      ExceptMembers(w.list, Leaving(w));
    }

    lemma LandingKeeps(w: World, v: World, cs: seq<ChanCtx>)
      requires Landing(w, v, cs)
      ensures v.ctx == w.ctx
    {
    }

    lemma LinkView(x: map<Link, LinkV>)
      requires x.Keys == ifs.users && forall l | l in x :: x[l] == Record(l)
      ensures View().link == x
    {
    }

    // The end of the switch, and what it leaves of the value.
    method FreeAll(ghost w: World)
      requires w.list == list && Distinct(list) && AllPaired(w) && w.ctx == View().ctx
      modifies this`list, list`replaceState, list`replaceCtx
      ensures View().list == list == Except(w.list, Leaving(w)) && OnlyOrdinary(View())
      ensures View().link == old(View()).link
    {
      Records();
      ghost var x := View().link;
      assert forall l | l in x :: x[l] == Record(l);
      assert Settled(w, {});
      hide View, Except, AllPaired, Record, Settled;
      FreeReplaced(w);
      OrdinaryView();
      LinkView(x);
      Records();
    }

    twostate lemma AbandonedIsUnwound()
      requires old(Inv()) && Abandoned()
      requires forall l | l in ifs.users :: l.chanreq == old(l.chanreq) && l.radarRequired == old(l.radarRequired)
                 && l.reservedReq == old(l.reservedReq) && l.reservedRadar == old(l.reservedRadar) && l.reservedReady == old(l.reservedReady)
      ensures Unwound(old(View()), View())
    {
    }

    // A context that was a replacement still is one by its own record, even when it has been freed.
    ghost predicate StillMarked(w: World)
      reads w.list`replaceState
    {
      forall c | c in w.list && IsState(w, c, REPLACES_OTHER) :: c.replaceState == REPLACES_OTHER
    }

    method Unwind()
      requires Inv()
      modifies this`list, ifs.users`reservedChanctx, list`replaceState, list`replaceCtx
      ensures Inv() && Unwound(old(View()), View()) && StillMarked(old(View()))
    {
      ghost var w := View();
      Records();
      assert forall c | c in w.list && IsState(w, c, REPLACES_OTHER) :: c.replaceState == REPLACES_OTHER;
      Abandon();
      AbandonedIsUnwound();
      hide View, Inv, Unwound, Abandoned;
    }

    method Resolve(ret: int, ghost w: World, ghost drvErr: int, ghost ctxErr: int)
      requires Inv() && w == View() && ret == Decision(w, drvErr, ctxErr) && ListVerdict(w, w.list) != Defer
      requires ret == 0 ==> Anchored(w) && ListVerdict(w, w.list) == Go
      modifies this`list, list`replaceState, list`replaceCtx
      modifies ifs.users`chanctx, ifs.users`chanreq, ifs.users`radarRequired, ifs.users`reservedChanctx
      ensures AfterSwitch(w, drvErr, ctxErr, View()) && forall c | c in list :: c in old(list)
      ensures ret != 0 ==> Inv() && StillMarked(w)
      ensures ret == 0 ==> (Inv() <==> SourcesMove(w))
    {
      Records();
      InvView();
      if ret == 0 { GoMeansSourcesReserved(w); }
      hide *;
      if ret != 0 {
        Unwind();
      } else {
        CommitSwitch();
      }
      Records();
      Resolves(w, drvErr, ctxErr, View());
      SwitchAddsNothing(w, drvErr, ctxErr, View());
    }

    /** ieee80211_vif_use_reserved_switch: wait, unwind every pair, or swap them all.  Nothing is asked
        for a wait or a failure; to go ahead, every replacement needs a reserver that keeps it. */
    method UseReservedSwitch(drvErr: int, ctxErr: int) returns (ret: int)
      requires Inv() && (Decision(View(), drvErr, ctxErr) == 0 ==> Anchored(View()))
      modifies this`list, list`replaceState, list`replaceCtx
      modifies ifs.users`chanctx, ifs.users`chanreq, ifs.users`radarRequired, ifs.users`reservedChanctx
      ensures SwitchLaw(old(View()), drvErr, ctxErr, ret, View())
      ensures ret == Decision(old(View()), drvErr, ctxErr) && AfterSwitch(old(View()), drvErr, ctxErr, View())
      ensures ret != 0 ==> Inv() && (ListVerdict(old(View()), old(list)) != Defer ==> StillMarked(old(View())))
      ensures ret == 0 ==> (Inv() <==> SourcesMove(old(View())))
      ensures forall c | c in list :: c in old(list)
    {
      Records();
      InvView();
      ghost var w := View();
      hide *;
      OnlyGoSwaps(w, drvErr, ctxErr);
      var defer;
      ret, defer := Decide(drvErr, ctxErr);
      if defer {
        Waits(w, drvErr, ctxErr);
      } else {
        Resolve(ret, w, drvErr, ctxErr);
      }
      SwitchObeys(w, drvErr, ctxErr, View());
    }

    // ---------- release and use ----------

    /** The retry at the end of a release. */
    method Retry(drvErr: int, ctxErr: int)
      requires Inv() && Switchable(View(), drvErr, ctxErr)
      modifies this`list, list`replaceState, list`replaceCtx
      modifies ifs.users`chanctx, ifs.users`chanreq, ifs.users`radarRequired, ifs.users`reservedChanctx
      ensures Inv() && AfterSwitch(old(View()), drvErr, ctxErr, View())
      ensures forall c | c in list :: c in old(list)
    {
      hide View, Inv, Decision, Anchored, SourcesMove, AfterSwitch, ListVerdict, StillMarked;
      var r := UseReservedSwitch(drvErr, ctxErr);
    }

    /** __ieee80211_link_release_channel: for every answer of the driver, and nothing else is touched
        than what the release and the retried switch say. */
    method Release(link: Link, drvErr: int, ctxErr: int)
      requires Inv() && link in ifs.users && link in View().link && CanRelease(View(), link, drvErr, ctxErr)
      modifies this`list, list`replaceState, list`replaceCtx
      modifies ifs.users`chanctx, ifs.users`chanreq, ifs.users`radarRequired, ifs.users`reservedChanctx
      ensures Inv() && ReleaseLaw(old(View()), link, drvErr, ctxErr, View())
      ensures AfterRelease(old(View()), link, drvErr, ctxErr, View())
      ensures forall c | c in list :: c in old(list)
    {
      OrphansView(link);
      Records();
      InvView();
      ghost var w := View();
      assert w.link[link].chanctx == link.chanctx;
      hide View, Inv, Strands, Stranding, Shares, Released, Switchable, AfterSwitch, Record, Sound, ReleaseLaw;
      var retry := ReleaseLink(link);
      if retry {
        forall k | 0 <= k < |list|
          ensures list[k] in old(list)
        {
          assert list[k] in list;
        }
        Retry(drvErr, ctxErr);
      }
      if w.link[link].chanctx != null { ReleasedSound(w, link); }
      ReleaseObeys(w, link, drvErr, ctxErr, View());
    }

    // Marking a link ready.
    method MarkReady(link: Link)
      requires Inv() && link in ifs.users
      modifies link`reservedReady
      ensures Inv() && link.reservedReady && View() == Readied(old(View()), link)
    {
      link.reservedReady := true;
      SameState();
      ReadiedView(link);
    }

    twostate lemma ReadiedView(link: Link)
      requires link in ifs.users && list == old(list) && Kept(null, old(list)) && SameLinks(null) && SameFields(link)
      requires link.chanreq == old(link.chanreq) && link.radarRequired == old(link.radarRequired) && link.reservedReady
      requires link.reservedReq == old(link.reservedReq) && link.reservedRadar == old(link.reservedRadar)
      ensures View() == Readied(old(View()), link)
    {
      KeptView();
      OneLinkChanged(link);
      assert Record(link) == old(View()).link[link].(ready := true);
    }

    // The answer for a ready reservation of an ordinary context, in the world w.
    ghost predicate OrdinaryOutcome(w: World, link: Link, compat: bool, drvErr: int, ret: int)
      requires link in w.link && w.link[link].reserved != null
      reads this, list, ifs.users
    {
      && ret == (if compat then drvErr else EINVAL)
      && View() == Moved(w, link, compat, drvErr)
      && (Inv() <==> !(ret == 0 && Orphans(w, link)))
    }

    // A ready reservation of an ordinary context.
    method UseOrdinary(link: Link, compat: bool, drvErr: int, ghost w: World) returns (ret: int)
      requires Inv() && link in ifs.users && link.reservedReady
      requires link.reservedChanctx != null && link.reservedChanctx.replaceState == NONE && w == View()
      requires link in w.link && w.link[link].reserved != null
      modifies this`list, link`chanctx, link`chanreq, link`radarRequired, link`reservedChanctx
      ensures OrdinaryOutcome(w, link, compat, drvErr, ret)
      ensures forall d | d in list :: d in old(list)
    {
      OrphansView(link);
      Records();
      hide View, Inv, Orphans, Orphaning;
      if link.chanctx != null {
        ret := UseReservedReassign(link, compat, drvErr);
      } else {
        ret := UseReservedAssign(link, compat, drvErr);
      }
    }

    // A ready reservation of a replacement.
    method UseReplacement(link: Link, drvErr: int, ctxErr: int) returns (ret: int)
      requires Inv() && link in ifs.users && Switchable(View(), drvErr, ctxErr)
      requires link.reservedChanctx != null && link.reservedChanctx.replaceState == REPLACES_OTHER
      modifies this`list, list`replaceState, list`replaceCtx
      modifies ifs.users`chanctx, ifs.users`chanreq, ifs.users`radarRequired, ifs.users`reservedChanctx
      ensures Inv() && ret == Told(Decision(old(View()), drvErr, ctxErr))
      ensures AfterSwitch(old(View()), drvErr, ctxErr, View())
      ensures forall d | d in list :: d in old(list)
    {
      Records();
      ghost var w := View();
      var new_, old_ := link.reservedChanctx, link.chanctx;
      assert new_ in w.list && IsState(w, new_, REPLACES_OTHER);
      if ListVerdict(w, w.list) == Defer { Waits(w, drvErr, ctxErr); }
      hide View, Inv, Decision, AfterSwitch, ListVerdict, Anchored, SourcesMove;
      ret := 0;
      var leaves := old_ != null && old_.replaceState == WILL_BE_REPLACED;
      var comes := new_.replaceState == REPLACES_OTHER;
      if leaves || comes {
        var err := UseReservedSwitch(drvErr, ctxErr);
        if err != 0 && err != EAGAIN {
          if new_.replaceState == REPLACES_OTHER { ret := err; }
        }
      }
    }

    /** ieee80211_link_use_reserved_context: the link is ready; use its reservation, now or with the
        last link of the swap. */
    method UseReservedContext(link: Link, compat: bool, drvErr: int, ctxErr: int) returns (ret: int)
      requires Inv() && link in ifs.users && link in View().link && CanUse(View(), link, drvErr, ctxErr)
      modifies this`list, list`replaceState, list`replaceCtx, link`reservedReady
      modifies ifs.users`chanctx, ifs.users`chanreq, ifs.users`radarRequired, ifs.users`reservedChanctx
      ensures UseLaw(old(View()), link, compat, drvErr, ctxErr, ret, View())
      ensures Inv() <==> !(Frees(old(View()), link, compat) && ret == 0)
      ensures forall d | d in list :: d in old(list)
    {
      InvView();
      ghost var w := View();
      hide *;
      ret := UseNow(link, compat, drvErr, ctxErr);
      UseObeys(w, link, compat, drvErr, ctxErr, ret, View());
    }

    // The step in terms of what it calls.
    method UseNow(link: Link, compat: bool, drvErr: int, ctxErr: int) returns (ret: int)
      requires Inv() && link in ifs.users && link in View().link && CanUse(View(), link, drvErr, ctxErr)
      modifies this`list, list`replaceState, list`replaceCtx, link`reservedReady
      modifies ifs.users`chanctx, ifs.users`chanreq, ifs.users`radarRequired, ifs.users`reservedChanctx
      ensures UseOf(old(View()), link, compat, drvErr, ctxErr, ret, View())
      ensures Inv() <==> !(Frees(old(View()), link, compat) && ret == 0)
      ensures forall d | d in list :: d in old(list)
    {
      ghost var w := View();
      Reservation(link);
      hide *;
      if link.reservedChanctx == null || link.reservedChanctx.replaceState == WILL_BE_REPLACED || link.reservedReady {
        RefusedUse(w, link, compat, drvErr, ctxErr);
        return EINVAL;
      }
      ReadyOrphans(w, link);
      StaysReserved(w, link);
      MarkReady(link);
      if link.reservedChanctx.replaceState == NONE {
        ret := UseOrdinary(link, compat, drvErr, View());
        UsedOrdinary(w, link, compat, drvErr, ctxErr, ret);
      } else {
        UsesReplacement(w, link, drvErr, ctxErr);
        ret := UseReplacement(link, drvErr, ctxErr);
        UsedReplacement(w, link, compat, drvErr, ctxErr, ret, View());
      }
    }

    lemma StaysReserved(w: World, link: Link)
      requires link in w.link && w.link[link].reserved != null
      ensures link in Readied(w, link).link && Readied(w, link).link[link].reserved != null
    {
    }

    lemma UsedOrdinary(w: World, link: Link, compat: bool, drvErr: int, ctxErr: int, ret: int)
      requires link in w.link && link in Readied(w, link).link && Readied(w, link).link[link].reserved != null
      requires OrdinaryOutcome(Readied(w, link), link, compat, drvErr, ret)
      requires IsState(w, w.link[link].reserved, NONE) && !w.link[link].ready && Orphans(Readied(w, link), link) == Orphans(w, link)
      ensures UseOf(w, link, compat, drvErr, ctxErr, ret, View()) && (Inv() <==> !(Frees(w, link, compat) && ret == 0))
    {
      hide Moved, Orphans;
    }

    // The reservation of a link, read from the value.
    lemma Reservation(link: Link)
      requires Inv() && link in ifs.users
      ensures link in View().link && View().link[link].reserved == link.reservedChanctx && View().link[link].ready == link.reservedReady
      ensures link.reservedChanctx != null ==> forall s :: IsState(View(), link.reservedChanctx, s) <==> link.reservedChanctx.replaceState == s
    {
      Records();
    }

    // Contexts a link may be put on directly.
    ghost predicate Findable(c: ChanCtx, fits: ChanCtx -> bool)
      reads c`replaceState
    {
      c.replaceState == NONE && c.mode != EXCLUSIVE && fits(c)
    }

    ghost predicate First(cs: seq<ChanCtx>, c: ChanCtx, fits: ChanCtx -> bool)
      reads cs`replaceState
    {
      exists i :: 0 <= i < |cs| && cs[i] == c && Findable(c, fits) && forall j | 0 <= j < i :: !Findable(cs[j], fits)
    }

    ghost predicate AnyFindable(mode: Mode, fits: ChanCtx -> bool)
      reads this`list, list`replaceState
    {
      mode != EXCLUSIVE && exists c :: c in list && Findable(c, fits)
    }

    /** ieee80211_find_chanctx: the first ordinary shared compatible context, marked as about to be
        used so that it cannot go away before the link is on it. */
    method FindChanctx(mode: Mode, fits: ChanCtx -> bool) returns (ctx: ChanCtx?)
      modifies list`willBeUsed
      ensures ctx == null <==> mode == EXCLUSIVE || forall c | c in list :: !Findable(c, fits)
      ensures ctx != null ==> First(list, ctx, fits)
      ensures forall c | c in list :: c.willBeUsed == (c == ctx || old(c.willBeUsed))
    {
      ctx := null;
      if mode == EXCLUSIVE { return; }
      for i := 0 to |list|
        invariant forall j | 0 <= j < i :: !Findable(list[j], fits)
        invariant forall c | c in list :: c.willBeUsed == old(c.willBeUsed)
      {
        var c := list[i];
        if c.replaceState != NONE { continue; }
        if c.mode == EXCLUSIVE { continue; }
        if !fits(c) { continue; }
        c.willBeUsed := true;
        assert c in list && Findable(c, fits);
        return c;
      }
    }

    // A link without a context is put on the ordinary context c, listed or new.
    twostate predicate Enters(link: Link, new c: ChanCtx)
      reads *
    {
      && SameLinks(link) && link.chanctx == c && link.reservedChanctx == old(link.reservedChanctx)
      && Kept(null, old(list))
      && c.replaceState == NONE && c.replaceCtx == null && !c.willBeUsed
      && list == if c in old(list) then old(list) else [c] + old(list)
    }

    twostate lemma EntersInv(link: Link, new c: ChanCtx)
      requires old(Inv()) && link in ifs.users && old(link.chanctx) == null && Enters(link, c)
      ensures Inv()
    {
      forall d | d in list
        ensures Used(d)
      {
        if d in old(list) {
          assert old(Used(d));
          var m :| m in ifs.users && old(m.chanctx == d || m.reservedChanctx == d);
          assert m.chanctx == d || m.reservedChanctx == d;
        }
      }
      forall d | d in list
        ensures Paired(d)
      {
        if d in old(list) { assert old(Paired(d)); }
      }
    }

    /** ieee80211_find_or_create_chanctx.  `radio` says whether a radio is free for a new context,
        `addErr` is the driver's answer to adding it. */
    method FindOrCreate(mode: Mode, fits: ChanCtx -> bool, radio: bool, addErr: int)
        returns (ret: int, ctx: ChanCtx?, reused: bool)
      modifies this`list, list`willBeUsed
      ensures ret == if reused then 0 else if !radio then EBUSY else addErr
      ensures reused <==> old(AnyFindable(mode, fits))
      ensures ret == 0 <==> ctx != null
      ensures reused ==> ctx in list && First(list, ctx, fits) && ctx.willBeUsed
      ensures ctx != null && !reused ==>
                && fresh(ctx) && list == [ctx] + old(list) && ctx.mode == mode
                && ctx.replaceState == NONE && ctx.replaceCtx == null && !ctx.willBeUsed
      ensures ctx == null || reused ==> list == old(list)
      ensures forall c | c in old(list) :: c.willBeUsed == (c == ctx || old(c.willBeUsed))
    {
      ret := 0;
      ctx := FindChanctx(mode, fits);
      reused := ctx != null;
      if !reused {
        if !radio { ret := EBUSY; return; }
        if addErr != 0 { ret := addErr; return; }
        ctx := new ChanCtx(mode);
        list := [ctx] + list;
      }
    }

    /** Put the link on ctx, or free ctx again if that fails and nobody uses it. */
    method PutOn(link: Link, req: ChanReq, ctx: ChanCtx, reused: bool, drvErr: int) returns (ret: int)
      requires ifs.Valid() && link in ifs.users && link.chanctx == null
      requires if reused then ctx in list && ctx.willBeUsed && Used(ctx)
               else list != [] && list[0] == ctx && ctx !in list[1..] && !ctx.willBeUsed && !Used(ctx)
      modifies this`list, link`chanctx, link`chanreq, ctx`willBeUsed
      ensures ret == drvErr && !ctx.willBeUsed && link.chanreq == req
      ensures link.chanctx == if ret == 0 then ctx else null
      ensures list == if ret == 0 || reused then old(list) else old(list)[1..]
    {
      link.chanreq := req;
      ret := AssignLinkChanctx(link, ctx, drvErr);
      if reused {
        ctx.willBeUsed := false;
      }
      if ret != 0 {
        var n := ifs.Refcount(ctx);
        if n == 0 {
          WithoutAbsent(list[1..], ctx);
          assert list == [ctx] + list[1..];
          list := Without(list, ctx);
        }
      }
    }

    // Unpaired and not marked.
    ghost predicate Ordinary(c: ChanCtx)
      reads c
    {
      c.replaceState == NONE && c.replaceCtx == null && !c.willBeUsed
    }

    // Find or create a context and try to put the link on it.
    method Seat(link: Link, req: ChanReq, mode: Mode, fits: ChanCtx -> bool, radio: bool, addErr: int, drvErr: int)
        returns (ret: int, ghost reused: bool)
      requires Inv() && link in ifs.users && link.chanctx == null
      modifies this`list, link`chanctx, link`chanreq, list`willBeUsed
      ensures reused == old(AnyFindable(mode, fits))
      ensures ret == if reused then drvErr else if !radio then EBUSY else if addErr != 0 then addErr else drvErr
      ensures forall d | d in old(list) :: d.willBeUsed == old(d.willBeUsed)
      ensures ret == 0 ==> link.chanctx != null && link.chanreq == req && Ordinary(link.chanctx)
      ensures ret == 0 ==> if reused then link.chanctx in old(list) && list == old(list) && First(old(list), link.chanctx, fits)
                           else fresh(link.chanctx) && link.chanctx.mode == mode && list == [link.chanctx] + old(list)
      ensures ret != 0 ==> list == old(list) && link.chanctx == null
      ensures link.chanreq == if reused || (radio && addErr == 0) then req else old(link.chanreq)
    {
      var ctx, found;
      ret, ctx, found := FindOrCreate(mode, fits, radio, addErr);
      reused := found;
      if ctx != null {
        assert found ==> old(Used(ctx)) && !old(ctx.willBeUsed) && old(Paired(ctx));
        assert forall d | d in old(list) && d != ctx :: d.willBeUsed == old(d.willBeUsed);
        hide Used, Paired;
        ret := PutOn(link, req, ctx, found, drvErr);
      }
    }

    // ---------- taking a channel, as values ----------

    twostate lemma EntersView(link: Link, new c: ChanCtx)
      requires link in ifs.users && Enters(link, c) && SameFields(link)
      ensures var w := old(View());
              View() == World(if c in w.list then w.list else [c] + w.list, w.ctx[c := CtxV(NONE, null)], w.link[link := Record(link)])
    {
      OneLinkChanged(link);
      Records();
      var x := old(View()).ctx;
      assert forall d | d in old(list) :: x[d] == CtxV(old(d.replaceState), old(d.replaceCtx));
      assert old(View()).list == old(list) && forall d :: d in x <==> d in old(list);
      var x' := View().ctx;
      assert forall d :: d in x' <==> d in x || d == c;
      hide View;
      EnteredRecords(x, x', c);
    }

    lemma EnteredRecords(x: map<ChanCtx, CtxV>, x': map<ChanCtx, CtxV>, c: ChanCtx)
      requires forall d :: d in x' <==> d in x || d == c
      requires forall d | d in x' :: x'[d] == if d == c then CtxV(NONE, null) else x[d]
      ensures x' == x[c := CtxV(NONE, null)]
    {
    }

    twostate lemma OnlyFieldsView(link: Link)
      requires link in ifs.users && list == old(list) && Kept(null, old(list)) && SameLinks(link) && SameFields(link)
      ensures View() == With(old(View()), link, Record(link))
    {
      KeptView();
      OneLinkChanged(link);
    }

    // Contexts found in a list are the same whether read from the objects or from the value.
    lemma FindableView(mode: Mode, fits: ChanCtx -> bool)
      ensures AnyFindable(mode, fits) <==> Findables(View(), mode, fits)
    {
      Records();
      hide View;
      forall c | c in list
        ensures Findable(c, fits) <==> CanTake(View(), c, fits)
      {
      }
    }

    lemma FirstView(w: World, c: ChanCtx, fits: ChanCtx -> bool)
      requires First(w.list, c, fits) && forall d | d in w.list :: d in w.ctx && w.ctx[d].state == d.replaceState
      ensures FirstFindable(w, c, fits)
    {
      assert forall i | 0 <= i < |w.list| :: w.list[i] in w.list;
    }

    /** The part of _ieee80211_link_use_channel after the release. */
    method TakeChannel(link: Link, req: ChanReq, mode: Mode, fits: ChanCtx -> bool, radio: bool, addErr: int, drvErr: int)
        returns (ret: int, ghost reused: bool)
      requires Inv() && link in ifs.users && link.chanctx == null && link in View().link
      modifies this`list, link`chanctx, link`chanreq, list`willBeUsed
      ensures Inv() && forall c | c in list :: c in old(list) || fresh(c)
      ensures Took(old(View()), link, req, mode, fits, radio, addErr, drvErr, reused, ret, link.chanctx, View())
      ensures ret == 0 && !reused ==> link.chanctx != null && fresh(link.chanctx)
    {
      FindableView(mode, fits);
      Records();
      ghost var w, was := View(), Record(link);
      hide View, AnyFindable, Findables, FirstFindable, First, Inv, AfterTake, Took;
      assert forall d | d in w.list :: d in w.ctx && w.ctx[d].state == d.replaceState;
      ret, reused := Seated(link, req, mode, fits, radio, addErr, drvErr);
      if ret == 0 && reused { FirstView(w, link.chanctx, fits); }
      TookThis(w, link, req, mode, fits, radio, addErr, drvErr, reused, ret, link.chanctx, View());
    }

    // The pieces of the outcome.
    lemma TookThis(w: World, l: Link, req: ChanReq, mode: Mode, fits: ChanCtx -> bool, radio: bool, addErr: int, drvErr: int,
                   reused: bool, ret: int, c: ChanCtx?, w': World)
      requires l in w.link && reused == Findables(w, mode, fits) && ret == TakeAnswer(reused, radio, addErr, drvErr)
      requires ret == 0 ==> c != null && AfterTake(w, l, req, c, w')
      requires ret == 0 ==> if reused then FirstFindable(w, c, fits) else c !in w.list && c.mode == mode
      requires ret != 0 ==> w' == With(w, l, w.link[l].(chanreq := if reused || (radio && addErr == 0) then req else w.link[l].chanreq))
      ensures Took(w, l, req, mode, fits, radio, addErr, drvErr, reused, ret, c, w')
    {
      assert w.link[l := w.link[l]] == w.link;
    }

    // Take a seat, and what it leaves as a value.
    method Seated(link: Link, req: ChanReq, mode: Mode, fits: ChanCtx -> bool, radio: bool, addErr: int, drvErr: int)
        returns (ret: int, ghost reused: bool)
      requires Inv() && link in ifs.users && link.chanctx == null
      modifies this`list, link`chanctx, link`chanreq, list`willBeUsed
      ensures Inv() && forall c | c in list :: c in old(list) || fresh(c)
      ensures reused == old(AnyFindable(mode, fits)) && ret == TakeAnswer(reused, radio, addErr, drvErr)
      ensures link in old(View()).link
      ensures ret != 0 ==> View() == With(old(View()), link, old(View()).link[link].(chanreq := if reused || (radio && addErr == 0) then req else old(View()).link[link].chanreq))
      ensures ret == 0 ==> link.chanctx != null && AfterTake(old(View()), link, req, link.chanctx, View())
      ensures ret == 0 ==> if reused then First(old(list), link.chanctx, fits) else fresh(link.chanctx) && link.chanctx.mode == mode
    {
      hide First, AnyFindable;
      ret, reused := Seat(link, req, mode, fits, radio, addErr, drvErr);
      if ret != 0 { StayedOut(link, link.chanreq); } else { GotIn(link, req); }
    }

    twostate lemma StayedOut(link: Link, new req: ChanReq)
      requires old(Inv()) && link in ifs.users && old(link.chanctx) == null && link.chanctx == null
      requires list == old(list) && Kept(null, old(list)) && SameLinks(link) && SameFields(link)
      requires link.reservedChanctx == old(link.reservedChanctx) && link.chanreq == req && link.radarRequired == old(link.radarRequired)
      requires link.reservedReq == old(link.reservedReq) && link.reservedRadar == old(link.reservedRadar) && link.reservedReady == old(link.reservedReady)
      ensures Inv() && link in old(View()).link && old(View()).link[link].chanreq == old(link.chanreq)
      ensures View() == With(old(View()), link, old(View()).link[link].(chanreq := req))
    {
      SameState();
      OnlyFieldsView(link);
      assert Record(link) == old(View()).link[link].(chanreq := req);
    }

    twostate lemma GotIn(link: Link, new req: ChanReq)
      requires old(Inv()) && link in ifs.users && old(link.chanctx) == null && link.chanctx != null
      requires Enters(link, link.chanctx) && SameFields(link) && link.chanreq == req && link.radarRequired == old(link.radarRequired)
      requires link.reservedReq == old(link.reservedReq) && link.reservedRadar == old(link.reservedRadar) && link.reservedReady == old(link.reservedReady)
      ensures Inv() && link in old(View()).link
      ensures AfterTake(old(View()), link, req, link.chanctx, View())
    {
      EntersInv(link, link.chanctx);
      EntersView(link, link.chanctx);
      assert Record(link) == old(View()).link[link].(chanctx := link.chanctx, chanreq := req);
    }

    method SetRadar(link: Link, radar: bool)
      requires Inv() && link in ifs.users && link in View().link
      modifies link`radarRequired
      ensures Inv() && link in View().link && View() == Radar(old(View()), link, radar)
    {
      link.radarRequired := radar;
      FieldsChanged(link, link.chanreq, radar);
    }

    twostate lemma FieldsChanged(link: Link, new req: ChanReq, new radar: bool)
      requires old(Inv()) && link in ifs.users && list == old(list) && Kept(null, old(list)) && SameLinks(null) && SameFields(link)
      requires link.chanreq == req && link.radarRequired == radar
      requires link.reservedReq == old(link.reservedReq) && link.reservedRadar == old(link.reservedRadar) && link.reservedReady == old(link.reservedReady)
      ensures Inv() && link in View().link && link in old(View()).link
      ensures View() == With(old(View()), link, old(View()).link[link].(chanreq := req, radar := radar))
      ensures old(View()).link[link].chanreq == old(link.chanreq) && old(View()).link[link].radar == old(link.radarRequired)
    {
      SameState();
      OnlyFieldsView(link);
      assert Record(link) == old(View()).link[link].(chanreq := req, radar := radar);
    }

    // Give up the old context, then take a new one; `mid` is the state in between.
    method Retake(link: Link, req: ChanReq, mode: Mode, fits: ChanCtx -> bool,
                  radio: bool, addErr: int, drvErr: int, relDrvErr: int, relCtxErr: int)
        returns (ret: int, ghost reused: bool, ghost mid: World)
      requires Inv() && link in ifs.users && link in View().link && CanRelease(View(), link, relDrvErr, relCtxErr)
      modifies this`list, list`replaceState, list`replaceCtx, list`willBeUsed
      modifies ifs.users`chanctx, ifs.users`chanreq, ifs.users`radarRequired, ifs.users`reservedChanctx
      ensures Inv() && link in mid.link && AfterRelease(old(View()), link, relDrvErr, relCtxErr, mid)
      ensures ReleaseLaw(old(View()), link, relDrvErr, relCtxErr, mid)
      ensures forall c | c in list :: c in old(list) || fresh(c)
      ensures Took(mid, link, req, mode, fits, radio, addErr, drvErr, reused, ret, link.chanctx, View())
      ensures ret == 0 && !reused ==> link.chanctx != null && fresh(link.chanctx)
    {
      hide *;
      GiveUp(link, relDrvErr, relCtxErr);
      mid := View();
      ret, reused := TakeChannel(link, req, mode, fits, radio, addErr, drvErr);
    }

    // A release, and what it means for the link.
    method GiveUp(link: Link, drvErr: int, ctxErr: int)
      requires Inv() && link in ifs.users && link in View().link && CanRelease(View(), link, drvErr, ctxErr)
      modifies this`list, list`replaceState, list`replaceCtx
      modifies ifs.users`chanctx, ifs.users`chanreq, ifs.users`radarRequired, ifs.users`reservedChanctx
      ensures Inv() && AfterRelease(old(View()), link, drvErr, ctxErr, View())
      ensures ReleaseLaw(old(View()), link, drvErr, ctxErr, View())
      ensures link.chanctx == null && link in View().link
      ensures forall k | 0 <= k < |list| :: list[k] in old(list)
    {
      hide *;
      ghost var w := View();
      Release(link, drvErr, ctxErr);
      Vacates(w, link, drvErr, ctxErr, View());
      ReleasedLink(link);
      assert forall k | 0 <= k < |list| :: list[k] in list;
    }

    // The state that the release left, read from the link.
    lemma ReleasedLink(link: Link)
      requires link in ifs.users && link in View().link && View().link[link].chanctx == null
      ensures link.chanctx == null
    {
    }

    /** _ieee80211_link_use_channel.  `dfs` is the answer to the radar question (negative: error,
        positive: detection needed), `combo` that of the interface-combination check.  `mid` is the
        state after the release: a link that gives up a context there also gives up the need for radar
        detection just recorded. */
    method UseChannel(link: Link, req: ChanReq, mode: Mode, dfs: int, combo: int, fits: ChanCtx -> bool,
                      radio: bool, addErr: int, drvErr: int, relDrvErr: int, relCtxErr: int)
        returns (ret: int, ghost reused: bool, ghost mid: World)
      requires Inv() && link in ifs.users && link in View().link
      requires link.active && 0 <= dfs && 0 <= combo ==> CanRelease(View(), link, relDrvErr, relCtxErr)
      modifies this`list, list`replaceState, list`replaceCtx, list`willBeUsed
      modifies ifs.users`chanctx, ifs.users`chanreq, ifs.users`radarRequired, ifs.users`reservedChanctx
      ensures Inv() && Grown() && link in mid.link
      ensures !link.active ==> ret == 0 && View() == With(old(View()), link, old(View()).link[link].(chanreq := req))
      ensures link.active && (dfs < 0 || combo < 0) ==>
                ret == (if dfs < 0 then dfs else combo) && View() == Radar(old(View()), link, false)
      ensures link.active && 0 <= dfs && 0 <= combo ==>
                && AfterRelease(Radar(old(View()), link, dfs > 0), link, relDrvErr, relCtxErr, mid)
                && TookOrGaveUp(mid, link, req, mode, fits, radio, addErr, drvErr, reused, ret, link.chanctx, View())
      ensures link.active && 0 <= dfs && 0 <= combo ==>
                && ReleaseLaw(Radar(old(View()), link, dfs > 0), link, relDrvErr, relCtxErr, mid)
                && TakeLaw(mid, link, req, mode, fits, radio, addErr, drvErr, ret, link.chanctx, View())
      ensures ret == 0 && link.active && !reused ==> link.chanctx != null && fresh(link.chanctx)
    {
      mid, reused := View(), false;
      hide View, Inv, AfterRelease, ReleaseLaw, TakeLaw, Took, TookOrGaveUp, CanRelease;
      if !link.active {
        SetRequest(link, req);
        return 0, reused, mid;
      }
      ret := dfs;
      if 0 <= dfs {
        RadarIsForgotten(View(), link, ret > 0, relDrvErr, relCtxErr);
        RadarTwice(View(), link, ret > 0);
        SetRadar(link, ret > 0);
        ret := combo;
        if 0 <= combo {
          ret, reused, mid := Retake(link, req, mode, fits, radio, addErr, drvErr, relDrvErr, relCtxErr);
          if ret == 0 { TookIt(mid, link, req, mode, fits, radio, addErr, drvErr, reused, ret, link.chanctx, View()); }
          if ret != 0 { GaveUp(mid, link, req, mode, fits, radio, addErr, drvErr, reused, ret, link.chanctx, View()); }
        }
      }
      if ret != 0 {
        Records();
        SetRadar(link, false);
      }
      if 0 <= dfs && 0 <= combo { TakeObeys(mid, link, req, mode, fits, radio, addErr, drvErr, reused, ret, link.chanctx, View()); }
    }

    method SetRequest(link: Link, req: ChanReq)
      requires Inv() && link in ifs.users && link in View().link
      modifies link`chanreq
      ensures Inv() && View() == With(old(View()), link, old(View()).link[link].(chanreq := req))
    {
      link.chanreq := req;
      FieldsChanged(link, req, link.radarRequired);
    }
  }
}
