/** What the steps of the channel-context protocol mean for a caller, spelled out by who is on which
    context, who reserves which, and who is ready. */
module ChannelLaws {
  import opened ChannelUsers
  import opened ChannelWorlds

  // ---------- contexts come and go with their users ----------

  ghost function Unused(w: World, links: map<Link, LinkV>): set<ChanCtx> {
    set c | c in w.list && forall l | l in links :: links[l].chanctx != c && links[l].reserved != c
  }

  /** Contexts that no link points to are gone, the others stay in order; a context whose replacement
      is gone is ordinary again, and no other record changes. */
  ghost predicate Cleaned(w: World, w': World) {
    && w'.list == Except(w.list, Unused(w, w'.link))
    && w'.ctx.Keys == (set c | c in w'.list)
    && forall c | c in w'.list ::
         c in w.ctx && w'.ctx[c] == if w.ctx[c].state == WILL_BE_REPLACED && w.ctx[c].partner !in w'.list then CtxV(NONE, null)
                                    else w.ctx[c]
  }

  // Only the record of link l changes.
  ghost predicate OnlyLink(w: World, w': World, l: Link, v: LinkV) {
    w'.link.Keys == w.link.Keys && l in w.link && w'.link[l] == v && forall m | m in w.link && m != l :: w'.link[m] == w.link[m]
  }

  lemma ExceptSame(s: seq<ChanCtx>, gone: set<ChanCtx>)
    requires forall c | c in s :: c !in gone
    ensures Except(s, gone) == s
  {
  }

  lemma {:induction false} ExceptOnly(s: seq<ChanCtx>, gone: set<ChanCtx>, c: ChanCtx)
    requires forall d | d in s :: d in gone <==> d == c
    ensures Except(s, gone) == Without(s, c)
  {
    if s != [] {
      assert s[0] in s && forall d | d in s[1..] :: d in s;
      ExceptOnly(s[1..], gone, c);
    }
  }

  // A sound world is clean.
  lemma NothingToClean(w: World, links: map<Link, LinkV>)
    requires Sound(w) && forall c | c in w.list :: Uses(links, c)
    ensures Cleaned(w, World(w.list, w.ctx, links))
  {
    forall c | c in w.list
      ensures c !in Unused(w, links)
    {
      assert Uses(links, c);
    }
    ExceptSame(w.list, Unused(w, links));
    hide Except, Uses;
    forall c | c in w.list
      ensures !(w.ctx[c].state == WILL_BE_REPLACED && w.ctx[c].partner !in w.list)
    {
      assert PairedAt(w, c);
    }
  }

  // Users change for one context at most.
  lemma OthersUsed(w: World, l: Link, v: LinkV, c: ChanCtx, d: ChanCtx)
    requires Sound(w) && l in w.link && d in w.list && d != c
    requires v.chanctx == w.link[l].chanctx || w.link[l].chanctx == c || v.reserved == w.link[l].chanctx
    requires v.reserved == w.link[l].reserved || w.link[l].reserved == c || v.chanctx == w.link[l].reserved
    ensures Uses(w.link[l := v], d)
  {
    assert Uses(w.link, d);
    var m :| m in w.link && (w.link[m].chanctx == d || w.link[m].reserved == d);
    var links := w.link[l := v];
    assert links[m].chanctx == d || links[m].reserved == d;
  }

  lemma OnlyOneUnused(w: World, links: map<Link, LinkV>, c: ChanCtx)
    requires c in w.list && !Uses(links, c) && forall d | d in w.list && d != c :: Uses(links, d)
    ensures Without(w.list, c) == Except(w.list, Unused(w, links))
  {
    var gone := Unused(w, links);
    forall d | d in w.list
      ensures d in gone <==> d == c
    {
      assert d != c ==> Uses(links, d);
    }
    ExceptOnly(w.list, gone, c);
  }

  // The only context that waits for c is its partner.
  lemma Partner(w: World, c: ChanCtx, d: ChanCtx)
    requires Sound(w) && c in w.list && d in w.list
    ensures w.ctx[d].state == WILL_BE_REPLACED ==> w.ctx[d].partner != null && w.ctx[d].partner in w.list
    ensures w.ctx[d].state == WILL_BE_REPLACED && w.ctx[d].partner == c <==> w.ctx[c].state == REPLACES_OTHER && w.ctx[c].partner == d
    ensures w.ctx[c].state == REPLACES_OTHER ==> w.ctx[c].partner != null && w.ctx[c].partner in w.list && w.ctx[c].partner != c
  {
    assert PairedAt(w, c) && PairedAt(w, d);
  }

  // Removing the one context that lost its last user cleans up.
  lemma RemoveOne(w: World, links: map<Link, LinkV>, c: ChanCtx, p: ChanCtx?)
    requires Sound(w) && c in w.list && !Uses(links, c) && forall d | d in w.list && d != c :: Uses(links, d)
    requires p == if w.ctx[c].state == REPLACES_OTHER then w.ctx[c].partner else null
    ensures Cleaned(w, World(Without(w.list, c), (if p == null then w.ctx else w.ctx[p := CtxV(NONE, null)]) - {c}, links))
  {
    OnlyOneUnused(w, links, c);
    var list := Without(w.list, c);
    assert forall d :: d in list <==> d in w.list && d != c;
    forall d | d in w.list
      ensures w.ctx[d].state == WILL_BE_REPLACED ==> w.ctx[d].partner != null && w.ctx[d].partner in w.list
      ensures w.ctx[d].state == WILL_BE_REPLACED && w.ctx[d].partner == c <==> d == p
      ensures p != null ==> p in w.list && p != c
    {
      Partner(w, c, d);
    }
    assert w.ctx.Keys == set d | d in w.list;
    hide *;
    Records(w.ctx, w.list, list, c, p);
  }

  lemma Records(x: map<ChanCtx, CtxV>, s: seq<ChanCtx>, list: seq<ChanCtx>, c: ChanCtx, p: ChanCtx?)
    requires x.Keys == (set d | d in s) && (forall d :: d in list <==> d in s && d != c) && (p != null ==> p in s && p != c)
    requires forall d | d in s :: x[d].state == WILL_BE_REPLACED ==> x[d].partner != null && x[d].partner in s
    requires forall d | d in s :: x[d].state == WILL_BE_REPLACED && x[d].partner == c <==> d == p
    ensures var x' := (if p == null then x else x[p := CtxV(NONE, null)]) - {c};
            && x'.Keys == (set d | d in list)
            && forall d | d in list ::
                 x'[d] == if x[d].state == WILL_BE_REPLACED && x[d].partner !in list then CtxV(NONE, null) else x[d]
  {
  }

  lemma CleanedMembers(w: World, w': World)
    requires Cleaned(w, w')
    ensures forall c | c in w.list :: c in w'.list <==> Uses(w'.link, c)
    ensures forall c | c in w'.list :: c in w.list
    ensures Distinct(w.list) ==> Distinct(w'.list)
  {
    ExceptMembers(w.list, Unused(w, w'.link));
    hide Except;
  }

  // The links of w' point to contexts of w, and no context that waits goes away before its replacement.
  ghost predicate KeepsPairs(w: World, w': World) {
    && (forall l | l in w'.link ::
          && (w'.link[l].chanctx != null ==> w'.link[l].chanctx in w.list && !IsState(w, w'.link[l].chanctx, REPLACES_OTHER))
          && (w'.link[l].reserved != null ==> w'.link[l].reserved in w.list && !IsState(w, w'.link[l].reserved, WILL_BE_REPLACED)))
    && forall c | c in w.list && IsState(w, c, WILL_BE_REPLACED) && w.ctx[c].partner in w'.list :: c in w'.list
  }

  lemma CleanedPaired(w: World, w': World, c: ChanCtx)
    requires Sound(w) && Cleaned(w, w') && KeepsPairs(w, w') && c in w'.list && c in w'.ctx
    ensures PairedAt(w', c)
  {
    CleanedMembers(w, w');
    hide Except, Uses;
    assert PairedAt(w, c);
    var p := w.ctx[c].partner;
    if p != null { assert PairedAt(w, p); }
  }

  /** Cleaning up keeps the invariant unless a waiting context goes away before its replacement. */
  lemma CleanedSound(w: World, w': World)
    requires Sound(w) && Cleaned(w, w') && KeepsPairs(w, w')
    ensures Sound(w')
  {
    CleanedMembers(w, w');
    forall c | c in w'.ctx
      ensures PairedAt(w', c)
    {
      CleanedPaired(w, w', c);
    }
    forall l | l in w'.link
      ensures w'.link[l].chanctx != null ==> Uses(w'.link, w'.link[l].chanctx)
      ensures w'.link[l].reserved != null ==> Uses(w'.link, w'.link[l].reserved)
    {
    }
    assert Distinct(w'.list) && w'.ctx.Keys == set c | c in w'.list;
    assert AllUsed(w') && AllPaired(w');
    CleanedPlaced(w, w');
    hide AllUsed, AllPaired, AllListed, AllPlaced, Except, Uses, Cleaned, KeepsPairs, Distinct;
  }

  lemma CleanedPlaced(w: World, w': World)
    requires Sound(w) && Cleaned(w, w') && KeepsPairs(w, w')
    requires forall l | l in w'.link ::
               && (w'.link[l].chanctx != null ==> Uses(w'.link, w'.link[l].chanctx))
               && (w'.link[l].reserved != null ==> Uses(w'.link, w'.link[l].reserved))
    ensures AllListed(w') && AllPlaced(w')
  {
    CleanedMembers(w, w');
    hide AllUsed, AllPaired, Except, Uses, Unused;
  }

  // ---------- giving up ----------

  // All but c keep their users when only the record of l changes, and it gives up nothing but c.
  lemma StillUsed(w: World, l: Link, v: LinkV, c: ChanCtx)
    requires Sound(w) && l in w.link && GivesUp(w.link[l], v, c)
    ensures forall d | d in w.list && d != c :: Uses(w.link[l := v], d)
  {
    forall d | d in w.list && d != c
      ensures Uses(w.link[l := v], d)
    {
      OthersUsed(w, l, v, c, d);
    }
  }

  predicate GivesUp(v: LinkV, v': LinkV, c: ChanCtx) {
    && (v'.chanctx == v.chanctx || v.chanctx == c || v'.reserved == v.chanctx)
    && (v'.reserved == v.reserved || v.reserved == c || v'.chanctx == v.reserved)
  }

  // Changing one link and freeing the context it gave up.
  lemma ReapLaw(w: World, l: Link, v: LinkV, c: ChanCtx)
    requires Sound(w) && l in w.link && c in w.list && !IsState(w, c, REPLACES_OTHER) && GivesUp(w.link[l], v, c)
    ensures OnlyLink(w, Reap(With(w, l, v), c), l, v) && Cleaned(w, Reap(With(w, l, v), c))
  {
    assert c in w.ctx && w.ctx[c].state != REPLACES_OTHER;
    GivenUp(w, l, v, c);
    hide Sound, Cleaned, Uses, Without, GivesUp;
  }

  lemma UnreservedLaw(w: World, l: Link)
    requires Sound(w) && l in w.link
    ensures OnlyLink(w, Unreserved(w, l), l, w.link[l].(reserved := null)) && Cleaned(w, Unreserved(w, l))
  {
    var v := w.link[l];
    if v.reserved == null {
      assert w.link[l := v.(reserved := null)] == w.link && forall c | c in w.list :: Uses(w.link, c);
      hide Sound, Cleaned, Uses;
      NothingToClean(w, w.link);
    } else {
      DropLaw(w, l, v.reserved);
    }
  }

  lemma DropLaw(w: World, l: Link, c: ChanCtx)
    requires Sound(w) && l in w.link && w.link[l].reserved == c
    ensures OnlyLink(w, Unreserved(w, l), l, w.link[l].(reserved := null)) && Cleaned(w, Unreserved(w, l))
  {
    GivenUp(w, l, w.link[l].(reserved := null), c);
    Dropping(w, l, c);
    hide Sound, Cleaned, Unreserved, Uses, Without, GivesUp;
  }

  // One context given up by one link: it goes if nobody else uses it.
  lemma GivenUp(w: World, l: Link, v: LinkV, c: ChanCtx)
    requires Sound(w) && l in w.link && GivesUp(w.link[l], v, c) && c in w.list && c in w.ctx
    ensures var links := w.link[l := v];
            var p := if w.ctx[c].state == REPLACES_OTHER then w.ctx[c].partner else null;
            Cleaned(w, if Uses(links, c) then World(w.list, w.ctx, links)
                       else World(Without(w.list, c), (if p == null then w.ctx else w.ctx[p := CtxV(NONE, null)]) - {c}, links))
  {
    StillUsed(w, l, v, c);
    hide Sound, Cleaned, Uses, Without, GivesUp;
    if Uses(w.link[l := v], c) {
      NothingToClean(w, w.link[l := v]);
    } else {
      RemoveOne(w, w.link[l := v], c, if w.ctx[c].state == REPLACES_OTHER then w.ctx[c].partner else null);
    }
  }

  lemma Dropping(w: World, l: Link, c: ChanCtx)
    requires l in w.link && w.link[l].reserved == c && c in w.ctx
    ensures var links := w.link[l := w.link[l].(reserved := null)];
            var p := if w.ctx[c].state == REPLACES_OTHER then w.ctx[c].partner else null;
            Unreserved(w, l) == if Uses(links, c) then World(w.list, w.ctx, links)
                                else World(Without(w.list, c), (if p == null then w.ctx else w.ctx[p := CtxV(NONE, null)]) - {c}, links)
  {
    hide Uses, Without;
  }

  lemma LeftLaw(w: World, l: Link)
    requires Sound(w) && l in w.link && w.link[l].chanctx != null && w.link[l].reserved == null
    ensures OnlyLink(w, Left(w, l), l, w.link[l].(chanctx := null, radar := false)) && Cleaned(w, Left(w, l))
  {
    ReapLaw(w, l, w.link[l].(chanctx := null, radar := false), w.link[l].chanctx);
    hide Cleaned, Sound, Reap;
  }

  lemma UnreservedSound(w: World, l: Link)
    requires Sound(w) && l in w.link
    ensures Sound(Unreserved(w, l))
  {
    var w' := Unreserved(w, l);
    UnreservedLaw(w, l);
    CleanedMembers(w, w');
    forall c | c in w.list && IsState(w, c, WILL_BE_REPLACED)
      ensures c in w'.list
    {
      assert Uses(w.link, c);
      var m :| m in w.link && (w.link[m].chanctx == c || w.link[m].reserved == c);
      assert w'.link[m].chanctx == c;
    }
    forall m | m in w'.link
      ensures w'.link[m].chanctx == w.link[m].chanctx && (w'.link[m].reserved == w.link[m].reserved || w'.link[m].reserved == null)
    {
    }
    hide Unreserved, Cleaned, AllUsed, AllPaired;
    CleanedSound(w, w');
  }

  lemma {:induction false} ExceptTwice(s: seq<ChanCtx>, a: set<ChanCtx>, b: set<ChanCtx>, c: set<ChanCtx>)
    requires forall d | d in s :: d in c <==> d in a || d in b
    ensures Except(Except(s, a), b) == Except(s, c)
  {
    if s != [] {
      assert s[0] in s && forall d | d in s[1..] :: d in s;
      ExceptTwice(s[1..], a, b, c);
      var rest := Except(s[1..], a);
      assert ([s[0]] + rest)[1..] == rest;
    }
  }

  // Cleaning up twice is cleaning up once, when contexts only lose users.
  lemma CleanedTwice(w: World, u: World, w': World)
    requires Cleaned(w, u) && Cleaned(u, w')
    requires forall c | c in w.list && Uses(w'.link, c) :: Uses(u.link, c)
    ensures Cleaned(w, w')
  {
    CleanedMembers(w, u);
    CleanedMembers(u, w');
    forall c | c in w.list
      ensures c in Unused(w, w'.link) <==> c in Unused(w, u.link) || c in Unused(u, w'.link)
    {
      assert c in Unused(w, w'.link) <==> !Uses(w'.link, c);
      assert c in Unused(w, u.link) <==> !Uses(u.link, c);
      assert c in Unused(u, w'.link) <==> c in u.list && !Uses(w'.link, c);
    }
    ExceptTwice(w.list, Unused(w, u.link), Unused(u, w'.link), Unused(w, w'.link));
    hide Except, Uses, Unused;
  }

  /** A release takes both pointers and the radar need from the link, and cleans up after it. */
  lemma ReleasedLaw(w: World, l: Link)
    requires Sound(w) && l in w.link && w.link[l].chanctx != null
    ensures OnlyLink(w, Released(w, l), l, w.link[l].(chanctx := null, reserved := null, radar := false)) && Cleaned(w, Released(w, l))
  {
    var u := Unreserved(w, l);
    UnreservedLaw(w, l);
    UnreservedSound(w, l);
    hide Unreserved, Cleaned, Sound;
    LeftLaw(u, l);
    var w' := Left(u, l);
    forall c | c in w.list && Uses(w'.link, c)
      ensures Uses(u.link, c)
    {
      var m :| m in w'.link && (w'.link[m].chanctx == c || w'.link[m].reserved == c);
      assert u.link[m].chanctx == c || u.link[m].reserved == c;
    }
    CleanedTwice(w, u, w');
  }

  // The record of a link that uses its reservation of an ordinary context.
  function MovedTo(v: LinkV, compat: bool, ok: bool): LinkV {
    if !compat then v
    else LinkV(if ok then v.reserved else v.chanctx,
               if v.chanctx == null then v.chanreq else v.resReq,
               if v.chanctx != null && ok then v.resRadar else v.radar,
               null, v.resReq, v.resRadar, v.ready)
  }

  /** With the driver's consent the link is on the context it reserved, with the reserved radar need if
      it moved from another one; an assigned link takes over the reserved request even if the driver
      refuses, one without a context never does; the reservation is gone unless the request no longer
      fits.  What nobody uses any more is freed. */
  lemma MovedLaw(w: World, l: Link, compat: bool, drvErr: int)
    requires Sound(w) && l in w.link && IsState(w, w.link[l].reserved, NONE)
    ensures OnlyLink(w, Moved(w, l, compat, drvErr), l, MovedTo(w.link[l], compat, drvErr == 0))
    ensures Cleaned(w, Moved(w, l, compat, drvErr))
  {
    var v := w.link[l];
    var v' := MovedTo(v, compat, drvErr == 0);
    var c := v.reserved;
    assert c in w.list && (v.chanctx != null ==> v.chanctx in w.list && !IsState(w, v.chanctx, REPLACES_OTHER));
    if !compat {
      Unmoved(w, l);
    } else if drvErr != 0 {
      ReapLaw(w, l, v', c);
    } else if v.chanctx != null {
      ReapLaw(w, l, v', v.chanctx);
    } else {
      Entered(w, l, v', c);
    }
    hide Cleaned, Sound, Reap;
  }

  lemma Unmoved(w: World, l: Link)
    requires Sound(w) && l in w.link
    ensures OnlyLink(w, w, l, w.link[l]) && Cleaned(w, w)
  {
    assert forall c | c in w.list :: Uses(w.link, c);
    NothingToClean(w, w.link);
  }

  lemma Entered(w: World, l: Link, v: LinkV, c: ChanCtx)
    requires Sound(w) && l in w.link && w.link[l].chanctx == null && w.link[l].reserved == c && v.chanctx == c && v.reserved == null
    ensures OnlyLink(w, With(w, l, v), l, v) && Cleaned(w, With(w, l, v))
  {
    StillUsed(w, l, v, c);
    assert w.link[l := v][l].chanctx == c;
    NothingToClean(w, w.link[l := v]);
  }

  // ---------- the switch ----------

  // Some link on a context that goes away has no reservation.
  ghost predicate SomeBare(w: World) {
    exists l | l in w.link :: IsState(w, w.link[l].chanctx, WILL_BE_REPLACED) && w.link[l].reserved == null
  }

  // Some link that would swap is not ready.
  ghost predicate SomeLate(w: World) {
    exists l | l in w.link ::
      IsState(w, w.link[l].chanctx, WILL_BE_REPLACED) && IsState(w, w.link[l].reserved, REPLACES_OTHER) && !w.link[l].ready
  }

  // Some link on a context that goes away has a reservation that is not ready.
  ghost predicate SomeHoping(w: World) {
    exists l | l in w.link :: IsState(w, w.link[l].chanctx, WILL_BE_REPLACED) && w.link[l].reserved != null && !w.link[l].ready
  }

  // Some link reserves a replacement, and is on a context that goes away or (for !swaps) is not.
  ghost predicate SomeWaiting(w: World, swaps: bool) {
    exists l | l in w.link ::
      IsState(w, w.link[l].reserved, REPLACES_OTHER) && IsState(w, w.link[l].chanctx, WILL_BE_REPLACED) == swaps
  }

  // The pair of c and its partner cannot swap yet: a link on the old context has no reservation, or
  // a link that would swap to c is not ready.
  ghost predicate Blocked(w: World, c: ChanCtx) {
    && IsState(w, c, REPLACES_OTHER)
    && exists l | l in w.link ::
         || (w.link[l].chanctx == w.ctx[c].partner && w.link[l].reserved == null)
         || (w.link[l].reserved == c && IsState(w, w.link[l].chanctx, WILL_BE_REPLACED) && !w.link[l].ready)
  }

  // It never can: a link on the old context has no reservation, though all that have one are ready.
  ghost predicate Hopeless(w: World, c: ChanCtx) {
    && IsState(w, c, REPLACES_OTHER)
    && (exists l | l in w.link :: w.link[l].chanctx == w.ctx[c].partner && w.link[l].reserved == null)
    && forall l | l in w.link && w.link[l].chanctx == w.ctx[c].partner && w.link[l].reserved != null :: w.link[l].ready
  }

  // The swap, link by link.
  ghost predicate Swapped(w: World, w': World) {
    && w'.link.Keys == w.link.Keys
    && (forall l | l in w.link && IsState(w, w.link[l].reserved, REPLACES_OTHER) && IsState(w, w.link[l].chanctx, WILL_BE_REPLACED) ::
          var v, v' := w.link[l], w'.link[l];
          && v'.chanctx == v.reserved && v'.chanreq == v.resReq && v'.radar == v.resRadar && v'.reserved == null
          && v'.resReq == v.resReq && v'.resRadar == v.resRadar && v'.ready == v.ready)
    && (forall l | l in w.link && IsState(w, w.link[l].reserved, REPLACES_OTHER) && !IsState(w, w.link[l].chanctx, WILL_BE_REPLACED) ::
          w'.link[l] == if w.link[l].ready then w.link[l].(reserved := null) else w.link[l])
    && (forall l | l in w.link && !IsState(w, w.link[l].reserved, REPLACES_OTHER) :: w'.link[l] == w.link[l])
    && (forall c | c in w.list :: c in w'.list <==> !IsState(w, c, WILL_BE_REPLACED))
    && (forall c | c in w'.list :: c in w.list && c in w'.ctx && w'.ctx[c] == CtxV(NONE, null))
  }

  /** The switch, by who is on what and who is ready. */
  ghost predicate SwitchLaw(w: World, drvErr: int, ctxErr: int, ret: int, w': World) {
    // it waits exactly if the first pair that is blocked may still get unblocked
    && (forall i | 0 <= i < |w.list| && Blocked(w, w.list[i]) && (forall j | 0 <= j < i :: !Blocked(w, w.list[j])) ::
          if Hopeless(w, w.list[i]) then ret == EBUSY && Unwound(w, w') else ret == EAGAIN && w' == w)
    // so it does when a link that would swap is late and all sources have reservations
    && (!SomeBare(w) && SomeLate(w) ==> ret == EAGAIN && w' == w)
    // and gives up when a source has none and nobody is left to hope for
    && (SomeBare(w) && !SomeHoping(w) ==> ret == EBUSY && Unwound(w, w'))
    // when nothing blocks it, the driver decides
    && (!SomeBare(w) && !SomeLate(w) ==>
          && (ret == if !SomeWaiting(w, true) && !SomeWaiting(w, false) then EINVAL
                     else if SomeWaiting(w, true) && drvErr != 0 then drvErr
                     else if SomeWaiting(w, false) then ctxErr else 0)
          && if ret == 0 then Swapped(w, w') else Unwound(w, w'))
  }

  // A pair in a sound world.
  lemma PairOf(w: World, c: ChanCtx)
    requires Sound(w) && IsState(w, c, REPLACES_OTHER)
    ensures w.ctx[c].partner != null && w.ctx[c].partner in w.ctx && IsState(w, w.ctx[c].partner, WILL_BE_REPLACED) && c in w.list
  {
    assert PairedAt(w, c);
  }

  lemma VerdictLaw(w: World, c: ChanCtx)
    requires Sound(w) && c in w.list
    ensures VerdictOf(w, c) == if !Blocked(w, c) then Go else if Hopeless(w, c) then Stuck else Defer
  {
    if IsState(w, c, REPLACES_OTHER) {
      PairOf(w, c);
      hide Sound;
      BlockedPair(w, c, w.ctx[c].partner);
    }
  }

  lemma BlockedPair(w: World, c: ChanCtx, a: ChanCtx)
    requires IsState(w, c, REPLACES_OTHER) && w.ctx[c].partner == a
    ensures Blocked(w, c) <==> !AllReserved(w, a) || !SwapReady(w, c)
    ensures Hopeless(w, c) <==> !AllReserved(w, a) && AllReady(w, a)
  {
    if !SwapReady(w, c) {
      var l :| l in w.link && w.link[l].reserved == c && Moves(w, w.link[l]) && !w.link[l].ready;
      assert Blocked(w, c);
    }
  }

  lemma {:induction false} FirstBlocked(w: World, cs: seq<ChanCtx>, i: nat)
    requires Sound(w) && i <= |cs| && (forall c | c in cs :: c in w.list)
    requires forall j | 0 <= j < i :: !Blocked(w, cs[j])
    ensures ListVerdict(w, cs) == if i == |cs| then Go
                                  else if Blocked(w, cs[i]) then (if Hopeless(w, cs[i]) then Stuck else Defer)
                                  else ListVerdict(w, cs[i + 1..])
  {
    if cs == [] {
    } else {
      assert cs[0] in cs;
      VerdictLaw(w, cs[0]);
      assert ListVerdict(w, cs) == if VerdictOf(w, cs[0]) != Go then VerdictOf(w, cs[0]) else ListVerdict(w, cs[1..]);
      hide ListVerdict, VerdictOf, Sound, Blocked, Hopeless;
      if i > 0 {
        var rest := cs[1..];
        assert forall j | 0 <= j < i - 1 :: rest[j] == cs[j + 1];
        FirstBlocked(w, rest, i - 1);
        if i < |cs| { assert rest[i - 1] == cs[i] && rest[i..] == cs[i + 1..]; }
      }
    }
  }

  // The first blocked pair, or the end of the list.
  lemma FirstOf(w: World) returns (i: nat)
    ensures i <= |w.list| && (forall j | 0 <= j < i :: !Blocked(w, w.list[j])) && (i < |w.list| ==> Blocked(w, w.list[i]))
  {
    hide Blocked;
    i := 0;
    while i < |w.list| && !Blocked(w, w.list[i])
      invariant i <= |w.list| && forall j | 0 <= j < i :: !Blocked(w, w.list[j])
    {
      i := i + 1;
    }
  }

  // The decision by the first blocked pair.
  lemma DecidedBy(w: World, drvErr: int, ctxErr: int, w': World, i: nat)
    requires Sound(w) && AfterSwitch(w, drvErr, ctxErr, w') && i < |w.list| && Blocked(w, w.list[i])
    requires forall j | 0 <= j < i :: !Blocked(w, w.list[j])
    ensures var ret := Decision(w, drvErr, ctxErr);
            if Hopeless(w, w.list[i]) then ret == EBUSY && Unwound(w, w') else ret == EAGAIN && w' == w
  {
    FirstBlocked(w, w.list, i);
    hide ListVerdict, Blocked, Hopeless, Unwound, Swap, Sound;
  }

  lemma LateBlocks(w: World)
    requires Sound(w) && !SomeBare(w) && SomeLate(w)
    ensures exists i | 0 <= i < |w.list| :: Blocked(w, w.list[i])
    ensures forall i | 0 <= i < |w.list| && Blocked(w, w.list[i]) :: !Hopeless(w, w.list[i])
  {
    var l :| l in w.link && IsState(w, w.link[l].chanctx, WILL_BE_REPLACED) && IsState(w, w.link[l].reserved, REPLACES_OTHER) && !w.link[l].ready;
    assert w.link[l].reserved in w.list && Blocked(w, w.link[l].reserved);
    forall i | 0 <= i < |w.list| && Blocked(w, w.list[i])
      ensures !Hopeless(w, w.list[i])
    {
      PairOf(w, w.list[i]);
    }
  }

  lemma BareBlocks(w: World)
    requires Sound(w) && SomeBare(w) && !SomeHoping(w)
    ensures exists i | 0 <= i < |w.list| :: Blocked(w, w.list[i])
    ensures forall i | 0 <= i < |w.list| && Blocked(w, w.list[i]) :: Hopeless(w, w.list[i])
  {
    var l :| l in w.link && IsState(w, w.link[l].chanctx, WILL_BE_REPLACED) && w.link[l].reserved == null;
    var a := w.link[l].chanctx;
    assert PairedAt(w, a);
    var c := w.ctx[a].partner;
    assert w.ctx[c].partner == w.link[l].chanctx && Blocked(w, c) && c in w.list;
    forall i | 0 <= i < |w.list| && Blocked(w, w.list[i])
      ensures Hopeless(w, w.list[i])
    {
      PairOf(w, w.list[i]);
    }
  }

  lemma NothingBlocks(w: World, i: nat)
    requires Sound(w) && !SomeBare(w) && !SomeLate(w) && i < |w.list|
    ensures !Blocked(w, w.list[i])
  {
    if IsState(w, w.list[i], REPLACES_OTHER) { PairOf(w, w.list[i]); }
  }

  lemma WhoWaits(w: World, swaps: bool)
    requires Sound(w)
    ensures Reserver(w, w.list, swaps) <==> SomeWaiting(w, swaps)
  {
    if SomeWaiting(w, swaps) {
      var l :| l in w.link && IsState(w, w.link[l].reserved, REPLACES_OTHER) && IsState(w, w.link[l].chanctx, WILL_BE_REPLACED) == swaps;
      assert w.link[l].reserved in w.list && Joins(w, w.link[l]);
    }
  }

  lemma PairsHaveReservers(w: World)
    requires Sound(w)
    ensures PairIn(w, w.list) <==> SomeWaiting(w, true) || SomeWaiting(w, false)
  {
    if PairIn(w, w.list) {
      var c :| c in w.list && IsState(w, c, REPLACES_OTHER);
      assert Uses(w.link, c);
      var l :| l in w.link && (w.link[l].chanctx == c || w.link[l].reserved == c);
      assert IsState(w, w.link[l].reserved, REPLACES_OTHER);
    }
    WhoWaits(w, true);
    WhoWaits(w, false);
  }

  lemma SwapIsSwapped(w: World, w': World)
    requires Sound(w) && Swap(w, w')
    ensures Swapped(w, w')
  {
    ExceptMembers(w.list, Leaving(w));
    hide Except, AllUsed, AllPaired, AllPlaced, AllListed;
  }

  lemma Unblocked(w: World, drvErr: int, ctxErr: int, w': World)
    requires Sound(w) && AfterSwitch(w, drvErr, ctxErr, w') && !SomeBare(w) && !SomeLate(w)
    ensures var ret := Decision(w, drvErr, ctxErr);
            && (ret == if !SomeWaiting(w, true) && !SomeWaiting(w, false) then EINVAL
                       else if SomeWaiting(w, true) && drvErr != 0 then drvErr
                       else if SomeWaiting(w, false) then ctxErr else 0)
            && if ret == 0 then Swapped(w, w') else Unwound(w, w')
  {
    forall i | 0 <= i < |w.list|
      ensures !Blocked(w, w.list[i])
    {
      NothingBlocks(w, i);
    }
    FirstBlocked(w, w.list, |w.list|);
    PairsHaveReservers(w);
    WhoWaits(w, true);
    WhoWaits(w, false);
    if Swap(w, w') { SwapIsSwapped(w, w'); }
    hide Sound, SomeBare, SomeLate, SomeWaiting, Swap, Swapped, Unwound, ListVerdict, PairIn, Reserver, Blocked;
  }

  /** Every outcome of the switch obeys the law. */
  lemma SwitchObeys(w: World, drvErr: int, ctxErr: int, w': World)
    requires Sound(w) && AfterSwitch(w, drvErr, ctxErr, w')
    ensures SwitchLaw(w, drvErr, ctxErr, Decision(w, drvErr, ctxErr), w')
  {
    hide Sound, SomeBare, SomeLate, SomeHoping, SomeWaiting, Swap, Swapped, Unwound, Blocked, Hopeless, AfterSwitch, Decision;
    forall i | 0 <= i < |w.list| && Blocked(w, w.list[i]) && (forall j | 0 <= j < i :: !Blocked(w, w.list[j]))
      ensures var ret := Decision(w, drvErr, ctxErr);
              if Hopeless(w, w.list[i]) then ret == EBUSY && Unwound(w, w') else ret == EAGAIN && w' == w
    {
      DecidedBy(w, drvErr, ctxErr, w', i);
    }
    var i := FirstOf(w);
    if !SomeBare(w) && SomeLate(w) {
      LateBlocks(w);
      DecidedBy(w, drvErr, ctxErr, w', i);
    }
    if SomeBare(w) && !SomeHoping(w) {
      BareBlocks(w);
      DecidedBy(w, drvErr, ctxErr, w', i);
    }
    if !SomeBare(w) && !SomeLate(w) { Unblocked(w, drvErr, ctxErr, w'); }
  }

  // ---------- a release ----------

  // Another link reserves the same replacement.
  ghost predicate OthersReserve(w: World, l: Link)
    requires l in w.link
  {
    IsState(w, w.link[l].reserved, REPLACES_OTHER) && exists m | m in w.link && m != l :: w.link[m].reserved == w.link[l].reserved
  }

  /** A release takes everything from the link and cleans up after it; if others reserve the same
      replacement, the switch is then tried without the link. */
  ghost predicate ReleaseLaw(w: World, l: Link, drvErr: int, ctxErr: int, w': World)
    requires l in w.link
  {
    var v, m := w.link[l], Released(w, l);
    if v.chanctx == null then w' == w
    else
      && OnlyLink(w, m, l, v.(chanctx := null, reserved := null, radar := false)) && Cleaned(w, m)
      && if OthersReserve(w, l) then exists ret: int :: SwitchLaw(m, drvErr, ctxErr, ret, w') else w' == m
  }

  lemma ReleaseObeys(w: World, l: Link, drvErr: int, ctxErr: int, w': World)
    requires Sound(w) && l in w.link && AfterRelease(w, l, drvErr, ctxErr, w') && (w.link[l].chanctx != null ==> Sound(Released(w, l)))
    ensures ReleaseLaw(w, l, drvErr, ctxErr, w')
  {
    var m := Released(w, l);
    assert Shares(w, l) <==> OthersReserve(w, l);
    if w.link[l].chanctx != null {
      ReleasedLaw(w, l);
      hide Sound, Cleaned, OnlyLink, AfterSwitch, SwitchLaw, Released, Shares, OthersReserve;
      if Shares(w, l) { SwitchObeys(m, drvErr, ctxErr, w'); }
    }
  }

  // A release keeps the invariant when it strands nobody.
  lemma ReleasedSound(w: World, l: Link)
    requires Sound(w) && l in w.link && w.link[l].chanctx != null && !Strands(w, l)
    ensures Sound(Released(w, l))
  {
    var w' := Released(w, l);
    ReleasedLaw(w, l);
    CleanedMembers(w, w');
    hide Released, Cleaned;
    forall c | c in w.list && IsState(w, c, WILL_BE_REPLACED) && w.ctx[c].partner in w'.list
      ensures c in w'.list
    {
      WaitingStays(w, l, w', c);
    }
    forall m | m in w'.link
      ensures w'.link[m].chanctx == w.link[m].chanctx || w'.link[m].chanctx == null
      ensures w'.link[m].reserved == w.link[m].reserved || w'.link[m].reserved == null
    {
    }
    assert KeepsPairs(w, w') by { hide AllUsed, AllPaired; }
    CleanedSound(w, w');
  }

  lemma WaitingStays(w: World, l: Link, w': World, c: ChanCtx)
    requires Sound(w) && l in w.link && w.link[l].chanctx != null && !Strands(w, l)
    requires OnlyLink(w, w', l, w.link[l].(chanctx := null, reserved := null, radar := false))
    requires c in w.list && IsState(w, c, WILL_BE_REPLACED) && (forall d | d in w.list :: d in w'.list <==> Uses(w'.link, d))
    requires w.ctx[c].partner in w'.list
    ensures c in w'.list
  {
    assert PairedAt(w, c) && Uses(w.link, c);
    var y := w.ctx[c].partner;
    var m :| m in w.link && (w.link[m].chanctx == c || w.link[m].reserved == c);
    assert w.link[m].chanctx == c;
    if m != l {
      assert w'.link[m].chanctx == c;
    } else {
      assert Uses(w'.link, y);
      var k :| k in w'.link && (w'.link[k].chanctx == y || w'.link[k].reserved == y);
      assert k != l && w.link[k].reserved == y;
      assert !Orphans(w, l);
      var n :| n in w.link && n != l && w.link[n].chanctx == c;
      assert w'.link[n].chanctx == c;
    }
  }

  /** What a retried switch means for the others: with all of them ready and the driver willing, a
      link that reserves the same replacement as the released one lands on it. */
  lemma OthersLand(w: World, l: Link, b: Link, ctxErr: int, w': World)
    requires Sound(w) && l in w.link && b in w.link && b != l && w.link[l].chanctx != null && !Strands(w, l)
    requires IsState(w, w.link[l].reserved, REPLACES_OTHER) && w.link[b].reserved == w.link[l].reserved
    requires IsState(w, w.link[b].chanctx, WILL_BE_REPLACED)
    requires forall m | m in w.link && m != l && IsState(w, w.link[m].chanctx, WILL_BE_REPLACED) :: w.link[m].reserved != null && w.link[m].ready
    requires forall m | m in w.link && m != l && IsState(w, w.link[m].reserved, REPLACES_OTHER) :: IsState(w, w.link[m].chanctx, WILL_BE_REPLACED)
    requires ReleaseLaw(w, l, 0, ctxErr, w')
    ensures b in w'.link && w'.link[b].chanctx == w.link[b].reserved && w'.link[b].reserved == null
    ensures w'.link[b].chanreq == w.link[b].resReq && w'.link[b].radar == w.link[b].resRadar
  {
    var m := Released(w, l);
    assert OthersReserve(w, l);
    var ret: int :| SwitchLaw(m, 0, ctxErr, ret, w');
    hide SwitchLaw, OthersReserve, ReleaseLaw;
    ReleasedSound(w, l);
    StatesStay(w, l, m);
    hide Released, Sound, Strands, Cleaned, IsState, SomeBare, SomeLate, SomeHoping, SomeWaiting, Blocked, Hopeless, Unwound;
    Unhindered(w, l, b, m);
    GoesThrough(m, ctxErr, ret, w');
    hide OnlyLink;
  }

  lemma GoesThrough(w: World, ctxErr: int, ret: int, w': World)
    requires SwitchLaw(w, 0, ctxErr, ret, w') && !SomeBare(w) && !SomeLate(w) && SomeWaiting(w, true) && !SomeWaiting(w, false)
    ensures Swapped(w, w')
  {
    hide SomeBare, SomeLate, SomeWaiting, SomeHoping, Blocked, Hopeless, Swapped, Unwound;
  }

  lemma Unhindered(w: World, l: Link, b: Link, m: World)
    requires l in w.link && b in w.link && b != l
    requires OnlyLink(w, m, l, w.link[l].(chanctx := null, reserved := null, radar := false))
    requires IsState(w, w.link[b].reserved, REPLACES_OTHER) && IsState(w, w.link[b].chanctx, WILL_BE_REPLACED)
    requires forall k | k in w.link && k != l && IsState(w, w.link[k].chanctx, WILL_BE_REPLACED) :: w.link[k].reserved != null && w.link[k].ready
    requires forall k | k in w.link && k != l && IsState(w, w.link[k].reserved, REPLACES_OTHER) :: IsState(w, w.link[k].chanctx, WILL_BE_REPLACED)
    requires forall k, s | k in w.link && k != l && s != NONE ::
               && IsState(m, w.link[k].chanctx, s) == IsState(w, w.link[k].chanctx, s)
               && IsState(m, w.link[k].reserved, s) == IsState(w, w.link[k].reserved, s)
    ensures m.link[b] == w.link[b] && IsState(m, m.link[b].chanctx, WILL_BE_REPLACED) && IsState(m, m.link[b].reserved, REPLACES_OTHER)
    ensures !SomeBare(m) && !SomeLate(m) && SomeWaiting(m, true) && !SomeWaiting(m, false)
  {
    assert !IsState(m, m.link[l].chanctx, WILL_BE_REPLACED) && !IsState(m, m.link[l].reserved, REPLACES_OTHER);
    hide IsState;
    assert forall k | k in m.link && k != l :: m.link[k] == w.link[k];
  }

  // States of the contexts that the other links point to survive a release.
  lemma StatesStay(w: World, l: Link, m: World)
    requires Sound(w) && l in w.link && Sound(m) && Cleaned(w, m)
    requires exists k | k in w.link && k != l :: w.link[k].reserved == w.link[l].reserved
    requires OnlyLink(w, m, l, w.link[l].(chanctx := null, reserved := null, radar := false))
    ensures forall k, s | k in w.link && k != l && s != NONE ::
              && IsState(m, w.link[k].chanctx, s) == IsState(w, w.link[k].chanctx, s)
              && IsState(m, w.link[k].reserved, s) == IsState(w, w.link[k].reserved, s)
  {
    CleanedMembers(w, m);
    forall k, s | k in w.link && k != l && s != NONE
      ensures IsState(m, w.link[k].chanctx, s) == IsState(w, w.link[k].chanctx, s)
      ensures IsState(m, w.link[k].reserved, s) == IsState(w, w.link[k].reserved, s)
    {
      assert m.link[k] == w.link[k];
      if w.link[k].chanctx != null { StateStays(w, l, m, w.link[k].chanctx); }
      if w.link[k].reserved != null { StateStays(w, l, m, w.link[k].reserved); }
    }
  }

  lemma StateStays(w: World, l: Link, m: World, c: ChanCtx)
    requires Sound(w) && l in w.link && Cleaned(w, m) && c in w.list && Uses(m.link, c)
    requires exists k | k in w.link && k != l :: w.link[k].reserved == w.link[l].reserved
    requires OnlyLink(w, m, l, w.link[l].(chanctx := null, reserved := null, radar := false))
    ensures c in m.ctx && m.ctx[c] == w.ctx[c]
  {
    CleanedMembers(w, m);
    hide Except;
    if w.ctx[c].state == WILL_BE_REPLACED {
      assert PairedAt(w, c);
      var y := w.ctx[c].partner;
      assert Uses(w.link, y);
      var r :| r in w.link && (w.link[r].chanctx == y || w.link[r].reserved == y);
      assert w.link[r].reserved == y;
      var k :| k in w.link && k != l && w.link[k].reserved == w.link[l].reserved;
      var n := if r == l then k else r;
      assert m.link[n].reserved == y;
    }
  }

  // ---------- using a reservation ----------

  /** A link that has no usable reservation, or said it is ready before, is refused.  For an ordinary
      context the driver decides: with its consent the link is on the context it reserved, with the
      reserved radar need if it comes from another one; an assigned link takes over the reserved request
      even if the driver refuses, one without a context never does; the reservation is gone unless the
      request no longer fits.  For a replacement the switch is tried, and a wait is no error. */
  ghost predicate UseLaw(w: World, l: Link, compat: bool, drvErr: int, ctxErr: int, ret: int, w': World)
    requires l in w.link
  {
    var v := w.link[l];
    if v.reserved == null || v.ready || IsState(w, v.reserved, WILL_BE_REPLACED) then ret == EINVAL && w' == w
    else if IsState(w, v.reserved, NONE) then
      && ret == (if compat then drvErr else EINVAL) && Cleaned(w, w')
      && OnlyLink(w, w', l, LinkV(if ret == 0 then v.reserved else v.chanctx,
                                  if compat && v.chanctx != null then v.resReq else v.chanreq,
                                  if ret == 0 && v.chanctx != null then v.resRadar else v.radar,
                                  if compat then null else v.reserved, v.resReq, v.resRadar, true))
    else
      var r := World(w.list, w.ctx, w.link[l := v.(ready := true)]);
      exists d: int :: SwitchLaw(r, drvErr, ctxErr, d, w') && ret == if d == EAGAIN then 0 else d
  }

  // What the operations that a use calls make of the world.
  ghost predicate UseOf(w: World, l: Link, compat: bool, drvErr: int, ctxErr: int, ret: int, w': World)
    requires l in w.link
  {
    var v := w.link[l];
    && (v.reserved == null || v.ready || IsState(w, v.reserved, WILL_BE_REPLACED) ==> ret == EINVAL && w' == w)
    && (!v.ready && IsState(w, v.reserved, NONE) ==>
          ret == (if compat then drvErr else EINVAL) && w' == Moved(Readied(w, l), l, compat, drvErr))
    && (!v.ready && IsState(w, v.reserved, REPLACES_OTHER) ==>
          var d := Decision(Readied(w, l), drvErr, ctxErr);
          ret == (if d == EAGAIN then 0 else d) && AfterSwitch(Readied(w, l), drvErr, ctxErr, w'))
  }

  // The use moves the last link away from a context that waits for its replacement.
  predicate Frees(w: World, l: Link, compat: bool)
    requires l in w.link
  {
    IsState(w, w.link[l].reserved, NONE) && !w.link[l].ready && compat && Orphans(w, l)
  }

  lemma ReadyOrphans(w: World, l: Link)
    requires l in w.link
    ensures Orphans(Readied(w, l), l) == Orphans(w, l)
  {
    var w' := Readied(w, l);
    assert forall m | m in w.link :: w'.link[m].chanctx == w.link[m].chanctx;
  }

  // What the caller of a ready reservation of a replacement is told.
  function Told(d: int): int { if d == EAGAIN then 0 else d }

  lemma RefusedUse(w: World, l: Link, compat: bool, drvErr: int, ctxErr: int)
    requires l in w.link && (w.link[l].reserved == null || w.link[l].ready || IsState(w, w.link[l].reserved, WILL_BE_REPLACED))
    ensures UseOf(w, l, compat, drvErr, ctxErr, EINVAL, w)
  {
  }

  lemma UsesReplacement(w: World, l: Link, drvErr: int, ctxErr: int)
    requires l in w.link && CanUse(w, l, drvErr, ctxErr) && IsState(w, w.link[l].reserved, REPLACES_OTHER) && !w.link[l].ready
    ensures Switchable(Readied(w, l), drvErr, ctxErr)
  {
  }

  lemma UsedReplacement(w: World, l: Link, compat: bool, drvErr: int, ctxErr: int, ret: int, w': World)
    requires l in w.link && IsState(w, w.link[l].reserved, REPLACES_OTHER) && !w.link[l].ready
    requires ret == Told(Decision(Readied(w, l), drvErr, ctxErr)) && AfterSwitch(Readied(w, l), drvErr, ctxErr, w')
    ensures UseOf(w, l, compat, drvErr, ctxErr, ret, w') && !Frees(w, l, compat)
  {
    hide Decision, AfterSwitch;
  }

  lemma UseObeys(w: World, l: Link, compat: bool, drvErr: int, ctxErr: int, ret: int, w': World)
    requires Sound(w) && l in w.link && UseOf(w, l, compat, drvErr, ctxErr, ret, w')
    ensures UseLaw(w, l, compat, drvErr, ctxErr, ret, w')
  {
    var v := w.link[l];
    if v.reserved == null || v.ready || IsState(w, v.reserved, WILL_BE_REPLACED) {
    } else if IsState(w, v.reserved, NONE) {
      hide Sound, Moved, Cleaned, OnlyLink;
      OrdinaryObeys(w, l, compat, drvErr, w');
    } else {
      assert v.reserved in w.list && v.reserved in w.ctx;
      ReadiedSound(w, l);
      hide Sound, AfterSwitch, Decision, SwitchLaw;
      SwitchObeys(Readied(w, l), drvErr, ctxErr, w');
    }
  }

  lemma ReadiedSound(w: World, l: Link)
    requires Sound(w) && l in w.link
    ensures Sound(Readied(w, l))
  {
    forall c | c in w.list
      ensures Uses(Readied(w, l).link, c)
    {
      assert Uses(w.link, c);
      SameUses(w.link, Readied(w, l).link, c);
    }
    forall c | c in w.ctx
      ensures PairedAt(Readied(w, l), c)
    {
      assert PairedAt(w, c);
    }
    hide Uses, PairedAt;
  }

  lemma OrdinaryObeys(w: World, l: Link, compat: bool, drvErr: int, w': World)
    requires Sound(w) && l in w.link && IsState(w, w.link[l].reserved, NONE) && w' == Moved(Readied(w, l), l, compat, drvErr)
    ensures var v, ret := w.link[l], if compat then drvErr else EINVAL;
            && Cleaned(w, w')
            && OnlyLink(w, w', l, LinkV(if ret == 0 then v.reserved else v.chanctx,
                                        if compat && v.chanctx != null then v.resReq else v.chanreq,
                                        if ret == 0 && v.chanctx != null then v.resRadar else v.radar,
                                        if compat then null else v.reserved, v.resReq, v.resRadar, true))
  {
    var r := Readied(w, l);
    ReadiedSound(w, l);
    assert IsState(r, r.link[l].reserved, NONE);
    assert r.link[l] == w.link[l].(ready := true) && r.link.Keys == w.link.Keys;
    hide Sound, Moved, Cleaned, IsState, OnlyLink, MovedTo;
    MovedLaw(r, l, compat, drvErr);
    SameClean(w, r, w');
    SameOnly(w, r, w', l, MovedTo(r.link[l], compat, drvErr == 0));
    MovedRecord(w.link[l], compat, drvErr);
  }

  lemma SameOnly(w: World, r: World, w': World, l: Link, v: LinkV)
    requires l in w.link && r == Readied(w, l) && OnlyLink(r, w', l, v)
    ensures OnlyLink(w, w', l, v)
  {
  }

  lemma MovedRecord(v: LinkV, compat: bool, drvErr: int)
    ensures var ret := if compat then drvErr else EINVAL;
            MovedTo(v.(ready := true), compat, drvErr == 0)
            == LinkV(if ret == 0 then v.reserved else v.chanctx,
                     if compat && v.chanctx != null then v.resReq else v.chanreq,
                     if ret == 0 && v.chanctx != null then v.resRadar else v.radar,
                     if compat then null else v.reserved, v.resReq, v.resRadar, true)
  {
  }

  lemma SameClean(w: World, r: World, w': World)
    requires r.list == w.list && r.ctx == w.ctx && Cleaned(r, w')
    ensures Cleaned(w, w')
  {
    assert Unused(r, w'.link) == Unused(w, w'.link);
    hide Except;
  }

  // ---------- reserving ----------

  // A context that a reservation can join, or that can be replaced for it.
  ghost predicate MayJoin(w: World, c: ChanCtx, fits: ChanCtx -> bool) {
    c.mode != EXCLUSIVE && fits(c) && !IsState(w, c, WILL_BE_REPLACED) && exists l | l in w.link :: w.link[l].reserved == c
  }

  ghost predicate MayReplace(w: World, c: ChanCtx?) {
    IsState(w, c, NONE) && forall l | l in w.link :: w.link[l].reserved != c
  }

  /** A reservation joins the first context that it can; else a new context is added while there is
      room; else a new one is to replace the link's own context, or the first that can be replaced. */
  ghost predicate ReserveLaw(w: World, l: Link, req: ChanReq, mode: Mode, radar: bool, fits: ChanCtx -> bool,
                             onRadio: ChanCtx -> bool, room: bool, addErr: int, ret: int, c: ChanCtx?, w': World)
    requires l in w.link
  {
    var v := w.link[l];
    var own := v.chanctx;
    && (ret != 0 ==> w' == w)
    && (ret == 0 ==> c != null && OnlyLink(w, w', l, v.(reserved := c, resReq := req, resRadar := radar, ready := false)))
    && if mode != EXCLUSIVE && exists i | 0 <= i < |w.list| :: MayJoin(w, w.list[i], fits) then
         && ret == 0 && w'.list == w.list && w'.ctx == w.ctx
         && exists i | 0 <= i < |w.list| ::
              w.list[i] == c && MayJoin(w, c, fits) && forall j | 0 <= j < i :: !MayJoin(w, w.list[j], fits)
       else if room then
         && ret == addErr
         && (ret == 0 ==> c.mode == mode && c !in w.list && w'.list == [c] + w.list && w'.ctx == w.ctx[c := CtxV(NONE, null)])
       else if MayReplace(w, own) then
         ret == 0 && c.mode == mode && Pairs(w, w', own, c)
       else if exists i | 0 <= i < |w.list| :: MayReplace(w, w.list[i]) && onRadio(w.list[i]) then
         && ret == 0 && c.mode == mode
         && exists i | 0 <= i < |w.list| ::
              && Pairs(w, w', w.list[i], c) && MayReplace(w, w.list[i]) && onRadio(w.list[i])
              && forall j | 0 <= j < i :: !(MayReplace(w, w.list[j]) && onRadio(w.list[j]))
       else ret == EBUSY
  }

  // c is new and will replace p.
  ghost predicate Pairs(w: World, w': World, p: ChanCtx?, c: ChanCtx) {
    && p != null && c !in w.list && w'.list == [c] + w.list
    && w'.ctx == w.ctx[c := CtxV(REPLACES_OTHER, p)][p := CtxV(WILL_BE_REPLACED, c)]
  }

  ghost predicate CanJoin(w: World, mode: Mode, fits: ChanCtx -> bool) {
    mode != EXCLUSIVE && exists i | 0 <= i < |w.list| :: MayJoin(w, w.list[i], fits)
  }

  ghost predicate FirstToJoin(w: World, c: ChanCtx, fits: ChanCtx -> bool) {
    exists i | 0 <= i < |w.list| :: w.list[i] == c && MayJoin(w, c, fits) && forall j | 0 <= j < i :: !MayJoin(w, w.list[j], fits)
  }

  ghost predicate CanReplace(w: World, own: ChanCtx?, onRadio: ChanCtx -> bool) {
    MayReplace(w, own) || exists i | 0 <= i < |w.list| :: MayReplace(w, w.list[i]) && onRadio(w.list[i])
  }

  ghost predicate FirstToReplace(w: World, own: ChanCtx?, onRadio: ChanCtx -> bool, p: ChanCtx) {
    if MayReplace(w, own) then p == own
    else exists i | 0 <= i < |w.list| ::
           w.list[i] == p && MayReplace(w, p) && onRadio(p) && forall j | 0 <= j < i :: !(MayReplace(w, w.list[j]) && onRadio(w.list[j]))
  }

  // The origin the code settles on: join, else add while there is room, else pair.
  ghost predicate Settles(o: Origin, ret: int, join: bool, room: bool, swap: bool, addErr: int) {
    if join then o == Joined && ret == 0
    else if room then ret == addErr && o == if ret == 0 then Added else Refused
    else if swap then o.Replacing? && ret == 0
    else o == Refused && ret == EBUSY
  }

  lemma ReserveObeys(w: World, l: Link, req: ChanReq, mode: Mode, radar: bool, fits: ChanCtx -> bool,
                     onRadio: ChanCtx -> bool, room: bool, addErr: int, ret: int, o: Origin, c: ChanCtx?, w': World)
    requires l in w.link && Settles(o, ret, CanJoin(w, mode, fits), room, CanReplace(w, w.link[l].chanctx, onRadio), addErr)
    requires if ret == 0 then c != null && w' == Reserved(w, l, o, c, req, radar) else w' == w
    requires ret == 0 ==> if o.Joined? then FirstToJoin(w, c, fits) else c !in w.list && c.mode == mode
    requires o.Replacing? ==> FirstToReplace(w, w.link[l].chanctx, onRadio, o.p)
    ensures ReserveLaw(w, l, req, mode, radar, fits, onRadio, room, addErr, ret, c, w')
  {
    hide MayJoin, MayReplace;
  }

  // ---------- taking a channel ----------

  /** A link without a context takes the first ordinary, shared context that fits, else a new one that
      is listed first; if that fails it keeps none, nothing else changes, and the request is recorded
      only if there was a context to try. */
  ghost predicate TakeLaw(w: World, l: Link, req: ChanReq, mode: Mode, fits: ChanCtx -> bool, radio: bool, addErr: int, drvErr: int,
                          ret: int, c: ChanCtx?, w': World)
    requires l in w.link
  {
    var v := w.link[l];
    var found := mode != EXCLUSIVE && exists d | d in w.list :: IsState(w, d, NONE) && d.mode != EXCLUSIVE && fits(d);
    && ret == (if found then drvErr else if !radio then EBUSY else if addErr != 0 then addErr else drvErr)
    && (ret == 0 ==>
          && c != null && OnlyLink(w, w', l, v.(chanctx := c, chanreq := req)) && w'.ctx == w.ctx[c := CtxV(NONE, null)]
          && if found then
               && w'.list == w.list
               && exists i | 0 <= i < |w.list| ::
                    && w.list[i] == c && IsState(w, c, NONE) && c.mode != EXCLUSIVE && fits(c)
                    && forall j | 0 <= j < i :: !(IsState(w, w.list[j], NONE) && w.list[j].mode != EXCLUSIVE && fits(w.list[j]))
             else c !in w.list && c.mode == mode && w'.list == [c] + w.list)
    && (ret != 0 ==>
          && w'.list == w.list && w'.ctx == w.ctx
          && OnlyLink(w, w', l, v.(radar := false, chanreq := if found || (radio && addErr == 0) then req else v.chanreq)))
  }

  lemma TakeObeys(w: World, l: Link, req: ChanReq, mode: Mode, fits: ChanCtx -> bool, radio: bool, addErr: int, drvErr: int,
                  reused: bool, ret: int, c: ChanCtx?, w': World)
    requires l in w.link && TookOrGaveUp(w, l, req, mode, fits, radio, addErr, drvErr, reused, ret, c, w')
    ensures TakeLaw(w, l, req, mode, fits, radio, addErr, drvErr, ret, c, w')
  {
    if ret == 0 && reused {
      assert forall i | 0 <= i < |w.list| :: w.list[i] in w.list;
    }
  }
}
