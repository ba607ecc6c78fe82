/**
 * The bus messages the order model pushes (models/pos_livraison.py:86-97, 149-168, 273-282), as functions of the
 * records before and after an operation. Transport is left out: publishing is appending to a log.
 */
module Events {
  import opened Wrappers
  import opened Records
  import opened Progress

  /** The thresholds carried by the `progress` events of order `c`, in log order. */
  function ProgressEvents(es: seq<Event>, c: CommandeId): seq<int> {
    if es == [] then []
    else
      var e := es[|es| - 1];
      ProgressEvents(es[..|es| - 1], c) + (if e.Progress? && e.commande == c then [e.seuil] else [])
  }

  lemma {:induction false} ProgressEventsAppend(a: seq<Event>, b: seq<Event>, c: CommandeId)
    ensures ProgressEvents(a + b, c) == ProgressEvents(a, c) + ProgressEvents(b, c)
  {
    if b == [] {
      assert a + b == a;
    } else {
      var init := b[..|b| - 1];
      assert (a + b)[..|a + b| - 1] == a + init;
      ProgressEventsAppend(a, init, c);
    }
  }

  /** A log without `progress` events adds no milestone to any order. */
  lemma {:induction false} ProgressEventsNone(es: seq<Event>, c: CommandeId)
    requires forall i :: 0 <= i < |es| ==> !es[i].Progress?
    ensures ProgressEvents(es, c) == []
  {
    if es != [] {
      ProgressEventsNone(es[..|es| - 1], c);
    }
  }

  /** An order that no event names has no milestone in the log. */
  lemma {:induction false} ProgressEventsNotMentioned(es: seq<Event>, c: CommandeId)
    requires forall i :: 0 <= i < |es| ==> es[i].commande != c
    ensures ProgressEvents(es, c) == []
  {
    if es != [] {
      ProgressEventsNotMentioned(es[..|es| - 1], c);
    }
  }

  /** The state event of order `id` is emitted only when its delivery state actually changed. */
  function StateEvent(id: CommandeId, before: Commande, after: Commande): seq<Event> {
    if before.etat != after.etat then [StateChanged(id, before.etat, after.etat)] else []
  }

  /** The state events of a write on the records `ids`, in recordset order. */
  function StateEvents(ids: seq<CommandeId>, before: map<CommandeId, Commande>, after: map<CommandeId, Commande>): (r: seq<Event>)
    requires forall id :: id in ids ==> id in before && id in after
    ensures forall i :: 0 <= i < |r| ==> r[i].StateChanged? && r[i].commande in ids && r[i].oldState != r[i].newState
  {
    if ids == [] then []
    else
      var id := ids[|ids| - 1];
      StateEvents(ids[..|ids| - 1], before, after) + StateEvent(id, before[id], after[id])
  }

  /** State events depend only on the delivery states before and after. */
  lemma {:induction false} StateEventsFrame(ids: seq<CommandeId>, before: map<CommandeId, Commande>,
                                            a: map<CommandeId, Commande>, b: map<CommandeId, Commande>)
    requires forall id :: id in ids ==> id in before && id in a && id in b && a[id].etat == b[id].etat
    ensures StateEvents(ids, before, a) == StateEvents(ids, before, b)
  {
    if ids != [] {
      StateEventsFrame(ids[..|ids| - 1], before, a, b);
    }
  }

  /** A write that changes no delivery state emits no state event. */
  lemma {:induction false} StateEventsNone(ids: seq<CommandeId>, before: map<CommandeId, Commande>, after: map<CommandeId, Commande>)
    requires forall id :: id in ids ==> id in before && id in after && before[id].etat == after[id].etat
    ensures StateEvents(ids, before, after) == []
  {
    if ids != [] {
      StateEventsNone(ids[..|ids| - 1], before, after);
    }
  }

  lemma StateEventsAppend(ids: seq<CommandeId>, id: CommandeId, before: map<CommandeId, Commande>, after: map<CommandeId, Commande>)
    requires forall j :: j in ids + [id] ==> j in before && j in after
    ensures StateEvents(ids + [id], before, after) == StateEvents(ids, before, after) + StateEvent(id, before[id], after[id])
  {
    assert (ids + [id])[..|ids|] == ids;
  }

  /** One `progress` event per milestone in `ts`, for order `id` at progress `prog`. */
  function MilestoneEvents(id: CommandeId, prog: Share, ts: seq<int>): (r: seq<Event>)
    ensures |r| == |ts|
    ensures forall i :: 0 <= i < |r| ==> r[i] == Progress(id, prog, ts[i])
  {
    if ts == [] then [] else MilestoneEvents(id, prog, ts[..|ts| - 1]) + [Progress(id, prog, ts[|ts| - 1])]
  }

  lemma {:induction false} ProgressEventsOfMilestones(id: CommandeId, prog: Share, ts: seq<int>, c: CommandeId)
    ensures ProgressEvents(MilestoneEvents(id, prog, ts), c) == if c == id then ts else []
  {
    if ts != [] {
      var init := ts[..|ts| - 1];
      var es := MilestoneEvents(id, prog, ts);
      assert es[..|es| - 1] == MilestoneEvents(id, prog, init);
      ProgressEventsOfMilestones(id, prog, init, c);
      assert ts == init + [ts[|ts| - 1]];
    }
  }

  /** The milestone events of one order: those its progress crossed above its watermark. */
  function OrderMilestones(id: CommandeId, o: Commande, ls: seq<Livraison>): seq<Event> {
    var prog := OrderProgression(ls, id, o);
    MilestoneEvents(id, prog, Crossed(prog, o.lastThreshold))
  }

  /** The milestone events of `_notify_progress_thresholds` on the records `ids`, in recordset order. */
  function Milestones(ids: seq<CommandeId>, before: map<CommandeId, Commande>, ls: seq<Livraison>): (r: seq<Event>)
    requires forall id :: id in ids ==> id in before
    ensures forall i :: 0 <= i < |r| ==> r[i].Progress? && r[i].commande in ids
  {
    if ids == [] then []
    else
      var id := ids[|ids| - 1];
      Milestones(ids[..|ids| - 1], before, ls) + OrderMilestones(id, before[id], ls)
  }

  lemma MilestonesAppend(ids: seq<CommandeId>, id: CommandeId, before: map<CommandeId, Commande>, ls: seq<Livraison>)
    requires forall j :: j in ids + [id] ==> j in before
    ensures Milestones(ids + [id], before, ls) == Milestones(ids, before, ls) + OrderMilestones(id, before[id], ls)
  {
    assert (ids + [id])[..|ids|] == ids;
  }

  /** In the milestone events of a duplicate-free recordset, each order finds exactly its crossed milestones. */
  lemma {:induction false} ProgressEventsOfMilestoneRun(ids: seq<CommandeId>, before: map<CommandeId, Commande>,
                                                        ls: seq<Livraison>, c: CommandeId)
    requires Distinct(ids) && forall id :: id in ids ==> id in before
    ensures ProgressEvents(Milestones(ids, before, ls), c) ==
            if c in ids then Crossed(OrderProgression(ls, c, before[c]), before[c].lastThreshold) else []
  {
    if ids != [] {
      var init, id := ids[..|ids| - 1], ids[|ids| - 1];
      assert forall j :: j in init ==> j in ids;
      ProgressEventsOfMilestoneRun(init, before, ls, c);
      ProgressEventsAppend(Milestones(init, before, ls), OrderMilestones(id, before[id], ls), c);
      var prog := OrderProgression(ls, id, before[id]);
      ProgressEventsOfMilestones(id, prog, Crossed(prog, before[id].lastThreshold), c);
      assert c == id ==> c !in init;
    }
  }

  // ---------------------------------------------------------------------------
  // The follow-up of a delivery change: `_update_state_from_progress` then `_notify_progress_thresholds`
  // ---------------------------------------------------------------------------

  /** Order `o` after the follow-up, given its delivered amount. */
  function Refreshed(o: Commande, livre: real, now: Time): Commande {
    var o1 := FromProgress(o, livre, now);
    o1.(lastThreshold := NewWatermark(Share(livre, o1.montantTotal), o1.lastThreshold))
  }

  /** The events of the follow-up on order `id`: its state event, then its milestone events. */
  function RefreshEvents(id: CommandeId, o: Commande, livre: real, now: Time): (r: seq<Event>)
    ensures forall i :: 0 <= i < |r| ==> r[i].commande == id
  {
    var o1 := FromProgress(o, livre, now);
    var prog := Share(livre, o1.montantTotal);
    var st, ms := StateEvent(id, o, o1), MilestoneEvents(id, prog, Crossed(prog, o1.lastThreshold));
    assert forall i :: 0 <= i < |st| ==> st[i].commande == id;
    ConcatAbout(st, ms, id);
    st + ms
  }

  /** Two logs about order `id` only make one. */
  lemma ConcatAbout(a: seq<Event>, b: seq<Event>, id: CommandeId)
    requires forall i :: 0 <= i < |a| ==> a[i].commande == id
    requires forall i :: 0 <= i < |b| ==> b[i].commande == id
    ensures forall i :: 0 <= i < |a + b| ==> (a + b)[i].commande == id
  {
  }

  /** A second follow-up with the same deliveries, at any later time, changes nothing and emits nothing. */
  lemma RefreshIdempotent(id: CommandeId, o: Commande, livre: real, now: Time, later: Time)
    ensures Refreshed(Refreshed(o, livre, now), livre, later) == Refreshed(o, livre, now)
    ensures RefreshEvents(id, Refreshed(o, livre, now), livre, later) == []
  {
    var o1 := FromProgress(o, livre, now);
    var prog := Share(livre, o1.montantTotal);
    var w := NewWatermark(prog, o1.lastThreshold);
    var r := Refreshed(o, livre, now);
    assert r == o1.(lastThreshold := w);
    FromProgressIdempotent(o, livre, now, later);
    FromProgressWatermark(o1, livre, later, w);
    assert FromProgress(r, livre, later) == r;
    assert Crossed(prog, w) == [];
  }

  /** The orders of `cs` in order of first occurrence, each once. */
  function Dedup(cs: seq<CommandeId>): (r: seq<CommandeId>)
    ensures Distinct(r)
    ensures forall c :: c in r <==> c in cs
  {
    if cs == [] then []
    else
      var init := cs[..|cs| - 1];
      Dedup(init) + (if cs[|cs| - 1] in init then [] else [cs[|cs| - 1]])
  }

  /** The follow-up events of the distinct orders `ds`, each computed from its record in `m`. */
  function RefreshLog(ds: seq<CommandeId>, m: map<CommandeId, Commande>, ls: seq<Livraison>, now: Time): (r: seq<Event>)
    requires forall c :: c in ds ==> c in m
    ensures forall i :: 0 <= i < |r| ==> r[i].commande in ds
  {
    if ds == [] then []
    else
      var c := ds[|ds| - 1];
      RefreshLog(ds[..|ds| - 1], m, ls, now) + RefreshEvents(c, m[c], Delivered(ls, c), now)
  }

  lemma RefreshLogAppend(ds: seq<CommandeId>, c: CommandeId, m: map<CommandeId, Commande>, ls: seq<Livraison>, now: Time)
    requires forall d :: d in ds + [c] ==> d in m
    ensures RefreshLog(ds + [c], m, ls, now) == RefreshLog(ds, m, ls, now) + RefreshEvents(c, m[c], Delivered(ls, c), now)
  {
    assert (ds + [c])[..|ds|] == ds;
  }

  /** The follow-up of order `id` gives it exactly the milestones it crossed, and gives other orders none. */
  lemma ProgressEventsOfRefresh(id: CommandeId, o: Commande, livre: real, now: Time, c: CommandeId)
    ensures ProgressEvents(RefreshEvents(id, o, livre, now), c) ==
            if c == id then Crossed(Share(livre, o.montantTotal), o.lastThreshold) else []
  {
    var o1 := FromProgress(o, livre, now);
    var prog := Share(livre, o1.montantTotal);
    var st, ms := StateEvent(id, o, o1), MilestoneEvents(id, prog, Crossed(prog, o1.lastThreshold));
    ProgressEventsAppend(st, ms, c);
    ProgressEventsNone(st, c);
    ProgressEventsOfMilestones(id, prog, Crossed(prog, o1.lastThreshold), c);
  }

  /** In the follow-up events of distinct orders, each order finds exactly the milestones it crossed. */
  lemma {:induction false} ProgressEventsOfRefreshLog(ds: seq<CommandeId>, m: map<CommandeId, Commande>,
                                                      ls: seq<Livraison>, now: Time, c: CommandeId)
    requires Distinct(ds) && forall d :: d in ds ==> d in m
    ensures ProgressEvents(RefreshLog(ds, m, ls, now), c) ==
            if c in ds then Crossed(Share(Delivered(ls, c), m[c].montantTotal), m[c].lastThreshold) else []
  {
    if ds != [] {
      var init, d := ds[..|ds| - 1], ds[|ds| - 1];
      SplitLast(ds);
      ProgressEventsOfRefreshLog(init, m, ls, now, c);
      ProgressEventsAppend(RefreshLog(init, m, ls, now), RefreshEvents(d, m[d], Delivered(ls, d), now), c);
      ProgressEventsOfRefresh(d, m[d], Delivered(ls, d), now, c);
    }
  }

  /** The orders after the follow-up has run on each order of `cs` in turn (repeats included). */
  function RefreshedAll(m: map<CommandeId, Commande>, cs: seq<CommandeId>, ls: seq<Livraison>, now: Time): (r: map<CommandeId, Commande>)
    requires forall c :: c in cs ==> c in m
    ensures r.Keys == m.Keys
  {
    if cs == [] then m
    else
      var prev := RefreshedAll(m, cs[..|cs| - 1], ls, now);
      var c := cs[|cs| - 1];
      prev[c := Refreshed(prev[c], Delivered(ls, c), now)]
  }

  /** Each order of `cs` is refreshed as if once, however often it repeats; no other order changes. */
  lemma {:induction false} RefreshedAllAt(m: map<CommandeId, Commande>, cs: seq<CommandeId>, ls: seq<Livraison>, now: Time, c: CommandeId)
    requires (forall d :: d in cs ==> d in m) && c in m
    ensures RefreshedAll(m, cs, ls, now)[c] == if c in cs then Refreshed(m[c], Delivered(ls, c), now) else m[c]
  {
    if cs != [] {
      var init, d := cs[..|cs| - 1], cs[|cs| - 1];
      assert cs == init + [d];
      assert forall e :: e in init ==> e in cs;
      RefreshedAllAt(m, init, ls, now, c);
      if c == d {
        RefreshIdempotent(c, m[c], Delivered(ls, c), now, now);
      }
    }
  }

  /** The events of the follow-up run on each order of `cs` in turn, each from the order as the earlier runs left it. */
  function FollowUpLog(m: map<CommandeId, Commande>, cs: seq<CommandeId>, ls: seq<Livraison>, now: Time): seq<Event>
    requires forall c :: c in cs ==> c in m
  {
    if cs == [] then []
    else
      var init, c := cs[..|cs| - 1], cs[|cs| - 1];
      FollowUpLog(m, init, ls, now) + RefreshEvents(c, RefreshedAll(m, init, ls, now)[c], Delivered(ls, c), now)
  }

  /** A repeated order sends nothing more: the events of the follow-up runs are those of each distinct order once,
      in order of first occurrence, computed from the orders as they were before. */
  lemma {:induction false} FollowUpLogDedup(m: map<CommandeId, Commande>, cs: seq<CommandeId>, ls: seq<Livraison>, now: Time)
    requires forall c :: c in cs ==> c in m
    ensures FollowUpLog(m, cs, ls, now) == RefreshLog(Dedup(cs), m, ls, now)
  {
    if cs != [] {
      var init, c := cs[..|cs| - 1], cs[|cs| - 1];
      assert cs == init + [c];
      assert forall d :: d in init ==> d in cs;
      FollowUpLogDedup(m, init, ls, now);
      RefreshedAllAt(m, init, ls, now, c);
      var prev := RefreshedAll(m, init, ls, now);
      assert Dedup(cs) == Dedup(init) + (if c in init then [] else [c]);
      if c in init {
        RefreshIdempotent(c, m[c], Delivered(ls, c), now, now);
        assert RefreshEvents(c, prev[c], Delivered(ls, c), now) == [];
        assert Dedup(cs) == Dedup(init);
      } else {
        assert prev[c] == m[c];
        RefreshLogAppend(Dedup(init), c, m, ls, now);
      }
    }
  }

  /** The follow-up of a single order. */
  lemma FollowUpSingle(m: map<CommandeId, Commande>, c: CommandeId, ls: seq<Livraison>, now: Time)
    requires c in m
    ensures RefreshedAll(m, [c], ls, now) == m[c := Refreshed(m[c], Delivered(ls, c), now)]
    ensures FollowUpLog(m, [c], ls, now) == RefreshEvents(c, m[c], Delivered(ls, c), now)
  {
    assert [c][..0] == [];
    assert RefreshedAll(m, [], ls, now) == m;
    assert FollowUpLog(m, [], ls, now) == [];
  }
}
