/**
 * The recordset methods of `pos.caisse.commande` in models/pos_livraison.py (lines 71-111, 149-168), run on the
 * table of orders as a value: each takes the orders and returns the new orders and the bus messages sent.
 * `Store.Db` applies them to its fields.
 */
module Orders {
  import opened Wrappers
  import opened Maps
  import opened Records
  import opened Progress
  import opened Events

  /** `self.filtered(keep)` on the order records `ids`. */
  function Filtered(ids: seq<CommandeId>, m: map<CommandeId, Commande>, keep: Commande -> bool): (r: seq<CommandeId>)
    requires forall id :: id in ids ==> id in m
    ensures forall c :: c in r <==> c in ids && keep(m[c])
    ensures Distinct(ids) ==> Distinct(r)
  {
    if ids == [] then []
    else
      var init, id := ids[..|ids| - 1], ids[|ids| - 1];
      assert Distinct(ids) ==> Distinct(init) && id !in init;
      Filtered(init, m, keep) + (if keep(m[id]) then [id] else [])
  }

  // ---------------------------------------------------------------------------
  // The overridden `write`
  // ---------------------------------------------------------------------------

  /** The orders after a `write` of `vals` on the records `ids`, record by record. */
  function WrittenAll(m: map<CommandeId, Commande>, ids: seq<CommandeId>, vals: CommandeVals, now: Time): (r: map<CommandeId, Commande>)
    requires forall id :: id in ids ==> id in m
    ensures r.Keys == m.Keys
    ensures forall c :: c in m ==> r[c].lastThreshold == m[c].lastThreshold && r[c].montantTotal == m[c].montantTotal
  {
    if ids == [] then m
    else
      var prev := WrittenAll(m, ids[..|ids| - 1], vals, now);
      var id := ids[|ids| - 1];
      prev[id := Written(prev[id], vals, now)]
  }

  /** On a duplicate-free recordset the write is applied once to each record of `ids` and to nothing else. */
  lemma {:induction false} WrittenAllAt(m: map<CommandeId, Commande>, ids: seq<CommandeId>, vals: CommandeVals, now: Time, c: CommandeId)
    requires Distinct(ids) && (forall id :: id in ids ==> id in m) && c in m
    ensures WrittenAll(m, ids, vals, now)[c] == if c in ids then Written(m[c], vals, now) else m[c]
  {
    if ids != [] {
      var init := ids[..|ids| - 1];
      assert forall id :: id in init ==> id in ids;
      WrittenAllAt(m, init, vals, now, c);
      WrittenAllAt(m, init, vals, now, ids[|ids| - 1]);
      assert ids == init + [ids[|ids| - 1]];
    }
  }

  /** The loop of the overridden `write` that compares each record's delivery state with the one it had before
      the write and sends a state event when they differ. */
  method StateNotifications(ids: seq<CommandeId>, before: map<CommandeId, Commande>, after: map<CommandeId, Commande>)
    returns (sent: seq<Event>)
    requires forall id :: id in ids ==> id in before && id in after
    ensures sent == StateEvents(ids, before, after)
  {
    sent := [];
    var k := 0;
    while k < |ids|
      invariant 0 <= k <= |ids|
      invariant sent == StateEvents(ids[..k], before, after)
    {
      var id := ids[k];
      assert ids[..k + 1] == ids[..k] + [id];
      StateEventsAppend(ids[..k], id, before, after);
      if after[id].etat != before[id].etat {
        sent := sent + [StateChanged(id, before[id].etat, after[id].etat)];
      }
      k := k + 1;
    }
    assert ids[..k] == ids;
  }

  // ---------------------------------------------------------------------------
  // `_update_state_from_progress`
  // ---------------------------------------------------------------------------

  /** The loop body of `_update_state_from_progress` on one record: each field assignment of the source is a
      one-record `write`, with the state event that write sends. */
  method UpdateRecord(id: CommandeId, rec: Commande, livre: real, now: Time) returns (r: Commande, sent: seq<Event>)
    ensures r == FromProgress(rec, livre, now)
    ensures sent == StateEvent(id, rec, r)
  {
    r, sent := rec, [];
    if rec.etat != Annulee {
      if livre == 0.0 {
        // the source's `continue`
      } else if 0.0 < livre < rec.montantTotal - Tol {
        r := Written(r, SetEtat(LivreePartielle), now);
        sent := StateEvent(id, rec, r);
      } else if Abs(livre - rec.montantTotal) <= Tol {
        r := Written(r, SetEtat(Livree), now);
        sent := StateEvent(id, rec, r);
        if r.state != NoState && r.state != Livre {
          var w := Written(r, SetState(Livre), now);
          sent := sent + StateEvent(id, r, w);
          r := w;
        }
        if r.dateComplete.None? {
          var w := Written(r, SetDate(Some(now)), now);
          sent := sent + StateEvent(id, r, w);
          r := w;
        }
      }
    }
  }

  /** The orders after `_update_state_from_progress` on the records `ids`, record by record. */
  function ProgressedAll(m: map<CommandeId, Commande>, ids: seq<CommandeId>, ls: seq<Livraison>, now: Time): (r: map<CommandeId, Commande>)
    requires forall id :: id in ids ==> id in m
    ensures r.Keys == m.Keys
  {
    if ids == [] then m
    else
      var prev := ProgressedAll(m, ids[..|ids| - 1], ls, now);
      var id := ids[|ids| - 1];
      prev[id := FromProgress(prev[id], Delivered(ls, id), now)]
  }

  /** On a duplicate-free recordset each record of `ids` gets the rule once, from its own delivered amount, and
      no other record changes. */
  lemma {:induction false} ProgressedAllAt(m: map<CommandeId, Commande>, ids: seq<CommandeId>, ls: seq<Livraison>, now: Time, c: CommandeId)
    requires Distinct(ids) && (forall id :: id in ids ==> id in m) && c in m
    ensures ProgressedAll(m, ids, ls, now)[c] == if c in ids then FromProgress(m[c], Delivered(ls, c), now) else m[c]
  {
    if ids != [] {
      var init := ids[..|ids| - 1];
      assert forall id :: id in init ==> id in ids;
      ProgressedAllAt(m, init, ls, now, c);
      ProgressedAllAt(m, init, ls, now, ids[|ids| - 1]);
      assert ids == init + [ids[|ids| - 1]];
    }
  }

  /** One iteration of `_update_state_from_progress`: the rule applied to record `ids[k]` extends both the orders
      and the state events from the first `k` records to the first `k + 1`. */
  lemma UpdateStep(m: map<CommandeId, Commande>, ids: seq<CommandeId>, k: nat, ls: seq<Livraison>, now: Time,
                   r: map<CommandeId, Commande>, o: Commande)
    requires Distinct(ids) && (forall id :: id in ids ==> id in m) && k < |ids|
    requires r == ProgressedAll(m, ids[..k], ls, now) && o == FromProgress(r[ids[k]], Delivered(ls, ids[k]), now)
    ensures r[ids[k] := o] == ProgressedAll(m, ids[..k + 1], ls, now)
    ensures StateEvents(ids[..k + 1], m, r[ids[k] := o]) == StateEvents(ids[..k], m, r) + StateEvent(ids[k], r[ids[k]], o)
  {
    PrefixStep(ids, k);
    ProgressedAllAt(m, ids[..k], ls, now, ids[k]);
    UpdateStepEvents(m, ids[..k], ids[k], r, o);
  }

  /** The state events of the first `k + 1` records, for a record `id` not among the first `k`. */
  lemma UpdateStepEvents(m: map<CommandeId, Commande>, pre: seq<CommandeId>, id: CommandeId,
                         r: map<CommandeId, Commande>, o: Commande)
    requires id !in pre && (forall j :: j in pre + [id] ==> j in m && j in r)
    ensures StateEvents(pre + [id], m, r[id := o]) == StateEvents(pre, m, r) + StateEvent(id, m[id], o)
  {
    StateEventsFrame(pre, m, r, r[id := o]);
    StateEventsAppend(pre, id, m, r[id := o]);
  }

  /** `_update_state_from_progress` on the records `ids`, given the deliveries `ls`. */
  method UpdateStates(ids: seq<CommandeId>, m: map<CommandeId, Commande>, ls: seq<Livraison>, now: Time)
    returns (r: map<CommandeId, Commande>, sent: seq<Event>)
    requires Distinct(ids) && forall id :: id in ids ==> id in m
    ensures r == ProgressedAll(m, ids, ls, now)
    ensures sent == StateEvents(ids, m, r)
  {
    r, sent := m, [];
    var k := 0;
    while k < |ids|
      invariant 0 <= k <= |ids|
      invariant forall id :: id in ids[..k] ==> id in m
      invariant r == ProgressedAll(m, ids[..k], ls, now)
      invariant sent == StateEvents(ids[..k], m, r)
    {
      var id := ids[k];
      var o, evs := UpdateRecord(id, r[id], Delivered(ls, id), now);
      UpdateStep(m, ids, k, ls, now, r, o);
      r, sent := r[id := o], sent + evs;
      k := k + 1;
    }
    assert ids[..k] == ids;
  }

  // ---------------------------------------------------------------------------
  // `_notify_progress_thresholds`
  // ---------------------------------------------------------------------------

  /** The loop body of `_notify_progress_thresholds` on one record at progress `prog`: for each milestone in
      ascending order, notify it and raise the watermark to it when the progress reached it above the watermark.
      The watermark is written without a delivery state, so that write sends no state event. */
  method NotifyRecord(id: CommandeId, rec: Commande, prog: Share) returns (r: Commande, sent: seq<Event>)
    ensures r == rec.(lastThreshold := NewWatermark(prog, rec.lastThreshold))
    ensures sent == MilestoneEvents(id, prog, Crossed(prog, rec.lastThreshold))
  {
    var thresholds := Thresholds;
    r, sent := rec, [];
    var k := 0;
    assert thresholds[..0] == [];
    while k < |thresholds|
      invariant 0 <= k <= |thresholds|
      invariant r == rec.(lastThreshold := Scan(prog, rec.lastThreshold, thresholds[..k]).0)
      invariant sent == MilestoneEvents(id, prog, Scan(prog, rec.lastThreshold, thresholds[..k]).1)
    {
      var t := thresholds[k];
      assert thresholds[..k + 1][..k] == thresholds[..k] && thresholds[..k + 1][k] == t;
      ghost var emitted := Scan(prog, rec.lastThreshold, thresholds[..k]).1;
      if Reaches(prog, t) && r.lastThreshold < t {
        assert (emitted + [t])[..|emitted|] == emitted;
        sent := sent + [Progress(id, prog, t)];
        r := r.(lastThreshold := t);
      }
      k := k + 1;
    }
    assert thresholds[..k] == Thresholds;
    ScanThresholds(prog, rec.lastThreshold);
  }

  /** Record `o` of order `c` after `_notify_progress_thresholds`: its watermark raised to the highest milestone
      its progress crossed. */
  function Watermarked(ls: seq<Livraison>, c: CommandeId, o: Commande): Commande {
    o.(lastThreshold := NewWatermark(OrderProgression(ls, c, o), o.lastThreshold))
  }

  /** The map after `f` is applied, record by record, to the records `ids`. */
  function UpdatedAll(m: map<CommandeId, Commande>, ids: seq<CommandeId>, f: (CommandeId, Commande) -> Commande): (r: map<CommandeId, Commande>)
    requires forall id :: id in ids ==> id in m
    ensures r.Keys == m.Keys
  {
    if ids == [] then m
    else
      var prev := UpdatedAll(m, ids[..|ids| - 1], f);
      var id := ids[|ids| - 1];
      prev[id := f(id, prev[id])]
  }

  /** On a duplicate-free recordset each record of `ids` is updated once and nothing else changes. */
  lemma {:induction false} UpdatedAllAt(m: map<CommandeId, Commande>, ids: seq<CommandeId>, f: (CommandeId, Commande) -> Commande, c: CommandeId)
    requires Distinct(ids) && (forall id :: id in ids ==> id in m) && c in m
    ensures UpdatedAll(m, ids, f)[c] == if c in ids then f(c, m[c]) else m[c]
  {
    if ids != [] {
      var init := ids[..|ids| - 1];
      assert forall id :: id in init ==> id in ids;
      UpdatedAllAt(m, init, f, c);
      UpdatedAllAt(m, init, f, ids[|ids| - 1]);
      assert ids == init + [ids[|ids| - 1]];
    }
  }

  /** The orders after `_notify_progress_thresholds` on the records `ids`, record by record. */
  function WatermarkedAll(m: map<CommandeId, Commande>, ids: seq<CommandeId>, ls: seq<Livraison>): (r: map<CommandeId, Commande>)
    requires forall id :: id in ids ==> id in m
    ensures r.Keys == m.Keys
  {
    UpdatedAll(m, ids, (id: CommandeId, o: Commande) => Watermarked(ls, id, o))
  }

  /** On a duplicate-free recordset the watermark of each record of `ids` is raised once and nothing else
      changes. */
  lemma WatermarkedAllAt(m: map<CommandeId, Commande>, ids: seq<CommandeId>, ls: seq<Livraison>, c: CommandeId)
    requires Distinct(ids) && (forall id :: id in ids ==> id in m) && c in m
    ensures WatermarkedAll(m, ids, ls)[c] == if c in ids then Watermarked(ls, c, m[c]) else m[c]
  {
    UpdatedAllAt(m, ids, (id: CommandeId, o: Commande) => Watermarked(ls, id, o), c);
  }

  /** One more record of `_notify_progress_thresholds`: record `ids[k]` is raised from its original value and its
      milestone events follow those of the earlier records. */
  lemma WatermarkedStep(m: map<CommandeId, Commande>, ids: seq<CommandeId>, k: nat, ls: seq<Livraison>)
    requires Distinct(ids) && (forall id :: id in ids ==> id in m) && k < |ids|
    ensures var prev := WatermarkedAll(m, ids[..k], ls);
            prev[ids[k]] == m[ids[k]]
            && WatermarkedAll(m, ids[..k + 1], ls) == prev[ids[k] := Watermarked(ls, ids[k], m[ids[k]])]
            && Milestones(ids[..k + 1], m, ls) == Milestones(ids[..k], m, ls) + OrderMilestones(ids[k], m[ids[k]], ls)
  {
    PrefixStep(ids, k);
    WatermarkedAllAt(m, ids[..k], ls, ids[k]);
    MilestonesAppend(ids[..k], ids[k], m, ls);
  }

  /** `_notify_progress_thresholds` on the records `ids`, given the deliveries `ls`. */
  method NotifyThresholds(ids: seq<CommandeId>, m: map<CommandeId, Commande>, ls: seq<Livraison>)
    returns (r: map<CommandeId, Commande>, sent: seq<Event>)
    requires Distinct(ids) && forall id :: id in ids ==> id in m
    ensures r == WatermarkedAll(m, ids, ls)
    ensures sent == Milestones(ids, m, ls)
  {
    r, sent := m, [];
    var k := 0;
    while k < |ids|
      invariant 0 <= k <= |ids|
      invariant forall id :: id in ids[..k] ==> id in m
      invariant r == WatermarkedAll(m, ids[..k], ls)
      invariant sent == Milestones(ids[..k], m, ls)
    {
      var id := ids[k];
      WatermarkedStep(m, ids, k, ls);
      var o, evs := NotifyRecord(id, r[id], OrderProgression(ls, id, r[id]));
      r := r[id := o];
      sent := sent + evs;
      k := k + 1;
    }
    assert ids[..k] == ids;
  }

  // ---------------------------------------------------------------------------
  // The follow-up of a delivery change
  // ---------------------------------------------------------------------------

  /** Both methods on the one record `c` make up one follow-up of `c`. */
  lemma FollowUpOne(c: CommandeId, m: map<CommandeId, Commande>, ls: seq<Livraison>, now: Time)
    requires c in m
    ensures var m1 := ProgressedAll(m, [c], ls, now);
            WatermarkedAll(m1, [c], ls) == m[c := Refreshed(m[c], Delivered(ls, c), now)]
            && StateEvents([c], m, m1) + Milestones([c], m1, ls) == RefreshEvents(c, m[c], Delivered(ls, c), now)
  {
    ProgressedSingle(c, m, ls, now);
    WatermarkedSingle(c, m, ls, now);
    FollowUpEventsSingle(c, m, ls, now);
  }

  lemma WatermarkedSingle(c: CommandeId, m: map<CommandeId, Commande>, ls: seq<Livraison>, now: Time)
    requires c in m
    ensures var m1 := m[c := FromProgress(m[c], Delivered(ls, c), now)];
            WatermarkedAll(m1, [c], ls) == m[c := Refreshed(m[c], Delivered(ls, c), now)]
  {
    var o1 := FromProgress(m[c], Delivered(ls, c), now);
    var m1 := m[c := o1];
    assert WatermarkedAll(m1, [c], ls) == m1[c := Watermarked(ls, c, o1)] by {
      assert [c][..0] == [];
      assert WatermarkedAll(m1, [], ls) == m1;
    }
    assert Watermarked(ls, c, o1) == Refreshed(m[c], Delivered(ls, c), now);
    UpdatedTwice(m, c, o1, Watermarked(ls, c, o1));
  }

  lemma FollowUpEventsSingle(c: CommandeId, m: map<CommandeId, Commande>, ls: seq<Livraison>, now: Time)
    requires c in m
    ensures var m1 := m[c := FromProgress(m[c], Delivered(ls, c), now)];
            StateEvents([c], m, m1) + Milestones([c], m1, ls) == RefreshEvents(c, m[c], Delivered(ls, c), now)
  {
    var o1 := FromProgress(m[c], Delivered(ls, c), now);
    var m1 := m[c := o1];
    StateEventsSingle(c, m, m1);
    MilestonesSingle(c, m1, ls);
    assert RefreshEvents(c, m[c], Delivered(ls, c), now) == StateEvent(c, m[c], o1) + OrderMilestones(c, o1, ls);
  }

  lemma StateEventsSingle(c: CommandeId, before: map<CommandeId, Commande>, after: map<CommandeId, Commande>)
    requires c in before && c in after
    ensures StateEvents([c], before, after) == StateEvent(c, before[c], after[c])
  {
    assert [c][..0] == [];
  }

  lemma MilestonesSingle(c: CommandeId, m: map<CommandeId, Commande>, ls: seq<Livraison>)
    requires c in m
    ensures Milestones([c], m, ls) == OrderMilestones(c, m[c], ls)
  {
    assert [c][..0] == [];
  }

  lemma ProgressedSingle(c: CommandeId, m: map<CommandeId, Commande>, ls: seq<Livraison>, now: Time)
    requires c in m
    ensures ProgressedAll(m, [c], ls, now) == m[c := FromProgress(m[c], Delivered(ls, c), now)]
  {
    assert [c][..0] == [];
    assert ProgressedAll(m, [], ls, now) == m;
  }

  /** The follow-up of one changed delivery of order `c`: `_update_state_from_progress` then
      `_notify_progress_thresholds` on the order. */
  method FollowUpOrder(c: CommandeId, m: map<CommandeId, Commande>, ls: seq<Livraison>, now: Time)
    returns (r: map<CommandeId, Commande>, sent: seq<Event>)
    requires c in m
    ensures r == m[c := Refreshed(m[c], Delivered(ls, c), now)]
    ensures sent == RefreshEvents(c, m[c], Delivered(ls, c), now)
  {
    var r1, e1 := UpdateStates([c], m, ls, now);
    var e2;
    r, e2 := NotifyThresholds([c], r1, ls);
    FollowUpOne(c, m, ls, now);
    sent := e1 + e2;
  }

  /** One more order of the follow-up loop: order `cs[k]` is refreshed from its current record, after the events
      of the earlier orders. */
  lemma FollowUpStep(m: map<CommandeId, Commande>, cs: seq<CommandeId>, k: nat, ls: seq<Livraison>, now: Time)
    requires (forall c :: c in cs ==> c in m) && k < |cs|
    ensures var prev, c := RefreshedAll(m, cs[..k], ls, now), cs[k];
            RefreshedAll(m, cs[..k + 1], ls, now) == prev[c := Refreshed(prev[c], Delivered(ls, c), now)]
            && FollowUpLog(m, cs[..k + 1], ls, now)
               == FollowUpLog(m, cs[..k], ls, now) + RefreshEvents(c, prev[c], Delivered(ls, c), now)
  {
    PrefixStep(cs, k);
    var next := cs[..k + 1];
    assert |next| == k + 1 && next[..k] == cs[..k] && next[k] == cs[k];
  }

  /** The loop of the delivery `write` over the changed deliveries, one order each (`cs`, repeats included):
      `_update_state_from_progress` then `_notify_progress_thresholds` on that order (see `FollowUpLogDedup` for
      the events). */
  method FollowUps(cs: seq<CommandeId>, m: map<CommandeId, Commande>, ls: seq<Livraison>, now: Time)
    returns (r: map<CommandeId, Commande>, sent: seq<Event>)
    requires forall c :: c in cs ==> c in m
    ensures r == RefreshedAll(m, cs, ls, now)
    ensures sent == FollowUpLog(m, cs, ls, now)
  {
    r, sent := m, [];
    var k := 0;
    while k < |cs|
      invariant 0 <= k <= |cs|
      invariant forall c :: c in cs[..k] ==> c in m
      invariant r == RefreshedAll(m, cs[..k], ls, now)
      invariant sent == FollowUpLog(m, cs[..k], ls, now)
    {
      var c := cs[k];
      FollowUpStep(m, cs, k, ls, now);
      var r2, evs := FollowUpOrder(c, r, ls, now);
      r := r2;
      sent := sent + evs;
      k := k + 1;
    }
    assert cs[..k] == cs;
  }

  // ---------------------------------------------------------------------------
  // `action_start_livraison`, `action_complete_livraison`, `unlink`
  // ---------------------------------------------------------------------------

  predicate Queued(o: Commande) {
    o.etat == EnQueue
  }

  predicate PromotableRecord(o: Commande) {
    Promotable(o.state)
  }

  /** The values written by `action_complete_livraison`: `livree` and the completion date `now`. */
  function CompleteVals(now: Time): CommandeVals {
    CommandeVals(Some(Livree), None, Some(Some(now)))
  }

  /** `action_start_livraison`: writing `en_cours` on the queued records of `ids` moves exactly those to `en_cours`
      and leaves every other order as it was. */
  lemma StartedAt(m: map<CommandeId, Commande>, ids: seq<CommandeId>, now: Time, c: CommandeId)
    requires Distinct(ids) && (forall id :: id in ids ==> id in m) && c in m
    ensures WrittenAll(m, Filtered(ids, m, Queued), SetEtat(EnCours), now)[c]
            == if c in ids && m[c].etat == EnQueue then m[c].(etat := EnCours) else m[c]
  {
    WrittenAllAt(m, Filtered(ids, m, Queued), SetEtat(EnCours), now, c);
  }

  /** The orders with each record of `ids` completed, record by record. */
  function CompletedAll(m: map<CommandeId, Commande>, ids: seq<CommandeId>, now: Time): (r: map<CommandeId, Commande>)
    requires forall id :: id in ids ==> id in m
    ensures r.Keys == m.Keys
  {
    if ids == [] then m
    else
      var prev := CompletedAll(m, ids[..|ids| - 1], now);
      var id := ids[|ids| - 1];
      prev[id := Completed(prev[id], now)]
  }

  /** Completing twice is completing once, so every record of `ids` ends completed from its own value and no other
      order changes. */
  lemma {:induction false} CompletedAllAt(m: map<CommandeId, Commande>, ids: seq<CommandeId>, now: Time, c: CommandeId)
    requires (forall id :: id in ids ==> id in m) && c in m
    ensures CompletedAll(m, ids, now)[c] == if c in ids then Completed(m[c], now) else m[c]
  {
    if ids != [] {
      var init, d := ids[..|ids| - 1], ids[|ids| - 1];
      SplitLast(ids);
      CompletedAllAt(m, init, now, c);
    }
  }

  /** `action_complete_livraison` once the check has passed: the write of `livree` and `now` on `ids`, then the write
      of `livre` on the records whose base state is promotable, complete each record of `ids` and nothing else. */
  lemma CompletedWrites(m: map<CommandeId, Commande>, ids: seq<CommandeId>, now: Time)
    requires Distinct(ids) && forall id :: id in ids ==> id in m
    ensures var mid := WrittenAll(m, ids, CompleteVals(now), now);
            WrittenAll(mid, Filtered(ids, mid, PromotableRecord), SetState(Livre), now) == CompletedAll(m, ids, now)
  {
    var mid := WrittenAll(m, ids, CompleteVals(now), now);
    var fin := WrittenAll(mid, Filtered(ids, mid, PromotableRecord), SetState(Livre), now);
    forall c | c in m ensures fin[c] == CompletedAll(m, ids, now)[c] {
      WrittenAllAt(m, ids, CompleteVals(now), now, c);
      WrittenAllAt(mid, Filtered(ids, mid, PromotableRecord), SetState(Livre), now, c);
      CompletedAllAt(m, ids, now, c);
    }
  }

  /** The second write of `action_complete_livraison` writes no delivery state, so it sends no state event and
      leaves the events of the first write as they were. */
  lemma CompleteEvents(m: map<CommandeId, Commande>, ids: seq<CommandeId>, now: Time)
    requires Distinct(ids) && forall id :: id in ids ==> id in m
    ensures var mid := WrittenAll(m, ids, CompleteVals(now), now);
            var fin := WrittenAll(mid, Filtered(ids, mid, PromotableRecord), SetState(Livre), now);
            StateEvents(Filtered(ids, mid, PromotableRecord), mid, fin) == []
            && StateEvents(ids, m, mid) == StateEvents(ids, m, fin)
  {
    var mid := WrittenAll(m, ids, CompleteVals(now), now);
    var prom := Filtered(ids, mid, PromotableRecord);
    var fin := WrittenAll(mid, prom, SetState(Livre), now);
    forall id | id in mid ensures fin[id].etat == mid[id].etat {
      WrittenAllAt(mid, prom, SetState(Livre), now, id);
    }
    StateEventsNone(prom, mid, fin);
    StateEventsFrame(ids, m, mid, fin);
  }

  /** The check loop of `action_complete_livraison`: whether some record of `ids` has `livre + 0.01 < total`. */
  method AnyIncomplete(ids: seq<CommandeId>, m: map<CommandeId, Commande>, ls: seq<Livraison>) returns (found: bool)
    requires forall id :: id in ids ==> id in m
    ensures found <==> exists id :: id in ids && !Completable(Delivered(ls, id), m[id].montantTotal)
  {
    found := false;
    var k := 0;
    while k < |ids| && !found
      invariant 0 <= k <= |ids|
      invariant found <==> exists j :: 0 <= j < k && !Completable(Delivered(ls, ids[j]), m[ids[j]].montantTotal)
    {
      if Delivered(ls, ids[k]) + Tol < m[ids[k]].montantTotal {
        found := true;
      }
      k := k + 1;
    }
    assert found ==> exists j :: 0 <= j < |ids| && !Completable(Delivered(ls, ids[j]), m[ids[j]].montantTotal);
  }

  /** The check loop of `unlink`: whether some record of `ids` is `livree`. */
  method AnyDelivered(ids: seq<CommandeId>, m: map<CommandeId, Commande>) returns (found: bool)
    requires forall id :: id in ids ==> id in m
    ensures found <==> exists id :: id in ids && m[id].etat == Livree
  {
    found := false;
    var k := 0;
    while k < |ids| && !found
      invariant 0 <= k <= |ids|
      invariant found <==> exists j :: 0 <= j < k && m[ids[j]].etat == Livree
    {
      if m[ids[k]].etat == Livree {
        found := true;
      }
      k := k + 1;
    }
    assert found ==> exists j :: 0 <= j < |ids| && m[ids[j]].etat == Livree;
  }
}
