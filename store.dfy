/**
 * The records of models/pos_livraison.py held in one store, and the methods of the source that change them.
 * Each method checks its guards before it changes anything, so a method that returns an error leaves the store
 * as it was (the transaction rollback of a `UserError`).
 */
module Store {
  import opened Wrappers
  import opened Maps
  import opened Records
  import opened Progress
  import opened Events
  import opened Sessions
  import opened Orders
  import opened Tables

  lemma {:induction false} WithoutOrdersIncreasing(ls: seq<Livraison>, gone: set<CommandeId>)
    requires IdsIncreasing(ls)
    ensures IdsIncreasing(WithoutOrders(ls, gone))
  {
    if ls != [] {
      var init, l := ls[..|ls| - 1], ls[|ls| - 1];
      assert IdsIncreasing(init);
      WithoutOrdersIncreasing(init, gone);
      var kept := WithoutOrders(init, gone);
      assert forall k :: 0 <= k < |init| ==> init[k].id < l.id;
      if l.commande.Some? && l.commande.value in gone {
        assert WithoutOrders(ls, gone) == kept;
      } else {
        assert WithoutOrders(ls, gone) == kept + [l];
        KeptBelow(init, kept, l.id);
        IncreasingAppend(kept, l);
      }
    }
  }

  /** Ids drawn from deliveries whose ids are all below `x` are below `x`. */
  lemma KeptBelow(ls: seq<Livraison>, kept: seq<Livraison>, x: LivraisonId)
    requires forall k :: 0 <= k < |ls| ==> ls[k].id < x
    requires forall i :: 0 <= i < |kept| ==> kept[i] in ls
    ensures forall i :: 0 <= i < |kept| ==> kept[i].id < x
  {
    forall i | 0 <= i < |kept| ensures kept[i].id < x {
      var k :| 0 <= k < |ls| && ls[k] == kept[i];
    }
  }

  lemma IncreasingAppend(ls: seq<Livraison>, l: Livraison)
    requires IdsIncreasing(ls) && forall i :: 0 <= i < |ls| ==> ls[i].id < l.id
    ensures IdsIncreasing(ls + [l])
  {
    forall i, j | 0 <= i < j < |ls + [l]| ensures (ls + [l])[i].id < (ls + [l])[j].id {
      if j == |ls| {
        assert (ls + [l])[j] == l && (ls + [l])[i] == ls[i];
      } else {
        assert (ls + [l])[j] == ls[j] && (ls + [l])[i] == ls[i];
      }
    }
  }

  /** Appending events that are not `progress` events leaves every order's milestone log as it was. */
  lemma ProgressEventsKept(es: seq<Event>, more: seq<Event>)
    requires forall i :: 0 <= i < |more| ==> !more[i].Progress?
    ensures forall c :: ProgressEvents(es + more, c) == ProgressEvents(es, c)
  {
    forall c ensures ProgressEvents(es + more, c) == ProgressEvents(es, c) {
      ProgressEventsAppend(es, more, c);
      ProgressEventsNone(more, c);
    }
  }

  /** A state event, with the watermark untouched, keeps the milestone logs. */
  lemma LogsAfterStateEvent(m: map<CommandeId, Commande>, next: CommandeId, es: seq<Event>, id: CommandeId, o: Commande)
    requires MilestoneLogs(m, next, es) && id in m && o.lastThreshold == m[id].lastThreshold
    ensures MilestoneLogs(m[id := o], next, es + StateEvent(id, m[id], o))
  {
    var ev := StateEvent(id, m[id], o);
    var m1 := m[id := o];
    ProgressEventsKept(es, ev);
    forall i | 0 <= i < |es + ev| ensures (es + ev)[i].commande < next {
      if i >= |es| { assert (es + ev)[i] == ev[i - |es|]; }
    }
    forall c | c in m1 ensures IsWatermark(m1[c].lastThreshold) && ProgressEvents(es + ev, c) == UpTo(m1[c].lastThreshold) {
      assert m1[c].lastThreshold == m[c].lastThreshold;
    }
  }

  /** A write on orders keeps the milestone logs: it sends only state events, about orders that exist. */
  lemma LogsAfterWrite(m: map<CommandeId, Commande>, next: CommandeId, es: seq<Event>, ids: seq<CommandeId>, vals: CommandeVals, now: Time)
    requires MilestoneLogs(m, next, es) && forall id :: id in ids ==> id in m
    ensures MilestoneLogs(WrittenAll(m, ids, vals, now), next, es + StateEvents(ids, m, WrittenAll(m, ids, vals, now)))
  {
    var m1 := WrittenAll(m, ids, vals, now);
    var ev := StateEvents(ids, m, m1);
    ProgressEventsKept(es, ev);
    forall i | 0 <= i < |es + ev| ensures (es + ev)[i].commande < next {
      if i >= |es| { assert (es + ev)[i] == ev[i - |es|]; }
    }
  }

  /** A follow-up keeps the milestone logs: each refreshed order gets exactly the milestones between its old and its
      new watermark, and the events name orders that exist. */
  lemma LogsAfterFollowUp(m: map<CommandeId, Commande>, next: CommandeId, es: seq<Event>, cs: seq<CommandeId>,
                          ls: seq<Livraison>, now: Time)
    requires MilestoneLogs(m, next, es) && forall c :: c in cs ==> c in m
    ensures MilestoneLogs(RefreshedAll(m, cs, ls, now), next, es + FollowUpLog(m, cs, ls, now))
  {
    FollowUpLogDedup(m, cs, ls, now);
    var ds := Dedup(cs);
    var log := RefreshLog(ds, m, ls, now);
    var m1 := RefreshedAll(m, cs, ls, now);
    forall i | 0 <= i < |es + log| ensures (es + log)[i].commande < next {
      if i >= |es| {
        assert (es + log)[i] == log[i - |es|];
      }
    }
    forall c | c in m1 ensures IsWatermark(m1[c].lastThreshold) && ProgressEvents(es + log, c) == UpTo(m1[c].lastThreshold) {
      RefreshedAllAt(m, cs, ls, now, c);
      ProgressEventsAppend(es, log, c);
      ProgressEventsOfRefreshLog(ds, m, ls, now, c);
      if c in cs {
        MilestoneLog(Share(Delivered(ls, c), m[c].montantTotal), m[c].lastThreshold);
      }
    }
  }

  /** Deleting the orders `gone`, with their deliveries, keeps the tables consistent. */
  lemma TablesAfterUnlink(orders: set<CommandeId>, ls: seq<Livraison>, nextL: LivraisonId, sessionCount: nat,
                          os: seq<Sortie>, gone: set<CommandeId>)
    requires TablesValid(orders, ls, nextL, sessionCount, os)
    ensures TablesValid(orders - gone, WithoutOrders(ls, gone), nextL, sessionCount, os)
  {
    WithoutOrdersIncreasing(ls, gone);
    var kept := WithoutOrders(ls, gone);
    forall l | l in kept && l.commande.Some? ensures l.commande.value in orders - gone {
      var i :| 0 <= i < |kept| && kept[i] == l;
    }
  }

  /** No order has been delivered more than its total plus the tolerance. */
  predicate WithinTotalsOf(m: map<CommandeId, Commande>, ls: seq<Livraison>) {
    forall c :: c in m ==> Delivered(ls, c) <= m[c].montantTotal + Tol
  }

  /** Replacing one order by a record with the same total keeps every order within its total. */
  lemma WithinAfterUpdate(m: map<CommandeId, Commande>, ls: seq<Livraison>, c: CommandeId, o: Commande)
    requires WithinTotalsOf(m, ls) && c in m && o.montantTotal == m[c].montantTotal
    ensures WithinTotalsOf(m[c := o], ls)
  {
  }

  /** The follow-up changes no order total, so it keeps every order within its total. */
  lemma WithinAfterRefresh(m: map<CommandeId, Commande>, cs: seq<CommandeId>, ls: seq<Livraison>, now: Time)
    requires WithinTotalsOf(m, ls) && forall c :: c in cs ==> c in m
    ensures WithinTotalsOf(RefreshedAll(m, cs, ls, now), ls)
  {
    forall c | c in m ensures RefreshedAll(m, cs, ls, now)[c].montantTotal == m[c].montantTotal {
      RefreshedAllAt(m, cs, ls, now, c);
    }
  }

  // ---------------------------------------------------------------------------
  // `create` of `pos.livraison.livraison`
  // ---------------------------------------------------------------------------

  /** The values given to `create`; `None` stands for a value not given. */
  datatype LivraisonVals = LivraisonVals(
    name: Option<string>,
    commande: Option<CommandeId>,
    session: Option<SessionId>,
    sessionAlias: Option<SessionId>,
    date: Time,
    montant: real,
    typePaiement: Option<TypePaiement>,
    livreur: Option<string>,
    livreurId: Option<UserId>,
    notes: Option<string>,
    isSortieStock: bool)

  /** The reference of a new record: the given name, unless absent or 'Nouveau', in which case the next number of
      the record's sequence (`reference`), or 'Nouveau' when the sequence gives none. */
  function RecordName(given: Option<string>, reference: Option<string>): (r: string)
    ensures given.Some? && given.value != "Nouveau" ==> r == given.value
    ensures (given.None? || given == Some("Nouveau")) ==> r == reference.GetOr("Nouveau")
  {
    if given.None? || given.value == "Nouveau" then reference.GetOr("Nouveau") else given.value
  }

  /** The session a new delivery is attached to when one is given: `session_id`, else the mobile alias
      `livraison_session_id`. `None` means the user's open session is used. */
  function ChosenSession(vals: LivraisonVals): Option<SessionId> {
    if vals.session.Some? then vals.session else vals.sessionAlias
  }

  /** Why `create` refuses `vals`, if it does: the cumulative amount would pass the order's total plus the tolerance
      (checked first), the order does not exist, or the given session does not exist. */
  function CreateError(vals: LivraisonVals, m: map<CommandeId, Commande>, ls: seq<Livraison>, sessionCount: nat): (r: Option<ModelError>)
    ensures r == Some(AboveTotal) <==>
              vals.commande.Some? && vals.commande.value in m
              && Delivered(ls, vals.commande.value) + vals.montant > m[vals.commande.value].montantTotal + Tol
    ensures r.None? <==>
              (vals.commande.Some? ==> vals.commande.value in m
                                       && Delivered(ls, vals.commande.value) + vals.montant <= m[vals.commande.value].montantTotal + Tol)
              && (ChosenSession(vals).Some? ==> ChosenSession(vals).value < sessionCount)
    ensures r.Some? ==> r.value == AboveTotal || r.value == MissingRecord
  {
    if vals.commande.Some? && vals.commande.value in m
       && Delivered(ls, vals.commande.value) + vals.montant > m[vals.commande.value].montantTotal + Tol
    then Some(AboveTotal)
    else if vals.commande.Some? && vals.commande.value !in m then Some(MissingRecord)
    else if ChosenSession(vals).Some? && ChosenSession(vals).value >= sessionCount then Some(MissingRecord)
    else None
  }

  /** The record `create` stores: its bag count computed from the amount and the configured bag price, its courier
      defaulting to the session's user. */
  function NewRecord(vals: LivraisonVals, id: LivraisonId, sid: SessionId, sessionUser: UserId,
                     reference: Option<string>, prixSac: real): (l: Livraison)
    ensures l.id == id && l.session == Some(sid) && l.commande == vals.commande && l.montant == vals.montant
    ensures l.prixSac == prixSac && l.typePaiement == vals.typePaiement
    ensures l.livreurId == Some(vals.livreurId.GetOr(sessionUser))
  {
    Livraison(id, RecordName(vals.name, reference), vals.commande, Some(sid), vals.date, vals.montant, prixSac,
              vals.typePaiement, vals.livreur, Some(vals.livreurId.GetOr(sessionUser)), vals.notes, vals.isSortieStock)
  }

  /** Appending a delivery with a fresh id, an existing session and an existing order keeps the tables consistent. */
  lemma TablesAfterCreate(orders: set<CommandeId>, ls: seq<Livraison>, nextL: LivraisonId, sessionCount: nat,
                          os: seq<Sortie>, l: Livraison)
    requires TablesValid(orders, ls, nextL, sessionCount, os)
    requires l.id == nextL && (l.session.Some? ==> l.session.value < sessionCount)
    requires l.commande.Some? ==> l.commande.value in orders
    ensures TablesValid(orders, ls + [l], nextL + 1, sessionCount, os)
  {
    forall i | 0 <= i < |ls + [l]|
      ensures (ls + [l])[i].id < nextL + 1 && ((ls + [l])[i].session.Some? ==> (ls + [l])[i].session.value < sessionCount)
    {
      if i < |ls| {
        assert (ls + [l])[i] == ls[i];
      }
    }
  }

  /** A delivery that passed the amount check keeps every order within its total. */
  lemma TotalsAfterCreate(m: map<CommandeId, Commande>, ls: seq<Livraison>, l: Livraison)
    requires l.commande.Some? ==> l.commande.value in m && Delivered(ls, l.commande.value) + l.montant <= m[l.commande.value].montantTotal + Tol
    ensures WithinTotalsOf(m, ls) ==> WithinTotalsOf(m, ls + [l])
  {
    forall c | c in m && Delivered(ls, c) <= m[c].montantTotal + Tol ensures Delivered(ls + [l], c) <= m[c].montantTotal + Tol {
      DeliveredAppend(ls, l, c);
    }
  }

  /** The follow-up of an order that is neither delivered nor cancelled, once its deliveries reach its total: it ends
      `livree` with a completion date, except for a zero total, where nothing was delivered and it is left as it was. */
  lemma RefreshedFull(o: Commande, now: Time)
    requires o.etat != Annulee && o.etat != Livree
    ensures var r := Refreshed(o, o.montantTotal, now);
            r.montantTotal == o.montantTotal
            && (r.etat == Livree ==> r.dateComplete.Some?)
            && (r.etat != Livree ==> o.montantTotal == 0.0 && r.etat == o.etat)
  {
  }

  /** The values `action_quick_full_deliver` gives to `create` for order `id`: the remaining amount `montant`, paid
      as the order `o` is, on the user's open session. */
  function QuickVals(id: CommandeId, o: Commande, montant: real, now: Time): LivraisonVals {
    LivraisonVals(None, Some(id), None, None, now, montant, Some(o.typePaiement), None, None, None, false)
  }

  /** The order at the end of `action_quick_full_deliver`: its follow-up once its whole total is delivered, then its
      completion when that left it fully delivered (within the tolerance) but not `livree`. */
  function QuickDelivered(o: Commande, now: Time): Commande {
    var r := Refreshed(o, o.montantTotal, now);
    if Abs(Remaining(r.montantTotal, o.montantTotal)) <= Tol && r.etat != Livree then Completed(r, now) else r
  }

  /** After the delivery of the remaining amount, the order ends `livree` with a completion date: either its follow-up
      made it so, or the completion that follows does. */
  lemma QuickDeliverEnds(o: Commande, now: Time)
    requires o.etat != Annulee && o.etat != Livree
    ensures var f := QuickDelivered(o, now);
            f.etat == Livree && f.dateComplete.Some? && f.montantTotal == o.montantTotal
  {
    RefreshedFull(o, now);
  }

  /** A `new_livraison` message about an existing order keeps the milestone logs. */
  lemma LogsAfterNewLivraison(m: map<CommandeId, Commande>, next: CommandeId, es: seq<Event>, ev: Event)
    requires MilestoneLogs(m, next, es) && ev.NewLivraison? && ev.commande in m
    ensures MilestoneLogs(m, next, es + [ev])
  {
    ProgressEventsKept(es, [ev]);
    forall i | 0 <= i < |es + [ev]| ensures (es + [ev])[i].commande < next {
      if i < |es| {
        assert (es + [ev])[i] == es[i];
      }
    }
  }

  // ---------------------------------------------------------------------------
  // `write` of `pos.livraison.livraison`
  // ---------------------------------------------------------------------------

  /** The values given to a delivery `write`; `None` leaves the field as it is. On an optional field, `Some(None)`
      writes a falsy value, which clears it. */
  datatype LivraisonPatch = LivraisonPatch(
    name: Option<string>,
    commande: Option<Option<CommandeId>>,
    session: Option<Option<SessionId>>,
    date: Option<Time>,
    montant: Option<real>,
    typePaiement: Option<Option<TypePaiement>>,
    livreur: Option<Option<string>>,
    livreurId: Option<Option<UserId>>,
    notes: Option<Option<string>>,
    isSortieStock: Option<bool>)

  /** One delivery after the write: every written field takes its new value and the others stay; a new amount
      recomputes the bag price snapshot (`_compute_prix_sac` depends on the amount) and the bag count. */
  function Patch(l: Livraison, p: LivraisonPatch, prixSac: real): (r: Livraison)
    ensures r.id == l.id
    ensures r.name == p.name.GetOr(l.name) && r.commande == p.commande.GetOr(l.commande)
    ensures r.session == p.session.GetOr(l.session) && r.date == p.date.GetOr(l.date)
    ensures r.montant == p.montant.GetOr(l.montant)
    ensures r.prixSac == if p.montant.Some? then prixSac else l.prixSac
    ensures r.typePaiement == p.typePaiement.GetOr(l.typePaiement) && r.notes == p.notes.GetOr(l.notes)
    ensures r.livreur == p.livreur.GetOr(l.livreur) && r.livreurId == p.livreurId.GetOr(l.livreurId)
    ensures r.isSortieStock == p.isSortieStock.GetOr(l.isSortieStock)
  {
    Livraison(l.id, p.name.GetOr(l.name), p.commande.GetOr(l.commande), p.session.GetOr(l.session),
              p.date.GetOr(l.date), p.montant.GetOr(l.montant), if p.montant.Some? then prixSac else l.prixSac,
              p.typePaiement.GetOr(l.typePaiement), p.livreur.GetOr(l.livreur), p.livreurId.GetOr(l.livreurId),
              p.notes.GetOr(l.notes), p.isSortieStock.GetOr(l.isSortieStock))
  }

  /** The session a write attaches its deliveries to: `session_id` when it is written and truthy. Only that one is
      checked against closed sessions. */
  function AttachedSession(p: LivraisonPatch): (r: Option<SessionId>)
    ensures r.Some? <==> p.session.Some? && p.session.value.Some?
    ensures r.Some? ==> p.session == Some(r)
  {
    if p.session.Some? then p.session.value else None
  }

  /** The delivery table after the write on the deliveries whose ids are in `ids`. */
  function Patched(ls: seq<Livraison>, ids: set<LivraisonId>, p: LivraisonPatch, prixSac: real): (r: seq<Livraison>)
    ensures |r| == |ls|
    ensures forall i :: 0 <= i < |ls| ==> r[i] == if ls[i].id in ids then Patch(ls[i], p, prixSac) else ls[i]
  {
    if ls == [] then []
    else
      var l := ls[|ls| - 1];
      Patched(ls[..|ls| - 1], ids, p, prixSac) + [if l.id in ids then Patch(l, p, prixSac) else l]
  }

  /** The delivery with id `lid`, if there is one. */
  function Find(ls: seq<Livraison>, lid: LivraisonId): (r: Option<Livraison>)
    ensures r.Some? ==> r.value in ls && r.value.id == lid
    ensures r.None? <==> forall i :: 0 <= i < |ls| ==> ls[i].id != lid
  {
    if ls == [] then None
    else if ls[|ls| - 1].id == lid then Some(ls[|ls| - 1])
    else Find(ls[..|ls| - 1], lid)
  }

  /** The orders of the deliveries `lids`, in recordset order: the loop `for rec in self: if rec.commande_id`. */
  function OrdersOf(ls: seq<Livraison>, lids: seq<LivraisonId>): (r: seq<CommandeId>)
    ensures forall c :: c in r <==> exists i :: 0 <= i < |lids| && Find(ls, lids[i]).Some?
                                                && Find(ls, lids[i]).value.commande == Some(c)
  {
    if lids == [] then []
    else
      var found := Find(ls, lids[|lids| - 1]);
      OrdersOf(ls, lids[..|lids| - 1]) + (if found.Some? && found.value.commande.Some? then [found.value.commande.value] else [])
  }

  /** The write keeps ids and orders and moves deliveries only to existing sessions, so the tables stay consistent. */
  lemma TablesAfterPatch(orders: set<CommandeId>, ls: seq<Livraison>, nextL: LivraisonId, sessionCount: nat,
                         os: seq<Sortie>, ids: set<LivraisonId>, p: LivraisonPatch, prixSac: real)
    requires TablesValid(orders, ls, nextL, sessionCount, os)
    requires AttachedSession(p).Some? ==> AttachedSession(p).value < sessionCount
    requires p.commande.Some? && p.commande.value.Some? ==> p.commande.value.value in orders
    ensures TablesValid(orders, Patched(ls, ids, p, prixSac), nextL, sessionCount, os)
  {
    var r := Patched(ls, ids, p, prixSac);
    forall l | l in r && l.commande.Some? ensures l.commande.value in orders {
      var i :| 0 <= i < |r| && r[i] == l;
      assert ls[i] in ls;
    }
  }

  /** Every order a consistent table's deliveries point to exists. */
  lemma OrdersKnown(orders: set<CommandeId>, ls: seq<Livraison>, nextL: LivraisonId, sessionCount: nat,
                    os: seq<Sortie>, lids: seq<LivraisonId>)
    requires TablesValid(orders, ls, nextL, sessionCount, os)
    ensures forall c :: c in OrdersOf(ls, lids) ==> c in orders
  {
    forall c | c in OrdersOf(ls, lids) ensures c in orders {
      var i :| 0 <= i < |lids| && Find(ls, lids[i]).Some? && Find(ls, lids[i]).value.commande == Some(c);
      assert Find(ls, lids[i]).value in ls;
    }
  }

  // ---------------------------------------------------------------------------
  // `create` of `pos.livraison.sortie.stock`
  // ---------------------------------------------------------------------------

  /** The values given to the withdrawal `create`. */
  datatype SortieVals = SortieVals(
    name: Option<string>,
    session: Option<SessionId>,
    date: Time,
    motif: string,
    quantiteSacs: real,
    typeSortie: TypeSortie,
    responsable: Option<string>,
    notes: Option<string>)

  /** The write of a single record sends its state event, if any. */
  lemma SingleStateEvents(c: CommandeId, before: map<CommandeId, Commande>, after: map<CommandeId, Commande>)
    requires c in before && c in after
    ensures StateEvents([c], before, after) == StateEvent(c, before[c], after[c])
  {
    assert [c][..0] == [];
  }

  /** A single queued record is kept by the `en_queue` filter of `action_start_livraison`. */
  lemma SingleQueued(c: CommandeId, m: map<CommandeId, Commande>)
    requires c in m && m[c].etat == EnQueue
    ensures Filtered([c], m, Queued) == [c]
  {
    assert [c][..0] == [];
  }

  /** Completing a single record is updating it alone. */
  lemma SingleCompleted(c: CommandeId, m: map<CommandeId, Commande>, now: Time)
    requires c in m
    ensures CompletedAll(m, [c], now) == m[c := Completed(m[c], now)]
  {
    assert [c][..0] == [];
  }

    class Db {
    /** `pos.caisse.commande` with the delivery fields, by id. */
    var commandes: map<CommandeId, Commande>
    var nextCommande: CommandeId
    /** `pos.livraison.livraison`, in creation order. */
    var livraisons: seq<Livraison>
    var nextLivraison: LivraisonId
    /** `pos.livraison.session`; a session's id is its position. */
    var sessions: seq<Session>
    /** `pos.livraison.sortie.stock`, in creation order. */
    var sorties: seq<Sortie>
    /** Every bus message sent, in order. */
    var events: seq<Event>

    /** References resolve, ids are fresh, and each order's milestone log is exactly the milestones up to its
        watermark (see `MilestoneLogs`). */
    ghost predicate Valid()
      reads this
    {
      Consistent(commandes, nextCommande, livraisons, nextLivraison, |sessions|, sorties, events)
    }

    /** No order has been delivered more than its total plus the tolerance. */
    ghost predicate WithinTotals()
      reads this
    {
      WithinTotalsOf(commandes, livraisons)
    }

    constructor ()
      ensures Valid() && WithinTotals()
      ensures commandes == map[] && livraisons == [] && sessions == [] && sorties == [] && events == []
      ensures nextCommande == 1 && nextLivraison == 1
    {
      commandes, nextCommande := map[], 1;
      livraisons, nextLivraison := [], 1;
      sessions, sorties, events := [], [], [];
    }

    /** An order as the parent model creates it, with this module's defaults: `en_queue`, priority '0' unless
        given, no completion date, watermark 0. */
    method CreateCommande(total: real, priority: Priority, state: BaseState, typePaiement: TypePaiement, now: Time)
      returns (id: CommandeId)
      requires Valid()
      modifies this`commandes, this`nextCommande
      ensures Valid()
      ensures id == old(nextCommande) && id !in old(commandes)
      ensures nextCommande == id + 1
      ensures commandes == old(commandes)[id := Commande(total, EnQueue, priority, state, None, 0, typePaiement, now)]
    {
      id := nextCommande;
      ProgressEventsNotMentioned(events, id);
      commandes := commandes[id := Commande(total, EnQueue, priority, state, None, 0, typePaiement, now)];
      nextCommande := nextCommande + 1;
    }

    /** The overridden `write` on the orders `ids`: the values are stored, a record whose delivery state moved to
        `livree` gets base state `livre` (unless unset, `livre` or `annule`) and a completion date, and one state
        event is sent per record whose delivery state changed, in recordset order. */
    method WriteCommandes(ids: seq<CommandeId>, vals: CommandeVals, now: Time)
      requires Valid() && Distinct(ids) && forall id :: id in ids ==> id in commandes
      modifies this`commandes, this`events
      ensures Valid()
      ensures commandes == WrittenAll(old(commandes), ids, vals, now)
      ensures events == old(events) + StateEvents(ids, old(commandes), commandes)
    {
      var oldStates := commandes;
      commandes := WrittenAll(commandes, ids, vals, now);
      var sent := StateNotifications(ids, oldStates, commandes);
      LogsAfterWrite(oldStates, nextCommande, events, ids, vals, now);
      events := events + sent;
    }
  
    // -------------------------------------------------------------------------
    // Order methods
    // -------------------------------------------------------------------------

    /** The follow-up of a delivery change, for the orders `cs` in recordset order (repeats included):
        `_update_state_from_progress` then `_notify_progress_thresholds` on each. */
    method FollowUp(cs: seq<CommandeId>, now: Time)
      requires Valid() && forall c :: c in cs ==> c in commandes
      modifies this`commandes, this`events
      ensures Valid()
      ensures commandes == RefreshedAll(old(commandes), cs, livraisons, now)
      ensures events == old(events) + FollowUpLog(old(commandes), cs, livraisons, now)
      ensures livraisons == old(livraisons) && nextLivraison == old(nextLivraison) && sessions == old(sessions)
    {
      var r, sent := FollowUps(cs, commandes, livraisons, now);
      LogsAfterFollowUp(commandes, nextCommande, events, cs, livraisons, now);
      commandes, events := r, events + sent;
    }

    /** `action_start_livraison`: the queued records of `ids` move to `en_cours`; nothing else changes. */
    method ActionStartLivraison(ids: seq<CommandeId>, now: Time)
      requires Valid() && Distinct(ids) && forall id :: id in ids ==> id in commandes
      modifies this`commandes, this`events
      ensures Valid()
      ensures commandes.Keys == old(commandes).Keys
      ensures forall c :: c in commandes ==>
                commandes[c] == if c in ids && old(commandes)[c].etat == EnQueue then old(commandes)[c].(etat := EnCours)
                                else old(commandes)[c]
      ensures events == old(events) + StateEvents(Filtered(ids, old(commandes), Queued), old(commandes), commandes)
    {
      ghost var before := commandes;
      var queued := Filtered(ids, commandes, Queued);
      WriteCommandes(queued, SetEtat(EnCours), now);
      forall c | c in commandes
        ensures commandes[c] == if c in ids && before[c].etat == EnQueue then before[c].(etat := EnCours) else before[c]
      {
        StartedAt(before, ids, now, c);
      }
    }

    /** `action_complete_livraison`: refused, with nothing changed, when some record has `livre + 0.01 < total`;
        otherwise every record of `ids` is completed (see `Progress.Completed`) and one state event is sent per record
        whose delivery state changed. */
    method ActionCompleteLivraison(ids: seq<CommandeId>, now: Time) returns (res: Result<(), ModelError>)
      requires Valid() && Distinct(ids) && forall id :: id in ids ==> id in commandes
      modifies this`commandes, this`events
      ensures Valid()
      ensures res.Err? <==> exists id :: id in ids && !Completable(Delivered(livraisons, id), old(commandes)[id].montantTotal)
      ensures res.Err? ==> res.error == CannotComplete && commandes == old(commandes) && events == old(events)
      ensures res.Ok? ==> commandes == CompletedAll(old(commandes), ids, now)
      ensures res.Ok? ==> events == old(events) + StateEvents(ids, old(commandes), commandes)
    {
      var incomplete := AnyIncomplete(ids, commandes, livraisons);
      if incomplete {
        return Err(CannotComplete);
      }
      ghost var before, logged := commandes, events;
      WriteCommandes(ids, CompleteVals(now), now);
      var promotable := Filtered(ids, commandes, PromotableRecord);
      WriteCommandes(promotable, SetState(Livre), now);
      CompleteEvents(before, ids, now);
      CompletedWrites(before, ids, now);
      res := Ok(());
    }

    /** `unlink`: refused, with nothing changed, when some record of `ids` is `livree`; otherwise the orders and
        (`ondelete='cascade'`) their deliveries are deleted. */
    method Unlink(ids: seq<CommandeId>) returns (res: Result<(), ModelError>)
      requires Valid() && forall id :: id in ids ==> id in commandes
      modifies this`commandes, this`livraisons
      ensures Valid()
      ensures res.Err? <==> exists id :: id in ids && old(commandes)[id].etat == Livree
      ensures res.Err? ==> res.error == DeleteForbidden && commandes == old(commandes) && livraisons == old(livraisons)
      ensures res.Ok? ==> commandes == old(commandes) - Elems(ids) && livraisons == WithoutOrders(old(livraisons), Elems(ids))
      ensures old(WithinTotals()) ==> WithinTotals()
    {
      var delivered := AnyDelivered(ids, commandes);
      if delivered {
        return Err(DeleteForbidden);
      }
      ghost var ls := livraisons;
      TablesAfterUnlink(commandes.Keys, livraisons, nextLivraison, |sessions|, sorties, Elems(ids));
      commandes := commandes - Elems(ids);
      livraisons := WithoutOrders(livraisons, Elems(ids));
      assert commandes.Keys == old(commandes).Keys - Elems(ids);
      forall c | c in commandes ensures Delivered(livraisons, c) == Delivered(ls, c) {
        DeliveredWithoutOrders(ls, Elems(ids), c);
      }
      res := Ok(());
    }

    // -------------------------------------------------------------------------
    // Session methods
    // -------------------------------------------------------------------------

    /** `_ensure_open_for_user`: the user's latest open session, or a fresh open session `name` created at `now`. */
    method EnsureOpenForUser(uid: UserId, now: Time, name: string) returns (sid: SessionId)
      requires Valid()
      modifies this`sessions
      ensures Valid()
      ensures sid < |sessions| && OpenFor(sessions[sid], uid) && LatestOpen(sessions, uid) == Some(sid)
      ensures old(LatestOpen(sessions, uid)).Some? ==> sessions == old(sessions) && sid == old(LatestOpen(sessions, uid)).value
      ensures old(LatestOpen(sessions, uid)).None? ==>
                sessions == old(sessions) + [Session(name, now, None, uid, Ouvert)] && sid == old(|sessions|)
    {
      var found := LatestOpen(sessions, uid);
      if found.Some? {
        return found.value;
      }
      var s := Session(name, now, None, uid, Ouvert);
      LatestOpenAfterCreate(sessions, uid, s);
      sid := |sessions|;
      sessions := sessions + [s];
    }

    /** `action_open_session`: the session is open again and its closing date cleared. */
    method OpenSession(sid: SessionId)
      requires Valid() && sid < |sessions|
      modifies this`sessions
      ensures Valid()
      ensures sessions == old(sessions)[sid := old(sessions)[sid].(state := Ouvert, dateCloture := None)]
      ensures LatestOpen(sessions, sessions[sid].user).Some?
    {
      sessions := sessions[sid := sessions[sid].(state := Ouvert, dateCloture := None)];
      assert OpenFor(sessions[sid], sessions[sid].user);
    }

    /** `action_close_session`: the session is closed at `now`. */
    method CloseSession(sid: SessionId, now: Time)
      requires Valid() && sid < |sessions|
      modifies this`sessions
      ensures Valid()
      ensures sessions == old(sessions)[sid := old(sessions)[sid].(state := Ferme, dateCloture := Some(now))]
    {
      sessions := sessions[sid := sessions[sid].(state := Ferme, dateCloture := Some(now))];
    }

    // -------------------------------------------------------------------------
    // Delivery and withdrawal methods
    // -------------------------------------------------------------------------

    /** Stores a new delivery with the next id, on an existing session and for an existing order if any. */
    method AppendLivraison(l: Livraison)
      requires Valid() && l.id == nextLivraison && (l.session.Some? ==> l.session.value < |sessions|)
      requires l.commande.Some? ==> l.commande.value in commandes
      modifies this`livraisons, this`nextLivraison
      ensures Valid()
      ensures livraisons == old(livraisons) + [l] && nextLivraison == old(nextLivraison) + 1
      ensures commandes == old(commandes) && events == old(events) && sessions == old(sessions)
    {
      TablesAfterCreate(commandes.Keys, livraisons, nextLivraison, |sessions|, sorties, l);
      livraisons := livraisons + [l];
      nextLivraison := nextLivraison + 1;
    }

    /** What `create` does for the order of a new delivery: the `new_livraison` message with the order's new
        progress and old state, then the follow-up of the order. */
    method NotifyNewLivraison(c: CommandeId, id: LivraisonId, montant: real, now: Time)
      requires Valid() && c in commandes
      modifies this`commandes, this`events
      ensures Valid()
      ensures commandes == old(commandes)[c := Refreshed(old(commandes)[c], Delivered(livraisons, c), now)]
      ensures events == old(events)
                        + [NewLivraison(c, id, montant, OrderProgression(livraisons, c, old(commandes)[c]), old(commandes)[c].etat)]
                        + RefreshEvents(c, old(commandes)[c], Delivered(livraisons, c), now)
      ensures livraisons == old(livraisons) && nextLivraison == old(nextLivraison) && sessions == old(sessions)
      ensures WithinTotalsOf(old(commandes), livraisons) ==> WithinTotals()
    {
      var ev := NewLivraison(c, id, montant, OrderProgression(livraisons, c, commandes[c]), commandes[c].etat);
      LogsAfterNewLivraison(commandes, nextCommande, events, ev);
      events := events + [ev];
      ghost var m := commandes;
      FollowUp([c], now);
      FollowUpSingle(m, c, livraisons, now);
      if WithinTotalsOf(m, livraisons) {
        WithinAfterRefresh(m, [c], livraisons, now);
      }
    }

    /** The session a new record is attached to: the given one, or else the user's open session, created if needed. */
    method SessionFor(chosen: Option<SessionId>, uid: UserId, now: Time, sessionName: string) returns (sid: SessionId)
      requires Valid() && (chosen.Some? ==> chosen.value < |sessions|)
      modifies this`sessions
      ensures Valid() && sid < |sessions|
      ensures chosen.Some? ==> sessions == old(sessions) && sid == chosen.value
      ensures chosen.None? ==> LatestOpen(sessions, uid) == Some(sid) && (old(LatestOpen(sessions, uid)).Some? ==> sessions == old(sessions))
    {
      if chosen.Some? {
        sid := chosen.value;
      } else {
        sid := EnsureOpenForUser(uid, now, sessionName);
      }
    }

    /** `create` of `pos.livraison.livraison` by user `uid`: refused, with nothing changed, when `CreateError` says so;
        otherwise the delivery is stored on the given session or the user's open one (created if needed), a
        `new_livraison` message is sent for its order with the order's new progress and old state, and the order
        gets its follow-up. */
    method CreateLivraison(vals: LivraisonVals, uid: UserId, now: Time, reference: Option<string>, sessionName: string,
                           prixSac: real) returns (res: Result<LivraisonId, ModelError>)
      requires Valid()
      modifies this`commandes, this`events, this`livraisons, this`nextLivraison, this`sessions
      ensures Valid()
      ensures res.Err? <==> CreateError(vals, old(commandes), old(livraisons), old(|sessions|)).Some?
      ensures res.Err? ==> res.error == CreateError(vals, old(commandes), old(livraisons), old(|sessions|)).value
      ensures res.Err? ==> commandes == old(commandes) && livraisons == old(livraisons) && sessions == old(sessions)
                           && events == old(events) && nextLivraison == old(nextLivraison)
      ensures res.Ok? ==> res.value == old(nextLivraison) && nextLivraison == old(nextLivraison) + 1
      ensures res.Ok? ==> |livraisons| == old(|livraisons|) + 1
      ensures res.Ok? ==> var l := livraisons[|livraisons| - 1];
                          livraisons == old(livraisons) + [l] && l.session.Some? && l.session.value < |sessions|
                          && l == NewRecord(vals, res.value, l.session.value, sessions[l.session.value].user, reference, prixSac)
      ensures res.Ok? && ChosenSession(vals).Some? ==>
                sessions == old(sessions) && livraisons[|livraisons| - 1].session == ChosenSession(vals)
      ensures res.Ok? && ChosenSession(vals).None? ==>
                LatestOpen(sessions, uid) == livraisons[|livraisons| - 1].session
                && (old(LatestOpen(sessions, uid)).Some? ==> sessions == old(sessions))
      ensures res.Ok? && vals.commande.None? ==> commandes == old(commandes) && events == old(events)
      ensures res.Ok? && vals.commande.Some? ==>
                var c := vals.commande.value;
                c in old(commandes)
                && commandes == old(commandes)[c := Refreshed(old(commandes)[c], Delivered(livraisons, c), now)]
                && events == old(events)
                             + [NewLivraison(c, res.value, vals.montant, OrderProgression(livraisons, c, old(commandes)[c]),
                                             old(commandes)[c].etat)]
                             + RefreshEvents(c, old(commandes)[c], Delivered(livraisons, c), now)
      ensures old(WithinTotals()) ==> WithinTotals()
    {
      var err := CreateError(vals, commandes, livraisons, |sessions|);
      if err.Some? {
        return Err(err.value);
      }
      var sid := SessionFor(ChosenSession(vals), uid, now, sessionName);
      var id := nextLivraison;
      var l := NewRecord(vals, id, sid, sessions[sid].user, reference, prixSac);
      TotalsAfterCreate(commandes, livraisons, l);
      AppendLivraison(l);
      if vals.commande.Some? {
        NotifyNewLivraison(vals.commande.value, id, vals.montant, now);
      }
      res := Ok(id);
    }

    /** `action_quick_full_deliver` by user `uid`: refused when the order is `livree` or `annulee` or nothing remains;
        otherwise a delivery of the remaining amount, paid as the order is, is created, and the order is completed if
        it is then fully delivered but not yet `livree`. The order always ends `livree` with a completion date. */
    method QuickFullDeliver(id: CommandeId, uid: UserId, now: Time, reference: Option<string>, sessionName: string,
                            prixSac: real) returns (res: Result<LivraisonId, ModelError>)
      requires Valid() && id in commandes
      modifies this`commandes, this`events, this`livraisons, this`nextLivraison, this`sessions
      ensures Valid()
      ensures old(commandes[id].etat) == Livree || old(commandes[id].etat) == Annulee ==> res == Err(AlreadyFinal)
      ensures (old(commandes[id].etat) != Livree && old(commandes[id].etat) != Annulee
               && Remaining(old(commandes[id].montantTotal), old(Delivered(livraisons, id))) <= 0.0) ==> res == Err(NothingToDeliver)
      ensures res.Err? ==> commandes == old(commandes) && livraisons == old(livraisons) && events == old(events)
                           && sessions == old(sessions) && nextLivraison == old(nextLivraison)
      ensures res.Ok? <==> old(commandes[id].etat) != Livree && old(commandes[id].etat) != Annulee
                           && Remaining(old(commandes[id].montantTotal), old(Delivered(livraisons, id))) > 0.0
      ensures res.Ok? ==> |livraisons| == old(|livraisons|) + 1 && livraisons == old(livraisons) + [livraisons[|livraisons| - 1]]
      ensures res.Ok? ==> livraisons[|livraisons| - 1].commande == Some(id)
                          && livraisons[|livraisons| - 1].montant == old(Remaining(commandes[id].montantTotal, Delivered(livraisons, id)))
      ensures res.Ok? ==> QuickRecord(res.value, id, old(commandes)[id], old(Remaining(commandes[id].montantTotal, Delivered(livraisons, id))),
                                      uid, now, reference, prixSac, old(nextLivraison), old(LatestOpen(sessions, uid)), old(sessions))
      ensures res.Ok? ==> id in commandes && Delivered(livraisons, id) == commandes[id].montantTotal
      ensures res.Ok? ==> commandes[id].etat == Livree && commandes[id].dateComplete.Some?
      ensures res.Ok? ==> commandes == old(commandes)[id := QuickDelivered(old(commandes)[id], now)]
      ensures res.Ok? ==> var o := old(commandes)[id];
                          events == old(events)
                                    + [NewLivraison(id, res.value, old(Remaining(commandes[id].montantTotal, Delivered(livraisons, id))),
                                                    OrderProgression(livraisons, id, o), o.etat)]
                                    + RefreshEvents(id, o, Delivered(livraisons, id), now)
                                    + StateEvent(id, Refreshed(o, o.montantTotal, now), QuickDelivered(o, now))
      ensures old(WithinTotals()) ==> WithinTotals()
    {
      var o := commandes[id];
      if o.etat == Livree || o.etat == Annulee {
        return Err(AlreadyFinal);
      }
      var montant := Remaining(o.montantTotal, Delivered(livraisons, id));
      if montant <= 0.0 {
        return Err(NothingToDeliver);
      }
      res := DeliverAndComplete(id, uid, now, reference, sessionName, prixSac);
    }

    /** The writes of `action_quick_full_deliver` once its checks have passed. */
    method DeliverAndComplete(id: CommandeId, uid: UserId, now: Time, reference: Option<string>, sessionName: string,
                              prixSac: real) returns (res: Result<LivraisonId, ModelError>)
      requires Valid() && id in commandes
      requires commandes[id].etat != Livree && commandes[id].etat != Annulee
      requires Remaining(commandes[id].montantTotal, Delivered(livraisons, id)) > 0.0
      modifies this`commandes, this`events, this`livraisons, this`nextLivraison, this`sessions
      ensures Valid() && res.Ok?
      ensures |livraisons| == old(|livraisons|) + 1 && livraisons == old(livraisons) + [livraisons[|livraisons| - 1]]
      ensures livraisons[|livraisons| - 1].commande == Some(id)
              && livraisons[|livraisons| - 1].montant == old(Remaining(commandes[id].montantTotal, Delivered(livraisons, id)))
      ensures QuickRecord(res.value, id, old(commandes)[id], old(Remaining(commandes[id].montantTotal, Delivered(livraisons, id))),
                          uid, now, reference, prixSac, old(nextLivraison), old(LatestOpen(sessions, uid)), old(sessions))
      ensures id in commandes && Delivered(livraisons, id) == commandes[id].montantTotal
      ensures commandes[id].etat == Livree && commandes[id].dateComplete.Some?
      ensures commandes == old(commandes)[id := QuickDelivered(old(commandes)[id], now)]
      ensures var o := old(commandes)[id];
              events == old(events)
                        + [NewLivraison(id, res.value, old(Remaining(commandes[id].montantTotal, Delivered(livraisons, id))),
                                        OrderProgression(livraisons, id, o), o.etat)]
                        + RefreshEvents(id, o, Delivered(livraisons, id), now)
                        + StateEvent(id, Refreshed(o, o.montantTotal, now), QuickDelivered(o, now))
      ensures old(WithinTotals()) ==> WithinTotals()
    {
      var o := commandes[id];
      res := DeliverRemaining(id, uid, now, reference, sessionName, prixSac);
      FinishQuick(id, o, now, old(commandes),
                  old(events) + [NewLivraison(id, res.value, old(Remaining(commandes[id].montantTotal, Delivered(livraisons, id))),
                                              OrderProgression(livraisons, id, o), o.etat)]
                  + RefreshEvents(id, o, Delivered(livraisons, id), now));
    }

    /** The record and sessions after the delivery of `action_quick_full_deliver` of order `id` (`o` before it) with
        amount `montant` got id `lid`: the next id, on the user's open session (created if there was none), with the
        values of `QuickVals`, and the sessions unchanged when the user had an open one (`open0`, `ss0`). */
    ghost predicate QuickRecord(lid: LivraisonId, id: CommandeId, o: Commande, montant: real, uid: UserId, now: Time,
                                reference: Option<string>, prixSac: real, next0: LivraisonId, open0: Option<SessionId>,
                                ss0: seq<Session>)
      reads this`livraisons, this`nextLivraison, this`sessions
    {
      |livraisons| > 0 && lid == next0 && nextLivraison == next0 + 1
      && var l := livraisons[|livraisons| - 1];
      l.session.Some? && l.session.value < |sessions|
      && l == NewRecord(QuickVals(id, o, montant, now), lid, l.session.value, sessions[l.session.value].user, reference, prixSac)
      && LatestOpen(sessions, uid) == l.session && (open0.Some? ==> sessions == ss0)
    }

    /** The delivery `action_quick_full_deliver` creates: the remaining amount of order `id`, paid as the order is.
        Its creation cannot be refused, and it leaves the order fully delivered and refreshed. */
    method DeliverRemaining(id: CommandeId, uid: UserId, now: Time, reference: Option<string>, sessionName: string,
                            prixSac: real) returns (res: Result<LivraisonId, ModelError>)
      requires Valid() && id in commandes
      requires commandes[id].etat != Livree && commandes[id].etat != Annulee
      requires Remaining(commandes[id].montantTotal, Delivered(livraisons, id)) > 0.0
      modifies this`commandes, this`events, this`livraisons, this`nextLivraison, this`sessions
      ensures Valid() && res.Ok?
      ensures |livraisons| == old(|livraisons|) + 1 && livraisons == old(livraisons) + [livraisons[|livraisons| - 1]]
      ensures livraisons[|livraisons| - 1].commande == Some(id)
              && livraisons[|livraisons| - 1].montant == old(Remaining(commandes[id].montantTotal, Delivered(livraisons, id)))
      ensures Delivered(livraisons, id) == commandes[id].montantTotal
      ensures QuickRecord(res.value, id, old(commandes)[id], old(Remaining(commandes[id].montantTotal, Delivered(livraisons, id))),
                          uid, now, reference, prixSac, old(nextLivraison), old(LatestOpen(sessions, uid)), old(sessions))
      ensures commandes == old(commandes)[id := Refreshed(old(commandes)[id], old(commandes)[id].montantTotal, now)]
      ensures var o := old(commandes)[id];
              events == old(events)
                        + [NewLivraison(id, res.value, old(Remaining(commandes[id].montantTotal, Delivered(livraisons, id))),
                                        OrderProgression(livraisons, id, o), o.etat)]
                        + RefreshEvents(id, o, Delivered(livraisons, id), now)
      ensures old(WithinTotals()) ==> WithinTotals()
    {
      var o := commandes[id];
      var montant := Remaining(o.montantTotal, Delivered(livraisons, id));
      var lid := CreateRemaining(id, montant, uid, now, reference, sessionName, prixSac);
      res := Ok(lid);
      ghost var l := livraisons[|livraisons| - 1];
      assert l.commande == Some(id) && l.montant == montant;
      DeliveredAppend(old(livraisons), l, id);
      assert Delivered(livraisons, id) == o.montantTotal;
    }

    /** The `create` call of `action_quick_full_deliver` for order `id` and amount `montant`, which pass the amount
        check: accepted, with the record of `QuickVals` on the user's open session, its message and the follow-up of
        the order. */
    method CreateRemaining(id: CommandeId, montant: real, uid: UserId, now: Time, reference: Option<string>,
                           sessionName: string, prixSac: real) returns (lid: LivraisonId)
      requires Valid() && id in commandes
      requires Delivered(livraisons, id) + montant <= commandes[id].montantTotal + Tol
      modifies this`commandes, this`events, this`livraisons, this`nextLivraison, this`sessions
      ensures Valid()
      ensures QuickRecord(lid, id, old(commandes)[id], montant, uid, now, reference, prixSac, old(nextLivraison),
                          old(LatestOpen(sessions, uid)), old(sessions))
      ensures livraisons == old(livraisons) + [livraisons[|livraisons| - 1]]
      ensures commandes == old(commandes)[id := Refreshed(old(commandes)[id], Delivered(livraisons, id), now)]
      ensures events == old(events)
                        + [NewLivraison(id, lid, montant, OrderProgression(livraisons, id, old(commandes)[id]), old(commandes)[id].etat)]
                        + RefreshEvents(id, old(commandes)[id], Delivered(livraisons, id), now)
      ensures old(WithinTotals()) ==> WithinTotals()
    {
      var vals := QuickVals(id, commandes[id], montant, now);
      assert CreateError(vals, commandes, livraisons, |sessions|).None?;
      var res := CreateLivraison(vals, uid, now, reference, sessionName, prixSac);
      assert res.Ok? && vals.commande == Some(id) && ChosenSession(vals).None?;
      lid := res.value;
    }

    /** `CompleteIfDelivered` on order `id` right after its remaining amount was delivered, `o` being the order
        before that delivery: the order becomes `QuickDelivered`. */
    method FinishQuick(id: CommandeId, o: Commande, now: Time, ghost before: map<CommandeId, Commande>,
                       ghost log: seq<Event>)
      requires Valid() && commandes == before[id := Refreshed(o, o.montantTotal, now)] && events == log
      requires Delivered(livraisons, id) == o.montantTotal && o.etat != Annulee && o.etat != Livree
      modifies this`commandes, this`events
      ensures Valid()
      ensures commandes == before[id := QuickDelivered(o, now)]
      ensures id in commandes && Delivered(livraisons, id) == commandes[id].montantTotal
      ensures commandes[id].etat == Livree && commandes[id].dateComplete.Some?
      ensures events == log + StateEvent(id, Refreshed(o, o.montantTotal, now), QuickDelivered(o, now))
      ensures livraisons == old(livraisons) && nextLivraison == old(nextLivraison) && sessions == old(sessions)
      ensures WithinTotalsOf(old(commandes), livraisons) ==> WithinTotals()
    {
      ghost var r := commandes[id];
      assert r.montantTotal == o.montantTotal;
      CompleteIfDelivered(id, now);
      if Abs(Remaining(r.montantTotal, o.montantTotal)) <= Tol && r.etat != Livree {
        assert QuickDelivered(o, now) == Completed(r, now);
      } else {
        assert QuickDelivered(o, now) == r;
      }
      QuickDeliverEnds(o, now);
      UpdatedTwice(before, id, r, QuickDelivered(o, now));
    }

    /** The end of `action_quick_full_deliver`: when the order is fully delivered (within the tolerance) but not
        `livree`, `action_complete_livraison` runs on it, and its check passes. */
    method CompleteIfDelivered(id: CommandeId, now: Time)
      requires Valid() && id in commandes
      modifies this`commandes, this`events
      ensures Valid()
      ensures Abs(Remaining(old(commandes)[id].montantTotal, Delivered(livraisons, id))) <= Tol && old(commandes)[id].etat != Livree ==>
                commandes == old(commandes)[id := Completed(old(commandes)[id], now)]
                && events == old(events) + StateEvent(id, old(commandes)[id], commandes[id])
      ensures !(Abs(Remaining(old(commandes)[id].montantTotal, Delivered(livraisons, id))) <= Tol && old(commandes)[id].etat != Livree) ==>
                commandes == old(commandes) && events == old(events)
      ensures WithinTotalsOf(old(commandes), livraisons) ==> WithinTotals()
    {
      if Abs(Remaining(commandes[id].montantTotal, Delivered(livraisons, id))) <= Tol && commandes[id].etat != Livree {
        ghost var before := commandes;
        CompleteOne(id, now);
        if WithinTotalsOf(before, livraisons) {
          WithinAfterUpdate(before, livraisons, id, commandes[id]);
        }
      }
    }

    /** `action_complete_livraison` on order `c` alone, whose amount check passes: the order is completed, with
        its state event. */
    method CompleteOne(c: CommandeId, now: Time)
      requires Valid() && c in commandes && Completable(Delivered(livraisons, c), commandes[c].montantTotal)
      modifies this`commandes, this`events
      ensures Valid()
      ensures commandes == old(commandes)[c := Completed(old(commandes)[c], now)]
      ensures events == old(events) + StateEvent(c, old(commandes)[c], commandes[c])
    {
      ghost var before := commandes;
      var done := ActionCompleteLivraison([c], now);
      assert done.Ok? by {
        assert forall x :: x in [c] ==> x == c;
      }
      SingleCompleted(c, before, now);
      SingleStateEvents(c, before, commandes);
    }

    /** `action_start_livraison` on order `c` alone, which is `en_queue`: the order is started, with its state
        event. */
    method StartOne(c: CommandeId, now: Time)
      requires Valid() && c in commandes && commandes[c].etat == EnQueue
      modifies this`commandes, this`events
      ensures Valid()
      ensures commandes == old(commandes)[c := old(commandes)[c].(etat := EnCours)]
      ensures events == old(events) + StateEvent(c, old(commandes)[c], commandes[c])
    {
      ghost var before := commandes;
      SingleQueued(c, before);
      ActionStartLivraison([c], now);
      assert forall k :: k in [c] <==> k == c;
      OnlyChanged(commandes, before, c, before[c].(etat := EnCours));
      SingleStateEvents(c, before, commandes);
    }

    /** `write` of `pos.livraison.livraison` on the deliveries `lids`: refused, with nothing changed, when the patch
        moves them to a missing or closed session or to a missing order, or a delivery does not exist; otherwise the
        fields are written and the order of each written delivery, as it is after the write, gets its follow-up, in
        recordset order. The new amount is not checked against the order's total, and an order a delivery is moved
        away from gets no follow-up. */
    method WriteLivraisons(lids: seq<LivraisonId>, p: LivraisonPatch, now: Time, prixSac: real) returns (res: Result<(), ModelError>)
      requires Valid()
      modifies this`commandes, this`events, this`livraisons
      ensures Valid()
      ensures AttachedSession(p).Some? && AttachedSession(p).value >= |sessions| ==> res == Err(MissingRecord)
      ensures (AttachedSession(p).Some? && AttachedSession(p).value < |sessions|
               && sessions[AttachedSession(p).value].state == Ferme) ==> res == Err(ClosedSession)
      ensures res.Err? ==> commandes == old(commandes) && livraisons == old(livraisons) && events == old(events)
      ensures ((AttachedSession(p).Some? ==> AttachedSession(p).value < |sessions| && sessions[AttachedSession(p).value].state == Ouvert)
               && p.commande.Some? && p.commande.value.Some? && p.commande.value.value !in commandes)
              ==> res == Err(MissingRecord)
      ensures res.Ok? <==> (AttachedSession(p).Some? ==> AttachedSession(p).value < |sessions|
                                                          && sessions[AttachedSession(p).value].state == Ouvert)
                           && (forall lid :: lid in lids ==> Find(old(livraisons), lid).Some?)
                           && (p.commande.Some? && p.commande.value.Some? ==> p.commande.value.value in commandes)
      ensures res.Ok? ==> livraisons == Patched(old(livraisons), Elems(lids), p, prixSac)
      ensures res.Ok? ==> var cs := OrdersOf(livraisons, lids);
                          (forall c :: c in cs ==> c in old(commandes))
                          && commandes == RefreshedAll(old(commandes), cs, livraisons, now)
                          && events == old(events) + FollowUpLog(old(commandes), cs, livraisons, now)
    {
      var attached := AttachedSession(p);
      if attached.Some? {
        if attached.value >= |sessions| {
          return Err(MissingRecord);
        }
        if sessions[attached.value].state == Ferme {
          return Err(ClosedSession);
        }
      }
      var k := 0;
      while k < |lids|
        invariant 0 <= k <= |lids|
        invariant forall j :: 0 <= j < k ==> Find(livraisons, lids[j]).Some?
      {
        if Find(livraisons, lids[k]).None? {
          assert lids[k] in lids;
          return Err(MissingRecord);
        }
        k := k + 1;
      }
      if p.commande.Some? && p.commande.value.Some? && p.commande.value.value !in commandes {
        return Err(MissingRecord);
      }
      PatchAndFollowUp(lids, p, now, prixSac);
      res := Ok(());
    }

    /** The writes of an accepted delivery `write`: the fields, then the follow-up of the orders of the written
        deliveries. */
    method PatchAndFollowUp(lids: seq<LivraisonId>, p: LivraisonPatch, now: Time, prixSac: real)
      requires Valid() && (AttachedSession(p).Some? ==> AttachedSession(p).value < |sessions|)
      requires p.commande.Some? && p.commande.value.Some? ==> p.commande.value.value in commandes
      modifies this`commandes, this`events, this`livraisons
      ensures Valid()
      ensures livraisons == Patched(old(livraisons), Elems(lids), p, prixSac)
      ensures var cs := OrdersOf(livraisons, lids);
              (forall c :: c in cs ==> c in old(commandes))
              && commandes == RefreshedAll(old(commandes), cs, livraisons, now)
              && events == old(events) + FollowUpLog(old(commandes), cs, livraisons, now)
    {
      PatchOnly(lids, p, prixSac);
      FollowUp(OrdersOf(livraisons, lids), now);
    }

    /** The write itself of `write` on the records `lids`, before the follow-up of their orders, which all exist. */
    method PatchOnly(lids: seq<LivraisonId>, p: LivraisonPatch, prixSac: real)
      requires Valid() && (AttachedSession(p).Some? ==> AttachedSession(p).value < |sessions|)
      requires p.commande.Some? && p.commande.value.Some? ==> p.commande.value.value in commandes
      modifies this`livraisons
      ensures Valid()
      ensures livraisons == Patched(old(livraisons), Elems(lids), p, prixSac)
      ensures forall c :: c in OrdersOf(livraisons, lids) ==> c in commandes
    {
      TablesAfterPatch(commandes.Keys, livraisons, nextLivraison, |sessions|, sorties, Elems(lids), p, prixSac);
      livraisons := Patched(livraisons, Elems(lids), p, prixSac);
      OrdersKnown(commandes.Keys, livraisons, nextLivraison, |sessions|, sorties, lids);
    }

    /** `create` of `pos.livraison.sortie.stock` by user `uid`: stored on the given session or the user's open one
        (created if needed), with its weight computed from the configured bag weight. */
    method CreateSortie(vals: SortieVals, uid: UserId, now: Time, reference: Option<string>, sessionName: string,
                        poidsSac: real) returns (res: Result<nat, ModelError>)
      requires Valid()
      modifies this`sorties, this`sessions
      ensures Valid()
      ensures res.Err? <==> vals.session.Some? && vals.session.value >= old(|sessions|)
      ensures res.Err? ==> res.error == MissingRecord && sorties == old(sorties) && sessions == old(sessions)
      ensures res.Ok? ==> res.value == old(|sorties|) && |sorties| == old(|sorties|) + 1 && sorties[..res.value] == old(sorties)
      ensures res.Ok? ==> var o := sorties[res.value];
                          o == Sortie(RecordName(vals.name, reference), o.session, vals.date, vals.motif, vals.quantiteSacs,
                                      Kilograms(vals.quantiteSacs, poidsSac), vals.typeSortie, vals.responsable, vals.notes)
                          && (vals.session.Some? ==> o.session == vals.session.value && sessions == old(sessions))
                          && (vals.session.None? ==> LatestOpen(sessions, uid) == Some(o.session))
    {
      var sid: SessionId;
      if vals.session.Some? {
        if vals.session.value >= |sessions| {
          return Err(MissingRecord);
        }
        sid := vals.session.value;
      } else {
        sid := EnsureOpenForUser(uid, now, sessionName);
      }
      var o := Sortie(RecordName(vals.name, reference), sid, vals.date, vals.motif, vals.quantiteSacs,
                      Kilograms(vals.quantiteSacs, poidsSac), vals.typeSortie, vals.responsable, vals.notes);
      res := Ok(|sorties|);
      sorties := sorties + [o];
      assert sorties[..res.value] == old(sorties);
      assert forall i :: 0 <= i < |sorties| ==> sorties[i].session < |sessions|;
    }
  }
}
