/**
 * The invariant of the store's tables, on their values: references resolve, ids are fresh, and each order's
 * milestone log matches its watermark.
 */
module Tables {
  import opened Records
  import opened Progress
  import opened Events

  /** Delivery ids increase along the table, so an id names at most one delivery. */
  predicate IdsIncreasing(ls: seq<Livraison>) {
    forall i, j :: 0 <= i < j < |ls| ==> ls[i].id < ls[j].id
  }

  /** Every event names an order id already issued; each order's `progress` events carry exactly the milestones
      up to its watermark (ascending, none repeated, at most four); an id not yet issued has none. */
  predicate MilestoneLogs(m: map<CommandeId, Commande>, next: CommandeId, es: seq<Event>) {
    (forall c :: c in m ==> c < next)
    && (forall i :: 0 <= i < |es| ==> es[i].commande < next)
    && (forall c :: c in m ==> IsWatermark(m[c].lastThreshold) && ProgressEvents(es, c) == UpTo(m[c].lastThreshold))
  }

  /** Delivery ids are increasing and below `nextL`; the sessions and orders deliveries name exist; withdrawals name
      existing sessions. */
  predicate TablesValid(orders: set<CommandeId>, ls: seq<Livraison>, nextL: LivraisonId, sessionCount: nat, os: seq<Sortie>) {
    IdsIncreasing(ls)
    && (forall i :: 0 <= i < |ls| ==> ls[i].id < nextL && (ls[i].session.Some? ==> ls[i].session.value < sessionCount))
    && (forall l :: l in ls && l.commande.Some? ==> l.commande.value in orders)
    && (forall i :: 0 <= i < |os| ==> os[i].session < sessionCount)
  }

  /** The store invariant on the tables' values: see `MilestoneLogs` and `TablesValid`. */
  predicate Consistent(m: map<CommandeId, Commande>, next: CommandeId, ls: seq<Livraison>, nextL: LivraisonId,
                       sessionCount: nat, os: seq<Sortie>, es: seq<Event>) {
    MilestoneLogs(m, next, es) && TablesValid(m.Keys, ls, nextL, sessionCount, os)
  }
}
