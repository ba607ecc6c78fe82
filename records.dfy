/**
 * The records of the delivery module: orders (`pos.caisse.commande` with the delivery fields added by
 * models/pos_livraison.py), partial deliveries, courier sessions, stock withdrawals, and the bus events.
 * Amounts are exact reals; the source stores Python floats.
 */
module Records {
  import opened Wrappers

  type Time = int
  type UserId = int
  type CommandeId = nat
  type LivraisonId = nat
  /** A session is identified by its position in the session table (sessions are never deleted). */
  type SessionId = nat

  /** The database id of the session at position `sid`: the database numbers records from 1, in creation order.
      Order and delivery ids are database ids themselves. */
  function SessionDbId(sid: SessionId): (r: int)
    ensures r >= 1
  {
    sid + 1
  }

  /** The tolerance used by every amount comparison of the module. */
  const Tol: real := 0.01

  /** `etat_livraison`. */
  datatype Etat = EnQueue | EnCours | LivreePartielle | Livree | Annulee

  /** `priority_livraison`: the selection keys '0', '1', '2'. */
  datatype Priority = Normal | Urgent | TresUrgent

  /** The selection key of a priority; ordering the keys descending puts the most urgent first. */
  function Rank(p: Priority): nat {
    match p
    case Normal => 0
    case Urgent => 1
    case TresUrgent => 2
  }

  /** The base order `state` of the parent model: unset (falsy), `livre`, `annule`, or any other code. */
  datatype BaseState = NoState | Livre | Annule | OtherState(code: string)

  /** `type_paiement` of a delivery. */
  datatype TypePaiement = Cash | Bp

  datatype Commande = Commande(
    montantTotal: real,
    etat: Etat,
    priority: Priority,
    state: BaseState,
    dateComplete: Option<Time>,
    lastThreshold: int,
    typePaiement: TypePaiement,
    createDate: Time)

  /** `pos.livraison.livraison`; `prixSac` is the stored bag price snapshot. The stored bag count `sacs_farine` is
      recomputed whenever the amount or that price changes, so it is not a field here but `Progress.Bags`. The
      order, the session, the payment type and the courier user are optional fields (`None` is Odoo's empty value). */
  datatype Livraison = Livraison(
    id: LivraisonId,
    name: string,
    commande: Option<CommandeId>,
    session: Option<SessionId>,
    date: Time,
    montant: real,
    prixSac: real,
    typePaiement: Option<TypePaiement>,
    livreur: Option<string>,
    livreurId: Option<UserId>,
    notes: Option<string>,
    isSortieStock: bool)

  datatype SessionState = Ouvert | Ferme

  datatype Session = Session(name: string, date: Time, dateCloture: Option<Time>, user: UserId, state: SessionState)

  datatype TypeSortie = Interne | Abime | Perte | Don | Autres

  /** `pos.livraison.sortie.stock`; `quantiteKg` is the stored computed snapshot. */
  datatype Sortie = Sortie(
    name: string,
    session: SessionId,
    date: Time,
    motif: string,
    quantiteSacs: real,
    quantiteKg: real,
    typeSortie: TypeSortie,
    responsable: Option<string>,
    notes: Option<string>)

  /** An order's progress as the two amounts it is computed from: the delivered amount and the order total. The
      percentage the bus messages carry is `Progress.Percent` of it. */
  datatype Share = Share(livre: real, total: real)

  /** The messages pushed on the bus: `pos_livraison_new_livraison`, `pos_livraison_state`, `pos_livraison_progress`. */
  datatype Event =
    | NewLivraison(commande: CommandeId, livraison: LivraisonId, montant: real, progression: Share, etat: Etat)
    | StateChanged(commande: CommandeId, oldState: Etat, newState: Etat)
    | Progress(commande: CommandeId, progression: Share, seuil: int)

  /** The errors raised as `UserError` (or by the store) in models/pos_livraison.py. */
  datatype ModelError =
    | AboveTotal        // cumulative delivered amount would exceed the order total
    | CannotComplete    // forced completion below the total
    | DeleteForbidden   // deletion of a fully delivered order
    | AlreadyFinal      // quick delivery of a delivered or cancelled order
    | NothingToDeliver  // quick delivery with nothing remaining
    | ClosedSession     // attaching a delivery to a closed session
    | MissingRecord     // a referenced record does not exist

  predicate Distinct<T(==)>(xs: seq<T>) {
    forall i, j :: 0 <= i < j < |xs| ==> xs[i] != xs[j]
  }

  /** One more step of a loop over `xs`: the prefix of length k + 1 is the prefix of length k and `xs[k]`, and on a
      duplicate-free sequence `xs[k]` is not in the earlier prefix. */
  lemma PrefixStep<T>(xs: seq<T>, k: nat)
    requires k < |xs|
    ensures xs[..k + 1] == xs[..k] + [xs[k]] && (xs[..k] + [xs[k]])[..k] == xs[..k]
    ensures forall x :: x in xs[..k] ==> x in xs
    ensures Distinct(xs) ==> xs[k] !in xs[..k]
  {
  }

  /** The records of a recordset, as a set. */
  function Elems<T>(xs: seq<T>): set<T> {
    set x | x in xs
  }

  /** A non-empty sequence is its prefix and its last element. */
  lemma SplitLast<T>(xs: seq<T>)
    requires xs != []
    ensures xs == xs[..|xs| - 1] + [xs[|xs| - 1]]
    ensures forall x :: x in xs <==> x in xs[..|xs| - 1] || x == xs[|xs| - 1]
    ensures Distinct(xs) ==> xs[|xs| - 1] !in xs[..|xs| - 1]
  {
    assert xs == xs[..|xs| - 1] + [xs[|xs| - 1]];
  }

  function Abs(x: real): real {
    if x < 0.0 then -x else x
  }
}
