/**
 * The request-level rules of controllers/main.py, as pure functions: the JSON parameters and Python's truthiness
 * and conversions on them, the ordered checks of `create_livraison`, the amount/bag conversion of
 * `create_sortie_stock`, the screens of `_compute_user_role_payload`, the ordering of `get_queue`, the guard of
 * `session_close` and the counts of `get_stats`.
 */
module Requests {
  import opened Wrappers
  import opened Records
  import opened Progress
  import opened Sessions
  import opened Events
  import opened Text
  import opened Store

  // ---------------------------------------------------------------------------
  // JSON parameters
  // ---------------------------------------------------------------------------

  /** A JSON scalar of a request; a parameter that is not given reads as `JNull` (`params.get` gives None). */
  datatype Json = JNull | JBool(b: bool) | JNum(x: real) | JStr(s: string)

  /** Python truthiness of a parameter. */
  predicate Truthy(v: Json) {
    match v
    case JNull => false
    case JBool(b) => b
    case JNum(x) => x != 0.0
    case JStr(s) => s != []
  }

  /** `v in (None, '', False)`: Python's `==` makes the number 0 equal to `False`, so 0 is caught as well. */
  predicate Blank(v: Json) {
    v == JNull || v == JStr([]) || v == JBool(false) || v == JNum(0.0)
  }

  /** On JSON scalars the membership test of `create_livraison` is exactly falsiness: an amount of 0 is reported
      as missing, not as not positive. */
  lemma BlankIsFalsy(v: Json)
    ensures Blank(v) <==> !Truthy(v)
  {
  }

  /** `int(v)`; none where Python raises. */
  function ToInt(v: Json): Option<int> {
    match v
    case JNull => None
    case JBool(b) => Some(if b then 1 else 0)
    case JNum(x) => Some(Trunc(x))
    case JStr(s) => ParseInt(s)
  }

  /** `float(v)`; none where Python raises. */
  function ToFloat(v: Json): Option<real> {
    match v
    case JNull => None
    case JBool(b) => Some(if b then 1.0 else 0.0)
    case JNum(x) => Some(x)
    case JStr(s) => ParseFloat(s)
  }

  /** The error answers of the controller. */
  datatype ApiError =
    | NoOpenSession        // 'no_open_session'
    | SessionMismatch      // 'session_mismatch'
    | CommandeRequired     // 'commande_id requis'
    | MontantRequired      // 'montant_livre requis'
    | MontantInvalid       // 'montant_livre invalide' / 'montant invalide'
    | MontantNotPositive   // 'montant_livre doit être > 0' / 'montant doit être > 0'
    | CommandeNotFound     // 'Commande non trouvée'
    | AboveTarget          // 'Montant dépasse le total cible'
    | MotifRequired        // 'motif requis'
    | QuantiteInvalid      // 'quantite_sacs invalide'
    | QuantiteNotPositive  // 'quantite_sacs doit être > 0'
    | Forbidden            // 'forbidden'
    | Raised               // an exception caught by the handler: rolled back, its message returned

  // ---------------------------------------------------------------------------
  // `create_livraison`
  // ---------------------------------------------------------------------------

  /** The parameters `create_livraison` reads. */
  datatype LivraisonRequest = LivraisonRequest(
    commandeId: Json,       // 'commande_id'
    commande: Json,         // 'commande', used when 'commande_id' is falsy
    montantLivre: Json,     // 'montant_livre'
    typePaiement: Json,     // 'type_paiement', 'cash' when not given
    livreur: Option<string>,
    livreurId: Json,        // 'livreur_id'
    sessionId: Json,        // 'livraison_session_id'
    notes: Option<string>)

  /** What a request that passed every check asks for. */
  datatype LivraisonOrder = LivraisonOrder(commande: CommandeId, montant: real, session: SessionId,
                                           typePaiement: Option<TypePaiement>, livreurId: Option<UserId>)

  /** `params.get('commande_id') or params.get('commande')`. */
  function CommandeParam(req: LivraisonRequest): Json {
    if Truthy(req.commandeId) then req.commandeId else req.commande
  }

  /** The payment type `create` stores for the `type_paiement` parameter, if the selection takes the value: 'cash'
      when the parameter is not given (`params.get(..., 'cash')`), the key itself for 'cash' or 'bp', and no payment
      type for any other falsy value, which the selection reads as empty. A truthy value outside the selection makes
      `create` raise (`None`). */
  function TypePaiementOf(v: Json): (r: Option<Option<TypePaiement>>)
    ensures r == Some(None) <==> v != JNull && !Truthy(v)
    ensures r.Some? && r.value.Some? <==> v == JNull || v == JStr("cash") || v == JStr("bp")
    ensures r.Some? && r.value == Some(Bp) <==> v == JStr("bp")
  {
    match v
    case JNull => Some(Some(Cash))
    case JStr(s) => if s == "cash" then Some(Some(Cash)) else if s == "bp" then Some(Some(Bp)) else if s == [] then Some(None) else None
    case _ => if Truthy(v) then None else Some(None)
  }

  /** `livreur_id` when given and convertible: 0 counts as not given, as `create` tests `not vals.get(...)`. */
  function LivreurOf(v: Json): Option<UserId> {
    if Truthy(v) && ToInt(v).Some? && ToInt(v).value != 0 then Some(ToInt(v).value) else None
  }

  /** The client's `livraison_session_id`, when given, is the database id of the open session `sid`. */
  predicate SessionAgrees(req: LivraisonRequest, sid: SessionId) {
    !Truthy(req.sessionId) || ToInt(req.sessionId) == Some(SessionDbId(sid))
  }

  /** The checks of `create_livraison`, in their order: an open session, the client's session id, the order id,
      the amount (given, numeric, positive), the order's existence, and the cumulative amount against the target
      (the order total) plus 0.01. A conversion that raises is caught as `Raised`. */
  function ValidateLivraison(req: LivraisonRequest, open: Option<SessionId>, m: map<CommandeId, Commande>,
                             ls: seq<Livraison>): (r: Result<LivraisonOrder, ApiError>)
    ensures open.None? <==> r == Err(NoOpenSession)
    ensures r.Ok? ==> open == Some(r.value.session)
    ensures r.Ok? ==> r.value.commande in m && r.value.montant > 0.0
                      && Delivered(ls, r.value.commande) + r.value.montant <= m[r.value.commande].montantTotal + Tol
    ensures r.Ok? ==> Truthy(CommandeParam(req)) && !Blank(req.montantLivre)
    ensures r == Err(SessionMismatch) ==> Truthy(req.sessionId) && ToInt(req.sessionId).Some?
                                          && ToInt(req.sessionId).value != SessionDbId(open.value)
    // Each answer in the order of the checks, once the checks before it have passed.
    ensures open.Some? && Truthy(req.sessionId) && ToInt(req.sessionId).None? ==> r == Err(Raised)
    ensures (open.Some? && Truthy(req.sessionId) && ToInt(req.sessionId).Some?
             && ToInt(req.sessionId).value != SessionDbId(open.value))
            ==> r == Err(SessionMismatch)
    ensures open.Some? && SessionAgrees(req, open.value) && !Truthy(CommandeParam(req)) ==> r == Err(CommandeRequired)
    ensures open.Some? && SessionAgrees(req, open.value) && Truthy(CommandeParam(req)) ==>
              (Blank(req.montantLivre) ==> r == Err(MontantRequired))
              && (!Blank(req.montantLivre) && ToFloat(req.montantLivre).None? ==> r == Err(MontantInvalid))
              && ((!Blank(req.montantLivre) && ToFloat(req.montantLivre).Some? && ToFloat(req.montantLivre).value <= 0.0)
                  ==> r == Err(MontantNotPositive))
    ensures open.Some? && SessionAgrees(req, open.value) && Truthy(CommandeParam(req)) && !Blank(req.montantLivre)
            && ToFloat(req.montantLivre).Some? && ToFloat(req.montantLivre).value > 0.0 ==>
              var montant, k := ToFloat(req.montantLivre).value, ToInt(CommandeParam(req));
              (k.None? ==> r == Err(Raised))
              && (k.Some? && (k.value <= 0 || k.value !in m) ==> r == Err(CommandeNotFound))
              && (k.Some? && 1 <= k.value && k.value in m ==>
                    (Delivered(ls, k.value) + montant > m[k.value].montantTotal + Tol ==> r == Err(AboveTarget))
                    && ((Delivered(ls, k.value) + montant <= m[k.value].montantTotal + Tol
                         && TypePaiementOf(req.typePaiement).None?) ==> r == Err(Raised))
                    && ((Delivered(ls, k.value) + montant <= m[k.value].montantTotal + Tol
                         && TypePaiementOf(req.typePaiement).Some?) ==>
                          r == Ok(LivraisonOrder(k.value, montant, open.value, TypePaiementOf(req.typePaiement).value,
                                                 LivreurOf(req.livreurId)))))
  {
    if open.None? then Err(NoOpenSession)
    else
      var sid := open.value;
      if Truthy(req.sessionId) && ToInt(req.sessionId).None? then Err(Raised)
      else if Truthy(req.sessionId) && ToInt(req.sessionId).value != SessionDbId(sid) then Err(SessionMismatch)
      else if !Truthy(CommandeParam(req)) then Err(CommandeRequired)
      else if Blank(req.montantLivre) then Err(MontantRequired)
      else if ToFloat(req.montantLivre).None? then Err(MontantInvalid)
      else
        var montant := ToFloat(req.montantLivre).value;
        if montant <= 0.0 then Err(MontantNotPositive)
        else if ToInt(CommandeParam(req)).None? then Err(Raised)
        else
          var k := ToInt(CommandeParam(req)).value;
          if k <= 0 || k !in m then Err(CommandeNotFound)
          else if Delivered(ls, k) + montant > m[k].montantTotal + 0.01 then Err(AboveTarget)
          else if TypePaiementOf(req.typePaiement).None? then Err(Raised)
          else Ok(LivraisonOrder(k, montant, sid, TypePaiementOf(req.typePaiement).value, LivreurOf(req.livreurId)))
  }

  /** The database never allocates id 0, so an order parameter that converts to 0 (the text "0", the number 0.5)
      names no order, whatever the order table holds. */
  lemma OrderZeroNotFound(req: LivraisonRequest, open: Option<SessionId>, m: map<CommandeId, Commande>,
                          ls: seq<Livraison>)
    requires open.Some? && SessionAgrees(req, open.value) && Truthy(CommandeParam(req))
    requires !Blank(req.montantLivre) && ToFloat(req.montantLivre).Some? && ToFloat(req.montantLivre).value > 0.0
    requires ToInt(CommandeParam(req)) == Some(0)
    ensures ValidateLivraison(req, open, m, ls) == Err(CommandeNotFound)
  {
  }

  /** A client session id that converts to 0 never matches the open session, whose database id is at least 1. */
  lemma SessionZeroMismatch(req: LivraisonRequest, open: Option<SessionId>, m: map<CommandeId, Commande>,
                            ls: seq<Livraison>)
    requires open.Some? && Truthy(req.sessionId) && ToInt(req.sessionId) == Some(0)
    ensures ValidateLivraison(req, open, m, ls) == Err(SessionMismatch)
  {
  }

  /** The values `create_livraison` hands to `create`. */
  function LivraisonValsOf(o: LivraisonOrder, req: LivraisonRequest, now: Time): LivraisonVals {
    LivraisonVals(None, Some(o.commande), Some(o.session), None, now, o.montant, o.typePaiement, req.livreur,
                  o.livreurId, req.notes, false)
  }

  /** A request the controller accepts is one `create` accepts: the controller's target check is the model's own
      check, and the open session exists. */
  lemma ValidatedCreates(req: LivraisonRequest, ss: seq<Session>, uid: UserId, m: map<CommandeId, Commande>,
                         ls: seq<Livraison>, now: Time)
    requires ValidateLivraison(req, LatestOpen(ss, uid), m, ls).Ok?
    ensures CreateError(LivraisonValsOf(ValidateLivraison(req, LatestOpen(ss, uid), m, ls).value, req, now), m, ls, |ss|).None?
  {
  }

  /** The nudge after a successful `create_livraison`, on the order as `create` left it: completed when nothing
      remains and it is not `livree`, else started when it is still `en_queue`, else untouched. */
  function Nudged(o: Commande, livre: real, now: Time): (r: Commande)
    ensures r.montantTotal == o.montantTotal && r.lastThreshold == o.lastThreshold
    ensures r.etat != EnQueue
    ensures Remaining(o.montantTotal, livre) <= 0.0 ==> r.etat == Livree
    ensures Remaining(o.montantTotal, livre) <= 0.0 && o.etat != Livree ==> r == Completed(o, now)
    ensures Remaining(o.montantTotal, livre) <= 0.0 && o.etat == Livree ==> r == o
    ensures Remaining(o.montantTotal, livre) > 0.0 && o.etat == EnQueue ==> r == o.(etat := EnCours)
    ensures Remaining(o.montantTotal, livre) > 0.0 && o.etat != EnQueue ==> r == o
  {
    if Remaining(o.montantTotal, livre) <= 0.0 && o.etat != Livree then Completed(o, now)
    else if o.etat == EnQueue then o.(etat := EnCours)
    else o
  }

  /** The start nudge fires only when the order's delivered amount is at most 0: any positive delivered amount
      within the target has already moved the order out of `en_queue` during `create`. */
  lemma StartNudgeOnlyWithoutDeliveries(o: Commande, livre: real, now: Time)
    requires livre <= o.montantTotal + Tol
    requires Refreshed(o, livre, now).etat == EnQueue
    ensures livre <= 0.0
  {
  }

  // ---------------------------------------------------------------------------
  // `create_sortie_stock`
  // ---------------------------------------------------------------------------

  /** The parameters `create_sortie_stock` reads (after unwrapping a JSON-RPC envelope). */
  datatype SortieRequest = SortieRequest(
    motif: Option<string>,
    quantiteSacs: Json,      // 'quantite_sacs'
    montant: Json,           // 'montant', takes priority
    typeSortie: Json,        // 'type', 'interne' when not given
    responsable: Option<string>,
    notes: Option<string>)

  /** The amount and the bag count of a withdrawal. */
  datatype Conversion = Conversion(montant: real, sacs: real)

  /** The amount of `sacs` bags at `prixSac` each. */
  function BagsAmount(sacs: real, prixSac: real): (r: real)
    ensures sacs > 0.0 && prixSac > 0.0 ==> r > 0.0
    ensures sacs > 0.0 && prixSac <= 0.0 ==> r <= 0.0
  {
    sacs * prixSac
  }

  /** The amount/bag conversion: a given amount must be a positive number and gives `montant / prix_sac` bags (0
      when the price is not positive); otherwise the bag count must be a positive number and gives
      `sacs × prix_sac` as the amount. */
  function Convert(montant: Json, sacs: Json, prixSac: real): (r: Result<Conversion, ApiError>)
    ensures !Blank(montant) ==> (r.Ok? <==> ToFloat(montant).Some? && ToFloat(montant).value > 0.0)
    ensures Blank(montant) ==> (r.Ok? <==> ToFloat(sacs).Some? && ToFloat(sacs).value > 0.0)
    ensures r.Ok? && !Blank(montant) ==> r.value.montant == ToFloat(montant).value
    ensures r.Ok? && Blank(montant) ==> r.value.sacs == ToFloat(sacs).value
  {
    Converted(!Blank(montant), ToFloat(montant), ToFloat(sacs), prixSac)
  }

  /** `Convert` once the two parameters are parsed: `amountGiven` says whether `montant` was given. */
  function Converted(amountGiven: bool, montant: Option<real>, sacs: Option<real>, prixSac: real): (r: Result<Conversion, ApiError>)
    ensures amountGiven ==> (r.Ok? <==> montant.Some? && montant.value > 0.0)
    ensures !amountGiven ==> (r.Ok? <==> sacs.Some? && sacs.value > 0.0)
  {
    if amountGiven then
      match montant
      case None => Err(MontantInvalid)
      case Some(x) =>
        if x <= 0.0 then Err(MontantNotPositive)
        else Ok(Conversion(x, SacsFarine(x, prixSac)))
    else
      match sacs
      case None => Err(QuantiteInvalid)
      case Some(q) =>
        if q <= 0.0 then Err(QuantiteNotPositive)
        else Ok(Conversion(BagsAmount(q, prixSac), q))
  }

  /** The two directions of the conversion are inverse: with a positive bag price, the bags times the price is the
      amount, whichever of the two was given, and both are positive. */
  lemma ConvertInverse(amountGiven: bool, montant: Option<real>, sacs: Option<real>, prixSac: real)
    requires prixSac > 0.0 && Converted(amountGiven, montant, sacs, prixSac).Ok?
    ensures var c := Converted(amountGiven, montant, sacs, prixSac).value;
            c.sacs * prixSac == c.montant && c.montant > 0.0 && c.sacs > 0.0
  {
    if amountGiven {
      var x := montant.value;
      assert Converted(amountGiven, montant, sacs, prixSac).value == Conversion(x, SacsFarine(x, prixSac));
    } else {
      var q := sacs.value;
      assert Converted(amountGiven, montant, sacs, prixSac).value == Conversion(BagsAmount(q, prixSac), q);
    }
  }

  /** The shadow delivery's computed bag count agrees with the withdrawal's, except when the bag count was given and
      the price is not positive: then the delivery's amount is `sacs × prix_sac <= 0` and it counts no bags. */
  lemma ShadowBagsAgree(amountGiven: bool, montant: Option<real>, sacs: Option<real>, prixSac: real)
    requires Converted(amountGiven, montant, sacs, prixSac).Ok?
    ensures var c := Converted(amountGiven, montant, sacs, prixSac).value;
            (prixSac > 0.0 || amountGiven ==> SacsFarine(c.montant, prixSac) == c.sacs)
            && (prixSac <= 0.0 && !amountGiven ==> c.montant <= 0.0 && SacsFarine(c.montant, prixSac) == 0.0)
  {
    var c := Converted(amountGiven, montant, sacs, prixSac).value;
    if amountGiven {
      var x := montant.value;
      assert c == Conversion(x, SacsFarine(x, prixSac));
    } else {
      var q := sacs.value;
      assert c == Conversion(BagsAmount(q, prixSac), q);
      if prixSac > 0.0 {
        BagsBack(q, prixSac);
      }
    }
  }

  /** Bags priced at a positive price and divided back by it are the same bags. */
  lemma BagsBack(q: real, prixSac: real)
    requires prixSac > 0.0
    ensures SacsFarine(BagsAmount(q, prixSac), prixSac) == q
  {
  }

  /** A selection value of the withdrawal `type`; any other value makes `create` raise. */
  function TypeSortieOf(v: Json): Option<TypeSortie> {
    match v
    case JNull => Some(Interne)
    case JStr(s) =>
      if s == "interne" then Some(Interne) else if s == "abime" then Some(Abime) else if s == "perte" then Some(Perte)
      else if s == "don" then Some(Don) else if s == "autres" then Some(Autres) else None
    case _ => None
  }

  /** The checks of `create_sortie_stock`, in their order: an open session, a motif, then the conversion; a `type`
      outside the selection makes `create` raise. */
  function ValidateSortie(req: SortieRequest, open: Option<SessionId>, prixSac: real): (r: Result<Conversion, ApiError>)
    ensures open.None? <==> r == Err(NoOpenSession)
    ensures open.Some? && (req.motif.None? || req.motif.value == []) ==> r == Err(MotifRequired)
    ensures r.Ok? ==> req.motif.Some? && req.motif.value != [] && TypeSortieOf(req.typeSortie).Some?
                      && Convert(req.montant, req.quantiteSacs, prixSac) == r
    ensures open.Some? && req.motif.Some? && req.motif.value != [] ==>
              var c := Convert(req.montant, req.quantiteSacs, prixSac);
              (c.Err? ==> r == c)
              && (c.Ok? && TypeSortieOf(req.typeSortie).None? ==> r == Err(Raised))
              && (c.Ok? && TypeSortieOf(req.typeSortie).Some? ==> r == c)
  {
    if open.None? then Err(NoOpenSession)
    else if req.motif.None? || req.motif.value == [] then Err(MotifRequired)
    else
      var c := Convert(req.montant, req.quantiteSacs, prixSac);
      if c.Err? then c
      else if TypeSortieOf(req.typeSortie).None? then Err(Raised)
      else c
  }

  // ---------------------------------------------------------------------------
  // `_compute_user_role_payload`
  // ---------------------------------------------------------------------------

  /** The groups `has_group` answers for, in the order of the source. */
  datatype Groups = Groups(system: bool, caisseUser: bool, caisseManager: bool, livraisonUser: bool,
                           livraisonManager: bool, paieUser: bool, paieManager: bool, adminUser: bool,
                           adminManager: bool)

  datatype Screens = Screens(caisse: bool, livraison: bool, paie: bool, administration: bool)

  /** `is_admin`: member of `base.group_system`, or the superuser id 1. */
  predicate IsAdmin(g: Groups, uid: UserId) {
    g.system || uid == 1
  }

  /** The screens of the payload: all four for an admin, otherwise each screen for a user or manager of its area. */
  function ScreensFor(g: Groups, uid: UserId): (r: Screens)
    ensures r.caisse <==> IsAdmin(g, uid) || g.caisseUser || g.caisseManager
    ensures r.livraison <==> IsAdmin(g, uid) || g.livraisonUser || g.livraisonManager
    ensures r.paie <==> IsAdmin(g, uid) || g.paieUser || g.paieManager
    ensures r.administration <==> IsAdmin(g, uid) || g.adminUser || g.adminManager
  {
    if IsAdmin(g, uid) then Screens(true, true, true, true)
    else Screens(g.caisseUser || g.caisseManager, g.livraisonUser || g.livraisonManager,
                 g.paieUser || g.paieManager, g.adminUser || g.adminManager)
  }

  /** `h` has every group of `g`. */
  predicate HasAll(h: Groups, g: Groups) {
    (g.system ==> h.system) && (g.caisseUser ==> h.caisseUser) && (g.caisseManager ==> h.caisseManager)
    && (g.livraisonUser ==> h.livraisonUser) && (g.livraisonManager ==> h.livraisonManager)
    && (g.paieUser ==> h.paieUser) && (g.paieManager ==> h.paieManager)
    && (g.adminUser ==> h.adminUser) && (g.adminManager ==> h.adminManager)
  }

  /** More groups never hide a screen, and an admin sees every screen anyone sees. */
  lemma ScreensMonotone(g: Groups, h: Groups, uid: UserId, admin: UserId)
    requires HasAll(h, g) && IsAdmin(h, admin)
    ensures var a, b, c := ScreensFor(g, uid), ScreensFor(h, uid), ScreensFor(h, admin);
            (a.caisse ==> b.caisse) && (a.livraison ==> b.livraison) && (a.paie ==> b.paie)
            && (a.administration ==> b.administration)
            && c == Screens(true, true, true, true)
  {
  }

  // ---------------------------------------------------------------------------
  // `get_queue`
  // ---------------------------------------------------------------------------

  /** The order of `get_queue`: `priority_livraison` descending, then `create_date` ascending; ties, which the
      database leaves in no particular order, are broken here by ascending id. */
  predicate Precedes(m: map<CommandeId, Commande>, a: CommandeId, b: CommandeId)
    requires a in m && b in m
  {
    Rank(m[a].priority) > Rank(m[b].priority)
    || (Rank(m[a].priority) == Rank(m[b].priority)
        && (m[a].createDate < m[b].createDate || (m[a].createDate == m[b].createDate && a < b)))
  }

  /** `Precedes` is a strict total order on the orders. */
  lemma PrecedesOrder(m: map<CommandeId, Commande>, a: CommandeId, b: CommandeId, c: CommandeId)
    requires a in m && b in m && c in m
    ensures !Precedes(m, a, a)
    ensures a != b ==> Precedes(m, a, b) || Precedes(m, b, a)
    ensures Precedes(m, a, b) && Precedes(m, b, c) ==> Precedes(m, a, c)
  {
  }

  predicate InMap(m: map<CommandeId, Commande>, q: seq<CommandeId>) {
    forall i :: 0 <= i < |q| ==> q[i] in m
  }

  /** Every order of `q` precedes every later one. */
  predicate Ordered(m: map<CommandeId, Commande>, q: seq<CommandeId>)
    requires InMap(m, q)
  {
    forall i, j :: 0 <= i < j < |q| ==> Precedes(m, q[i], q[j])
  }

  /** `x` put into the ordered `q` at its place. */
  function Insert(m: map<CommandeId, Commande>, x: CommandeId, q: seq<CommandeId>): (r: seq<CommandeId>)
    requires x in m && InMap(m, q) && Ordered(m, q) && x !in q
    ensures InMap(m, r) && Ordered(m, r)
    ensures multiset(r) == multiset(q) + multiset{x}
    ensures forall y :: y in r <==> y in q || y == x
  {
    if q == [] then [x]
    else if Precedes(m, x, q[0]) then
      assert forall j :: 0 < j < |q| ==> Precedes(m, x, q[j]) by {
        forall j | 0 < j < |q| ensures Precedes(m, x, q[j]) {
          PrecedesOrder(m, x, q[0], q[j]);
        }
      }
      [x] + q
    else
      PrecedesOrder(m, q[0], x, x);
      var rest := Insert(m, x, q[1..]);
      assert forall y :: y in rest ==> Precedes(m, q[0], y);
      assert q == [q[0]] + q[1..];
      [q[0]] + rest
  }

  /** Insertion sort of the duplicate-free `xs` by `Precedes`. */
  function Sorted(m: map<CommandeId, Commande>, xs: seq<CommandeId>): (r: seq<CommandeId>)
    requires InMap(m, xs) && Distinct(xs)
    ensures InMap(m, r) && Ordered(m, r)
    ensures multiset(r) == multiset(xs)
  {
    if xs == [] then []
    else
      var init, x := xs[..|xs| - 1], xs[|xs| - 1];
      assert xs == init + [x];
      var s := Sorted(m, init);
      assert x !in multiset(s);
      Insert(m, x, s)
  }

  /** The `en_queue` orders with an id below `n`, by ascending id. */
  function QueuedBelow(m: map<CommandeId, Commande>, n: nat): (r: seq<CommandeId>)
    ensures InMap(m, r) && Distinct(r)
    ensures forall c :: c in r <==> c < n && c in m && m[c].etat == EnQueue
  {
    if n == 0 then []
    else
      var prev := QueuedBelow(m, n - 1);
      if n - 1 in m && m[n - 1].etat == EnQueue then prev + [n - 1] else prev
  }

  /** The search of `get_queue`: every `en_queue` order, in queue order (orders have ids below `next`). */
  function Queue(m: map<CommandeId, Commande>, next: nat): (r: seq<CommandeId>)
    ensures InMap(m, r) && Ordered(m, r)
  {
    Sorted(m, QueuedBelow(m, next))
  }

  /** The queue holds each `en_queue` order exactly once and nothing else. */
  lemma QueueContents(m: map<CommandeId, Commande>, next: nat)
    requires forall c :: c in m ==> c < next
    ensures Distinct(Queue(m, next))
    ensures forall c :: c in Queue(m, next) <==> c in m && m[c].etat == EnQueue
  {
    var q := Queue(m, next);
    assert multiset(q) == multiset(QueuedBelow(m, next));
    forall c ensures c in q <==> c in QueuedBelow(m, next) {
      assert c in q <==> c in multiset(q);
      assert c in QueuedBelow(m, next) <==> c in multiset(QueuedBelow(m, next));
    }
    forall i, j | 0 <= i < j < |q| ensures q[i] != q[j] {
      PrecedesOrder(m, q[i], q[j], q[j]);
    }
  }

  /** The first order of an ordered list precedes every other order of it. */
  lemma FirstPrecedes(m: map<CommandeId, Commande>, q: seq<CommandeId>, c: CommandeId)
    requires InMap(m, q) && Ordered(m, q) && c in q
    ensures c == q[0] || Precedes(m, q[0], c)
  {
    var i :| 0 <= i < |q| && q[i] == c;
    if i > 0 {
      assert Precedes(m, q[0], q[i]);
    }
  }

  /** The queue order is the only one: an ordered list of exactly the same orders is the queue itself. */
  lemma {:induction false} OrderedUnique(m: map<CommandeId, Commande>, p: seq<CommandeId>, q: seq<CommandeId>)
    requires InMap(m, p) && InMap(m, q) && Ordered(m, p) && Ordered(m, q)
    requires forall c :: c in p <==> c in q
    ensures p == q
    decreases |p|
  {
    if p == [] {
      assert forall i :: 0 <= i < |q| ==> q[i] in q;
      assert q == [];
    } else {
      assert p[0] in q;
      assert q[0] in q;
      FirstPrecedes(m, q, p[0]);
      FirstPrecedes(m, p, q[0]);
      PrecedesOrder(m, p[0], q[0], p[0]);
      assert p[0] == q[0];
      assert p == [p[0]] + p[1..] && q == [q[0]] + q[1..];
      forall c | c in p[1..] ensures c in q[1..] {
        FirstPrecedes(m, p, c);
        assert c in p && c != p[0] by {
          var k :| 0 <= k < |p[1..]| && p[1..][k] == c;
          assert Precedes(m, p[0], p[k + 1]);
          PrecedesOrder(m, c, c, c);
        }
      }
      forall c | c in q[1..] ensures c in p[1..] {
        assert c in q && c != q[0] by {
          var k :| 0 <= k < |q[1..]| && q[1..][k] == c;
          assert Precedes(m, q[0], q[k + 1]);
          PrecedesOrder(m, c, c, c);
        }
      }
      OrderedUnique(m, p[1..], q[1..]);
    }
  }

  /** A line of the `get_queue` answer: its 1-based position and the order. */
  datatype QueueEntry = QueueEntry(position: nat, commande: CommandeId)

  /** `get_queue`: the queue, numbered from 1 in list order. */
  function GetQueue(m: map<CommandeId, Commande>, next: nat): (r: seq<QueueEntry>)
    ensures |r| == |Queue(m, next)|
    ensures forall i :: 0 <= i < |r| ==> r[i].position == i + 1 && r[i].commande == Queue(m, next)[i]
  {
    var q := Queue(m, next);
    seq(|q|, i requires 0 <= i < |q| => QueueEntry(i + 1, q[i]))
  }

  // ---------------------------------------------------------------------------
  // `session_close`
  // ---------------------------------------------------------------------------

  /** The guards of `session_close` for user `uid` (a `base.group_system` member when `isSystem`): the user's open
      session must exist and belong to the user unless the user is a system administrator. */
  function CloseDecision(open: Option<SessionId>, ss: seq<Session>, uid: UserId, isSystem: bool): (r: Result<SessionId, ApiError>)
    requires open.Some? ==> open.value < |ss|
    ensures open.None? <==> r == Err(NoOpenSession)
    ensures r.Ok? ==> open == Some(r.value) && (ss[r.value].user == uid || isSystem)
  {
    if open.None? then Err(NoOpenSession)
    else if ss[open.value].user != uid && !isSystem then Err(Forbidden)
    else Ok(open.value)
  }

  /** The `forbidden` answer cannot happen: the session is searched among the caller's own open sessions. */
  lemma CloseNeverForbidden(ss: seq<Session>, uid: UserId, isSystem: bool)
    ensures CloseDecision(LatestOpen(ss, uid), ss, uid, isSystem) != Err(Forbidden)
    ensures CloseDecision(LatestOpen(ss, uid), ss, uid, isSystem).Ok? <==> LatestOpen(ss, uid).Some?
  {
  }

  // ---------------------------------------------------------------------------
  // `get_stats`
  // ---------------------------------------------------------------------------

  /** The orders in delivery state `e`. */
  function InState(m: map<CommandeId, Commande>, e: Etat): (r: set<CommandeId>)
    ensures forall c :: c in r <==> c in m && m[c].etat == e
  {
    set c | c in m && m[c].etat == e
  }

  /** The order counts of `get_stats` and their `total`. */
  datatype StateCounts = StateCounts(enQueue: nat, enCours: nat, livreePartielle: nat, livree: nat, total: nat)

  function CountStates(m: map<CommandeId, Commande>): StateCounts {
    var a, b, c, d := |InState(m, EnQueue)|, |InState(m, EnCours)|, |InState(m, LivreePartielle)|, |InState(m, Livree)|;
    StateCounts(a, b, c, d, a + b + c + d)
  }

  /** `total` counts every order that is not cancelled, each once. */
  lemma CountsTotal(m: map<CommandeId, Commande>)
    ensures CountStates(m).total == |m.Keys| - |InState(m, Annulee)|
  {
    var a, b, c, d, e := InState(m, EnQueue), InState(m, EnCours), InState(m, LivreePartielle), InState(m, Livree),
                         InState(m, Annulee);
    StatesCover(m);
    DisjointSum(a, b, c, d, e);
  }

  /** Every order is in exactly one delivery state. */
  lemma StatesCover(m: map<CommandeId, Commande>)
    ensures m.Keys == InState(m, EnQueue) + InState(m, EnCours) + InState(m, LivreePartielle) + InState(m, Livree)
                      + InState(m, Annulee)
  {
  }

  /** Five pairwise disjoint sets: the size of their union is the sum of their sizes. */
  lemma DisjointSum(a: set<CommandeId>, b: set<CommandeId>, c: set<CommandeId>, d: set<CommandeId>, e: set<CommandeId>)
    requires forall x :: x in b ==> x !in a
    requires forall x :: x in c ==> x !in a && x !in b
    requires forall x :: x in d ==> x !in a && x !in b && x !in c
    requires forall x :: x in e ==> x !in a && x !in b && x !in c && x !in d
    ensures |a + b + c + d + e| == |a| + |b| + |c| + |d| + |e|
  {
    assert a * b == {} && (a + b) * c == {} && (a + b + c) * d == {} && (a + b + c + d) * e == {};
    assert |a + b| == |a| + |b|;
    assert |a + b + c| == |a + b| + |c|;
    assert |a + b + c + d| == |a + b + c| + |d|;
  }

  /** The deliveries counted in `livraisons_today`: dated from `today` on, and of the open session if any. */
  function DeliveriesToday(ls: seq<Livraison>, today: Time, open: Option<SessionId>): (r: seq<Livraison>)
    ensures |r| <= |ls|
    ensures forall l :: l in r <==> l in ls && l.date >= today && (open.Some? ==> l.session == open)
  {
    if ls == [] then []
    else
      var l := ls[|ls| - 1];
      DeliveriesToday(ls[..|ls| - 1], today, open)
      + (if l.date >= today && (open.Some? ==> l.session == open) then [l] else [])
  }

  /** With an open session, today's deliveries are among the session's deliveries. */
  lemma {:induction false} TodayWithinSession(ls: seq<Livraison>, today: Time, sid: SessionId)
    ensures |DeliveriesToday(ls, today, Some(sid))| <= SessionCount(ls, sid)
  {
    if ls != [] {
      TodayWithinSession(ls[..|ls| - 1], today, sid);
    }
  }
}
