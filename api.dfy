/**
 * The endpoints of controllers/main.py that change the store: `create_livraison`, `create_sortie_stock` and
 * `session_close`. Each runs the checks of `Requests` first and changes nothing when one fails; the exception
 * handler's rollback is the same as not changing anything, since every check comes before the first write.
 */
module Controller {
  import opened Wrappers
  import opened Maps
  import opened Records
  import opened Progress
  import opened Events
  import opened Sessions
  import opened Orders
  import opened Text
  import opened Store
  import opened Requests

  /** The check result of `create_livraison` by user `uid` on the current tables. */
  function LivraisonCheck(req: LivraisonRequest, uid: UserId, ss: seq<Session>, m: map<CommandeId, Commande>,
                          ls: seq<Livraison>): Result<LivraisonOrder, ApiError> {
    ValidateLivraison(req, LatestOpen(ss, uid), m, ls)
  }

  /** The nudge of `create_livraison` on order `c` after the delivery is stored: `action_complete_livraison` when
      nothing remains and it is not `livree` (its check then passes), else `action_start_livraison` when it is
      `en_queue`. */
  method NudgeAfterCreate(db: Db, c: CommandeId, now: Time)
    requires db.Valid() && c in db.commandes
    modifies db`commandes, db`events
    ensures db.Valid()
    ensures db.commandes == old(db.commandes)[c := Nudged(old(db.commandes)[c], Delivered(db.livraisons, c), now)]
    ensures db.events == old(db.events) + StateEvent(c, old(db.commandes)[c], db.commandes[c])
  {
    var o := db.commandes[c];
    if Remaining(o.montantTotal, Delivered(db.livraisons, c)) <= 0.0 && o.etat != Livree {
      db.CompleteOne(c, now);
    } else if o.etat == EnQueue {
      db.StartOne(c, now);
    }
  }

  /** `create_livraison` by user `uid`: refused, with nothing changed, when a check fails; otherwise a delivery of
      the requested amount on the user's open session is created for the order (with the follow-up of `create`),
      and the order is then completed or started as `Nudged` says. */
  method CreateLivraison(db: Db, req: LivraisonRequest, uid: UserId, now: Time, reference: Option<string>,
                         sessionName: string, prixSac: real) returns (r: Result<LivraisonId, ApiError>)
    requires db.Valid()
    modifies db
    ensures db.Valid()
    ensures r.Err? <==> old(LivraisonCheck(req, uid, db.sessions, db.commandes, db.livraisons)).Err?
    ensures r.Err? ==> r.error == old(LivraisonCheck(req, uid, db.sessions, db.commandes, db.livraisons)).error
                       && db.commandes == old(db.commandes) && db.livraisons == old(db.livraisons)
                       && db.sessions == old(db.sessions) && db.events == old(db.events)
                       && db.nextLivraison == old(db.nextLivraison)
    ensures r.Ok? ==> |db.livraisons| == old(|db.livraisons|) + 1 && db.sessions == old(db.sessions)
                      && old(LivraisonCheck(req, uid, db.sessions, db.commandes, db.livraisons)).value.session < |db.sessions|
    ensures r.Ok? ==> var o := old(LivraisonCheck(req, uid, db.sessions, db.commandes, db.livraisons)).value;
                      var l := db.livraisons[|db.livraisons| - 1];
                      r.value == old(db.nextLivraison)
                      && |db.livraisons| == old(|db.livraisons|) + 1 && db.livraisons == old(db.livraisons) + [l]
                      && l == NewRecord(LivraisonValsOf(o, req, now), r.value, o.session, db.sessions[o.session].user,
                                        reference, prixSac)
                      && db.sessions == old(db.sessions) && db.nextLivraison == old(db.nextLivraison) + 1
                      && db.commandes == old(db.commandes)[o.commande := Nudged(Refreshed(old(db.commandes)[o.commande],
                                                                                          Delivered(db.livraisons, o.commande), now),
                                                                                Delivered(db.livraisons, o.commande), now)]
    ensures r.Ok? ==> var o := old(LivraisonCheck(req, uid, db.sessions, db.commandes, db.livraisons)).value;
                      var c, m0, livre := o.commande, old(db.commandes), Delivered(db.livraisons, o.commande);
                      db.events == old(db.events)
                                   + [NewLivraison(c, r.value, o.montant, OrderProgression(db.livraisons, c, m0[c]), m0[c].etat)]
                                   + RefreshEvents(c, m0[c], livre, now)
                                   + StateEvent(c, Refreshed(m0[c], livre, now), Nudged(Refreshed(m0[c], livre, now), livre, now))
    ensures db.sorties == old(db.sorties) && db.nextCommande == old(db.nextCommande)
    ensures old(db.WithinTotals()) ==> db.WithinTotals()
  {
    var check := ValidateLivraison(req, LatestOpen(db.sessions, uid), db.commandes, db.livraisons);
    if check.Err? {
      return Err(check.error);
    }
    ValidatedCreates(req, db.sessions, uid, db.commandes, db.livraisons, now);
    var id := StoreLivraison(db, req, check.value, uid, now, reference, sessionName, prixSac);
    r := Ok(id);
  }

  /** The writes of a `create_livraison` whose checks passed with order `o`. */
  method StoreLivraison(db: Db, req: LivraisonRequest, o: LivraisonOrder, uid: UserId, now: Time,
                        reference: Option<string>, sessionName: string, prixSac: real) returns (id: LivraisonId)
    requires db.Valid() && o.commande in db.commandes && o.session < |db.sessions|
    requires CreateError(LivraisonValsOf(o, req, now), db.commandes, db.livraisons, |db.sessions|).None?
    modifies db`commandes, db`events, db`livraisons, db`nextLivraison, db`sessions
    ensures db.Valid() && o.session < |db.sessions|
    ensures id == old(db.nextLivraison) && |db.livraisons| == old(|db.livraisons|) + 1
    ensures db.livraisons == old(db.livraisons) + [db.livraisons[|db.livraisons| - 1]]
    ensures db.livraisons[|db.livraisons| - 1]
              == NewRecord(LivraisonValsOf(o, req, now), id, o.session, db.sessions[o.session].user, reference, prixSac)
    ensures db.sessions == old(db.sessions) && db.nextLivraison == old(db.nextLivraison) + 1
    ensures db.commandes == old(db.commandes)[o.commande := Nudged(Refreshed(old(db.commandes)[o.commande],
                                                                            Delivered(db.livraisons, o.commande), now),
                                                                  Delivered(db.livraisons, o.commande), now)]
    ensures var c, m0, livre := o.commande, old(db.commandes), Delivered(db.livraisons, o.commande);
            db.events == old(db.events)
                         + [NewLivraison(c, id, o.montant, OrderProgression(db.livraisons, c, m0[c]), m0[c].etat)]
                         + RefreshEvents(c, m0[c], livre, now)
                         + StateEvent(c, Refreshed(m0[c], livre, now), Nudged(Refreshed(m0[c], livre, now), livre, now))
    ensures old(db.WithinTotals()) ==> db.WithinTotals()
  {
    var vals := LivraisonValsOf(o, req, now);
    ghost var before := db.commandes;
    var created := db.CreateLivraison(vals, uid, now, reference, sessionName, prixSac);
    id := created.value;
    ghost var refreshed := db.commandes;
    ghost var livre := Delivered(db.livraisons, o.commande);
    assert refreshed == before[o.commande := Refreshed(before[o.commande], livre, now)];
    NudgeAfterCreate(db, o.commande, now);
    UpdatedTwice(before, o.commande, Refreshed(before[o.commande], livre, now),
                 Nudged(Refreshed(before[o.commande], livre, now), livre, now));
    if WithinTotalsOf(refreshed, db.livraisons) {
      WithinAfterUpdate(refreshed, db.livraisons, o.commande, db.commandes[o.commande]);
    }
  }

  /** The check result of `create_sortie_stock` by user `uid`. */
  function SortieCheck(req: SortieRequest, uid: UserId, ss: seq<Session>, prixSac: real): Result<Conversion, ApiError> {
    ValidateSortie(req, LatestOpen(ss, uid), prixSac)
  }

  /** The values of the delivery `create_sortie_stock` creates beside a withdrawal on session `sid`: no order,
      the converted amount, paid cash, by `sessionUserName` (the name of the session's user) acting as user `livreurId`, flagged as a withdrawal and
      noted with `note`. */
  function ShadowVals(sid: SessionId, c: Conversion, sessionUserName: string, livreurId: UserId, note: string,
                      now: Time): LivraisonVals {
    LivraisonVals(None, None, Some(sid), None, now, c.montant, Some(Cash), Some(sessionUserName), Some(livreurId), Some(note), true)
  }

  /** The delivery built from `ShadowVals` belongs to no order, is on session `sid`, carries the converted amount
      paid cash by the given person, is flagged as a withdrawal and has the bags of that amount. */
  lemma ShadowRecord(sid: SessionId, c: Conversion, sessionUserName: string, livreurId: UserId, note: string, now: Time,
                     id: LivraisonId, user: UserId, reference: Option<string>, prixSac: real)
    ensures var l := NewRecord(ShadowVals(sid, c, sessionUserName, livreurId, note, now), id, sid, user, reference, prixSac);
            l.commande.None? && l.session == Some(sid) && l.montant == c.montant && l.typePaiement == Some(Cash)
            && l.livreur == Some(sessionUserName) && l.livreurId == Some(livreurId) && l.isSortieStock && l.notes == Some(note)
            && l.prixSac == prixSac && Bags(l) == SacsFarine(c.montant, prixSac) && l.id == id
  {
  }

  /** `create` of a delivery without order on the existing session `sid`: appended, and nothing else changes. */
  method StoreShadow(db: Db, vals: LivraisonVals, sid: SessionId, uid: UserId, now: Time, reference: Option<string>,
                     sessionName: string, prixSac: real) returns (id: LivraisonId)
    requires db.Valid() && vals.commande.None? && vals.session == Some(sid) && sid < |db.sessions|
    modifies db`commandes, db`events, db`livraisons, db`nextLivraison, db`sessions
    ensures db.Valid()
    ensures db.sessions == old(db.sessions) && db.commandes == old(db.commandes) && db.events == old(db.events)
    ensures id == old(db.nextLivraison) && |db.livraisons| == old(|db.livraisons|) + 1
    ensures db.livraisons == old(db.livraisons) + [NewRecord(vals, id, sid, db.sessions[sid].user, reference, prixSac)]
  {
    var created := db.CreateLivraison(vals, uid, now, reference, sessionName, prixSac);
    id := created.value;
  }

  /** `create_sortie_stock` by user `uid`: refused, with nothing changed, when a check fails; otherwise a withdrawal
      of the converted bag count is created on the user's open session, then the delivery of `ShadowVals` for the
      converted amount, by the session's user, noted with the motif (see `ShadowRecord`). The numbers in the note
      are formatted by `show2` (`:.2f`) and `show0` (`:.0f`). Returns the two new ids. */
  method CreateSortieStock(db: Db, req: SortieRequest, uid: UserId, now: Time, sortieRef: Option<string>,
                           livraisonRef: Option<string>, sessionName: string, prixSac: real, poidsSac: real,
                           sessionUserName: string, show2: real -> string, show0: real -> string)
    returns (r: Result<(nat, LivraisonId), ApiError>)
    requires db.Valid()
    modifies db`commandes, db`events, db`livraisons, db`nextLivraison, db`sessions, db`sorties
    ensures db.Valid()
    ensures r.Err? <==> old(SortieCheck(req, uid, db.sessions, prixSac)).Err?
    ensures r.Err? ==> r.error == old(SortieCheck(req, uid, db.sessions, prixSac)).error
                       && db.sorties == old(db.sorties) && db.livraisons == old(db.livraisons)
                       && db.nextLivraison == old(db.nextLivraison)
    ensures r.Ok? ==> old(LatestOpen(db.sessions, uid)).Some? && old(LatestOpen(db.sessions, uid)).value < |db.sessions|
    ensures r.Ok? ==> var c := old(SortieCheck(req, uid, db.sessions, prixSac)).value;
                      var sid := old(LatestOpen(db.sessions, uid)).value;
                      r.value == (old(|db.sorties|), old(db.nextLivraison))
                      && db.sorties == old(db.sorties)
                                       + [Sortie(RecordName(None, sortieRef), sid, now, req.motif.value, c.sacs,
                                                 Kilograms(c.sacs, poidsSac), TypeSortieOf(req.typeSortie).value,
                                                 req.responsable, req.notes)]
                      && db.livraisons == old(db.livraisons)
                                          + [NewRecord(ShadowVals(sid, c, sessionUserName, db.sessions[sid].user,
                                                                  ShadowNote(req.notes, req.motif.value, show2(c.sacs), show0(c.montant)), now),
                                                       old(db.nextLivraison), sid, db.sessions[sid].user, livraisonRef, prixSac)]
    ensures db.sessions == old(db.sessions) && db.commandes == old(db.commandes) && db.events == old(db.events)
  {
    var open := LatestOpen(db.sessions, uid);
    var check := ValidateSortie(req, open, prixSac);
    if check.Err? {
      return Err(check.error);
    }
    var ids := StoreSortieStock(db, req, check.value, open.value, uid, now, sortieRef, livraisonRef, sessionName, prixSac,
                                poidsSac, sessionUserName, show2, show0);
    r := Ok(ids);
  }

  /** The writes of `create_sortie_stock` once its checks have passed with conversion `c` on the open session `sid`:
      the withdrawal, then the delivery that mirrors it. */
  method StoreSortieStock(db: Db, req: SortieRequest, c: Conversion, sid: SessionId, uid: UserId, now: Time,
                          sortieRef: Option<string>, livraisonRef: Option<string>, sessionName: string, prixSac: real,
                          poidsSac: real, sessionUserName: string, show2: real -> string, show0: real -> string)
    returns (ids: (nat, LivraisonId))
    requires db.Valid() && sid < |db.sessions| && req.motif.Some? && TypeSortieOf(req.typeSortie).Some?
    modifies db`commandes, db`events, db`livraisons, db`nextLivraison, db`sessions, db`sorties
    ensures db.Valid()
    ensures ids == (old(|db.sorties|), old(db.nextLivraison))
    ensures db.sorties == old(db.sorties)
                          + [Sortie(RecordName(None, sortieRef), sid, now, req.motif.value, c.sacs, Kilograms(c.sacs, poidsSac),
                                    TypeSortieOf(req.typeSortie).value, req.responsable, req.notes)]
    ensures db.sessions == old(db.sessions) && db.commandes == old(db.commandes) && db.events == old(db.events)
    ensures db.livraisons == old(db.livraisons)
                             + [NewRecord(ShadowVals(sid, c, sessionUserName, db.sessions[sid].user,
                                                     ShadowNote(req.notes, req.motif.value, show2(c.sacs), show0(c.montant)), now),
                                          old(db.nextLivraison), sid, db.sessions[sid].user, livraisonRef, prixSac)]
  {
    var motif := req.motif.value;
    var svals := SortieVals(None, Some(sid), now, motif, c.sacs, TypeSortieOf(req.typeSortie).value, req.responsable, req.notes);
    var sortie := db.CreateSortie(svals, uid, now, sortieRef, sessionName, poidsSac);
    var note := ShadowNote(req.notes, motif, show2(c.sacs), show0(c.montant));
    var lvals := ShadowVals(sid, c, sessionUserName, db.sessions[sid].user, note, now);
    var liv := StoreShadow(db, lvals, sid, uid, now, livraisonRef, sessionName, prixSac);
    ids := (sortie.value, liv);
  }

  /** `session_close` by user `uid`: the user's open session is closed at `now`; refused, with nothing changed, as
      `CloseDecision` says (never with `Forbidden`, see `CloseNeverForbidden`). */
  method SessionClose(db: Db, uid: UserId, isSystem: bool, now: Time) returns (r: Result<SessionId, ApiError>)
    requires db.Valid()
    modifies db`sessions
    ensures db.Valid()
    ensures r == old(CloseDecision(LatestOpen(db.sessions, uid), db.sessions, uid, isSystem))
    ensures r.Err? ==> db.sessions == old(db.sessions)
    ensures r.Ok? ==> db.sessions == old(db.sessions)[r.value := old(db.sessions)[r.value].(state := Ferme, dateCloture := Some(now))]
  {
    r := CloseDecision(LatestOpen(db.sessions, uid), db.sessions, uid, isSystem);
    if r.Ok? {
      db.CloseSession(r.value, now);
    }
  }
}
